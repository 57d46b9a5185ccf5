/** The store's limits on running sessions and on directories, over every run and in whatever a crash brings back. */
module SessionCapacity {
  import opened Common
  import opened SessionDisk
  import opened SessionStore
  import opened SessionSafety

  // ---- Running and published sessions ------------------------------------------------------

  ghost predicate FewRunning(s: State) {
    |s.active| <= MAX_RUNNING && (s.op.Admitted? || s.op.Building? ==> |s.active| < MAX_RUNNING)
  }

  ghost predicate FewSessions(s: State) {
    && (forall v :: v in s.disk.root.restorable ==> |v.sessions| <= MAX_SESSIONS)
    && (s.op.Admitted? ==> |s.disk.root.live.sessions| < MAX_SESSIONS)
  }

  lemma ReleaseShrinks(active: map<Id, Active>, id: Id, q: nat)
    ensures |Release(active, id, q)| <= |active|
  {
    SubsetSize(Release(active, id, q).Keys, active.Keys);
  }

  lemma InsertGrowsByOne<T>(m: map<Id, T>, id: Id, v: T)
    ensures |m[id := v]| <= |m| + 1
    ensures id in m ==> |m[id := v]| == |m|
  {
    assert m[id := v].Keys == m.Keys + {id};
    if id in m { assert m.Keys + {id} == m.Keys; }
  }

  lemma DropShrinks<T>(m: map<Id, T>, id: Id)
    ensures |m - {id}| <= |m|
  {
    SubsetSize((m - {id}).Keys, m.Keys);
  }

  lemma FewKeeping(s: State, l: KeepStep)
    requires s.disk.root.Sound() && FewRunning(s) && FewSessions(s) && KeepEnabled(s, l)
    ensures FewRunning(KeepApply(s, l)) && FewSessions(KeepApply(s, l))
  {
    if l.Rmdir? { DropShrinks(s.disk.root.live.sessions, s.op.id); }
  }

  lemma FewBuilding(s: State, l: BuildStep)
    requires s.disk.root.Sound() && FewRunning(s) && FewSessions(s) && BuildEnabled(s, l)
    ensures FewRunning(BuildApply(s, l)) && FewSessions(BuildApply(s, l))
  {
    match l
    case Make(n) => InsertGrowsByOne(s.disk.root.live.sessions, s.op.start.id, n);
    case Register => InsertGrowsByOne(s.active, s.op.start.id, Active(s.next, true));
    case _ =>
  }

  lemma FewLaunching(s: State, l: LaunchStep)
    requires s.disk.root.Sound() && FewRunning(s) && FewSessions(s) && LaunchEnabled(s, l)
    ensures FewRunning(LaunchApply(s, l)) && FewSessions(LaunchApply(s, l))
  {
    ReleaseShrinks(s.active, s.op.start.id, s.op.sequence);
  }

  lemma FewWorking(s: State, f: WorkStep)
    requires FewRunning(s) && FewSessions(s) && WorkEnabled(s, f)
    ensures FewRunning(WorkApply(s, f)) && FewSessions(WorkApply(s, f))
  {
    match f
    case Retire(q) => ReleaseShrinks(s.active, s.workers[q].id, q);
    case Cancel(id) => InsertGrowsByOne(s.active, id, s.active[id].(sender := false));
    case _ =>
  }

  lemma FewReading(s: State, f: ReadStep)
    requires FewRunning(s) && FewSessions(s) && ReadEnabled(s, f)
    ensures FewRunning(ReadApply(s, f)) && FewSessions(ReadApply(s, f))
  {}

  // ---- Every run ---------------------------------------------------------------------------

  /** Safe and within both limits. */
  ghost predicate Limited(s: State) { Safe(s) && FewRunning(s) && FewSessions(s) }

  lemma StartsLimited()
    ensures Limited(START)
  {
    StartsSafe();
  }

  lemma FewCrashing(s: State, image: Disk)
    requires FewSessions(s) && CrashImage(s.disk, image)
    ensures FewRunning(CrashApply(s, image)) && FewSessions(CrashApply(s, image))
  {}

  lemma LimitedKept(s: State, t: Step)
    requires Limited(s) && Enabled(s, t)
    ensures Limited(Apply(s, t))
  {
    SafeKept(s, t);
    match t
    case Keeping(l) => FewKeeping(s, l);
    case Starting(l) => FewBuilding(s, l);
    case Launching(l) => FewLaunching(s, l);
    case Reading(f) => FewReading(s, f);
    case Working(f) => FewWorking(s, f);
    case Crashing(image) => FewCrashing(s, image);
  }

  lemma {:induction false} LimitedAlways(s: State, run: seq<Step>)
    requires Limited(s) && Possible(s, run)
    ensures Limited(After(s, run))
    decreases |run|
  {
    if run != [] {
      LimitedKept(s, run[0]);
      LimitedAlways(Apply(s, run[0]), run[1..]);
    }
  }

  /** At most 16 sessions run, and at most 128 directories exist, in every run and after any crash. */
  lemma LimitsHold(run: seq<Step>)
    requires Possible(START, run)
    ensures |After(START, run).active| <= 16
    ensures |After(START, run).disk.root.live.sessions| <= 128
  {
    StartsLimited();
    LimitedAlways(START, run);
  }
}
