/** Who wrote what a session's directory shows, and which directories show nothing. */
module SessionStatuses {
  import opened Common
  import opened SessionDisk
  import opened SessionStore
  import opened SessionSafety

  // ---- What a run has written --------------------------------------------------------------

  /** The status a step writes, and where: a start that it runs or was interrupted, a reader that it was interrupted,
      a worker the outcome it came to. */
  ghost function ToldBy(s: State, t: Step): set<(nat, Status)> {
    var sessions := s.disk.root.live.sessions;
    match t
    case Launching(Rename) => if s.op.Publishing? then {(s.op.node, Status(Running, Starter))} else {}
    case Launching(RenameFailure) => if s.op.Publishing? then {(s.op.node, Status(Interrupted, Starter))} else {}
    case Reading(Mark(k)) =>
      if k in s.readers && s.readers[k].id in sessions then {(sessions[s.readers[k].id], Status(Interrupted, Reader))} else {}
    case Working(Publish(q, state)) =>
      if q in s.workers && s.workers[q].id in sessions then {(sessions[s.workers[q].id], Status(state, Supervisor))} else {}
    case _ => {}
  }

  ghost function ToldIn(s: State, run: seq<Step>): set<(nat, Status)>
    requires Possible(s, run)
    decreases |run|
  {
    if run == [] then {} else ToldBy(s, run[0]) + ToldIn(Apply(s, run[0]), run[1..])
  }

  /** Every status in any version of a directory was written there. */
  ghost predicate Told(d: Disk, told: set<(nat, Status)>) {
    forall n, e :: n in d.nodes && e in d.nodes[n].entries.restorable && e.status.Some? ==> (n, e.status.value) in told
  }

  lemma EntriesTold(d: Disk, n: nat, e: Entries, told: set<(nat, Status)>)
    requires n in d.nodes && Told(d, told) && (e.status.Some? ==> (n, e.status.value) in told)
    ensures Told(PutEntries(d, n, e), told)
  {}

  lemma SameTold(d: Disk, after: Disk, told: set<(nat, Status)>)
    requires Told(d, told)
    requires forall n, e :: n in after.nodes && e in after.nodes[n].entries.restorable ==>
               e == EMPTY || (n in d.nodes && e in d.nodes[n].entries.restorable)
    ensures Told(after, told)
  {}

  lemma KeepingTold(s: State, l: KeepStep, told: set<(nat, Status)>)
    requires NodesSound(s.disk) && Told(s.disk, told) && KeepEnabled(s, l)
    ensures Told(KeepApply(s, l).disk, told)
  {
    if l.Unlink? {
      assert NodeSound(s.disk.nodes[s.op.node]);
      EntriesTold(s.disk, s.op.node, l.left, told);
    } else {
      SameTold(s.disk, KeepApply(s, l).disk, told);
    }
  }

  lemma BuildingTold(s: State, l: BuildStep, told: set<(nat, Status)>)
    requires NodesSound(s.disk) && Told(s.disk, told) && BuildEnabled(s, l)
    ensures Told(BuildApply(s, l).disk, told)
  {
    if l.CreateLog? || l.CreateReceipt? {
      var e := s.disk.nodes[s.op.node].entries.live;
      assert NodeSound(s.disk.nodes[s.op.node]);
      EntriesTold(s.disk, s.op.node, if l.CreateLog? then e.(log := true) else e.(receipt := true), told);
    } else {
      SameTold(s.disk, BuildApply(s, l).disk, told);
    }
  }

  lemma StatusTold(d: Disk, n: nat, st: Status, told: set<(nat, Status)>)
    requires n in d.nodes && Told(d, told)
    ensures Told(PutStatus(d, n, st), told + {(n, st)})
  {
    EntriesTold(d, n, d.nodes[n].entries.live.(status := Some(st)), told + {(n, st)});
  }

  lemma LaunchingTold(s: State, l: LaunchStep, told: set<(nat, Status)>)
    requires NodesSound(s.disk) && Told(s.disk, told) && LaunchEnabled(s, l)
    ensures Told(LaunchApply(s, l).disk, told + ToldBy(s, Launching(l)))
  {
    match l
    case Rename => StatusTold(s.disk, s.op.node, Status(Running, Starter), told);
    case RenameFailure => StatusTold(s.disk, s.op.node, Status(Interrupted, Starter), told);
    case SyncDirectory => assert NodeSound(s.disk.nodes[s.op.node]);
    case _ =>
  }

  lemma OutsideTold(s: State, t: Step, told: set<(nat, Status)>)
    requires Told(s.disk, told) && Enabled(s, t) && (t.Reading? || t.Working?)
    ensures Told(Apply(s, t).disk, told + ToldBy(s, t))
  {
    var sessions := s.disk.root.live.sessions;
    if t.Reading? && t.read.Mark? {
      StatusTold(s.disk, sessions[s.readers[t.read.reader].id], Status(Interrupted, Reader), told);
    } else if t.Working? && t.work.Publish? {
      StatusTold(s.disk, sessions[s.workers[t.work.worker].id], Status(t.work.state, Supervisor), told);
    } else {
      SameTold(s.disk, Apply(s, t).disk, told);
    }
  }

  lemma CrashTold(d: Disk, image: Disk, told: set<(nat, Status)>)
    requires Told(d, told) && CrashImage(d, image)
    ensures Told(image, told)
  {
    forall n | n in image.nodes ensures NodeRestoredTo(d.nodes[n], image.nodes[n]) {}
  }

  lemma ToldKept(s: State, t: Step, told: set<(nat, Status)>)
    requires NodesSound(s.disk) && Told(s.disk, told) && Enabled(s, t)
    ensures Told(Apply(s, t).disk, told + ToldBy(s, t))
  {
    match t
    case Keeping(l) => KeepingTold(s, l, told);
    case Starting(l) => BuildingTold(s, l, told);
    case Launching(l) => LaunchingTold(s, l, told);
    case Crashing(image) => CrashTold(s.disk, image, told);
    case _ => OutsideTold(s, t, told);
  }

  lemma {:induction false} ToldAlways(s: State, run: seq<Step>, told: set<(nat, Status)>)
    requires Structure(s) && Told(s.disk, told) && Possible(s, run)
    ensures Told(After(s, run).disk, told + ToldIn(s, run))
    decreases |run|
  {
    if run == [] {
      assert told + {} == told;
    } else {
      var t, next := run[0], Apply(s, run[0]);
      StructureKept(s, t);
      ToldKept(s, t, told);
      ToldAlways(next, run[1..], told + ToldBy(s, t));
      assert told + ToldBy(s, t) + ToldIn(next, run[1..]) == told + ToldIn(s, run);
    }
  }

  lemma {:induction false} OutcomesArePublished(s: State, run: seq<Step>, n: nat, st: Status)
    requires Possible(s, run) && (n, st) in ToldIn(s, run)
    ensures st.state.Running? ==> st.author.Starter?
    ensures st.state.Running? || st.state.Interrupted? || exists q :: Working(Publish(q, st.state)) in run
    decreases |run|
  {
    if (n, st) in ToldBy(s, run[0]) {
      assert run[0] in run;
    } else {
      OutcomesArePublished(Apply(s, run[0]), run[1..], n, st);
      assert forall t :: t in run[1..] ==> t in run;
    }
  }

  /** Whatever a directory shows, a step of the run wrote it there: running, the start of that very directory; an
      outcome other than an interruption, the worker of the session that has it. */
  lemma StatusWasTold(run: seq<Step>, n: nat, st: Status)
    requires Possible(START, run)
    requires var d := After(START, run).disk; n in d.nodes && d.nodes[n].entries.live.status == Some(st)
    ensures (n, st) in ToldIn(START, run) && (st.state.Running? ==> st.author.Starter?)
    ensures st.state.Running? || st.state.Interrupted? || exists q :: Working(Publish(q, st.state)) in run
  {
    var d := After(START, run).disk;
    StartsSafe();
    SafeAlways(START, run);
    ToldAlways(START, run, {});
    assert {} + ToldIn(START, run) == ToldIn(START, run);
    assert NodeSound(d.nodes[n]);
    OutcomesArePublished(START, run, n, st);
  }

  // ---- Directories that show nothing -------------------------------------------------------

  ghost predicate Shows(d: Disk, n: nat) { n in d.nodes && d.nodes[n].entries.live.status.Some? }

  /** The lock holder is making or removing `n`. */
  ghost predicate InHand(op: Op, n: nat) {
    (op.Building? || op.Deleting? || (op.Publishing? && op.publish.Registered?)) && op.node == n
  }

  /** Only the directory in the lock holder's hand may be without a status. */
  ghost predicate Tidy(s: State) {
    forall id :: id in s.disk.root.live.sessions ==>
      Shows(s.disk, s.disk.root.live.sessions[id]) || InHand(s.op, s.disk.root.live.sessions[id])
  }

  lemma TidySteady(s: State, after: State)
    requires Tidy(s) && after.disk.root.live.sessions == s.disk.root.live.sessions
    requires forall n :: Shows(s.disk, n) ==> Shows(after.disk, n)
    requires forall n :: InHand(s.op, n) ==> InHand(after.op, n) || Shows(after.disk, n)
    ensures Tidy(after)
  {}

  lemma TidyKeeping(s: State, l: KeepStep)
    requires OneName(s.disk.root.live.sessions) && Placed(s) && Tidy(s) && KeepEnabled(s, l) && !l.StopDeleting?
    ensures Tidy(KeepApply(s, l))
  {
    if l.Rmdir? {
      assert forall id :: id in s.disk.root.live.sessions && s.disk.root.live.sessions[id] == s.op.node ==> id == s.op.id;
    } else if !l.Unlink? {
      TidySteady(s, KeepApply(s, l));
    }
  }

  lemma TidyBuilding(s: State, l: BuildStep)
    requires Placed(s) && Tidy(s) && BuildEnabled(s, l)
    ensures Tidy(BuildApply(s, l))
  {
    if !l.Make? { TidySteady(s, BuildApply(s, l)); }
  }

  lemma TidyLaunching(s: State, l: LaunchStep)
    requires Tidy(s) && LaunchEnabled(s, l)
    ensures Tidy(LaunchApply(s, l))
  {
    TidySteady(s, LaunchApply(s, l));
  }

  lemma TidyOutside(s: State, t: Step)
    requires Tidy(s) && Enabled(s, t) && (t.Reading? || t.Working?)
    ensures Tidy(Apply(s, t))
  {
    TidySteady(s, Apply(s, t));
  }

  lemma TidyKept(s: State, t: Step)
    requires Structure(s) && Tidy(s) && Enabled(s, t) && !t.Crashing? && t != Keeping(StopDeleting)
    ensures Tidy(Apply(s, t))
  {
    match t
    case Keeping(l) => TidyKeeping(s, l);
    case Starting(l) => TidyBuilding(s, l);
    case Launching(l) => TidyLaunching(s, l);
    case _ => TidyOutside(s, t);
  }

  ghost predicate Smooth(run: seq<Step>) {
    forall k :: 0 <= k < |run| ==> !run[k].Crashing? && run[k] != Keeping(StopDeleting)
  }

  lemma {:induction false} TidyAlways(s: State, run: seq<Step>)
    requires Structure(s) && Tidy(s) && Possible(s, run) && Smooth(run)
    ensures Tidy(After(s, run))
    decreases |run|
  {
    if run != [] {
      assert run[0] == run[0..1][0];
      StructureKept(s, run[0]);
      TidyKept(s, run[0]);
      TidyAlways(Apply(s, run[0]), run[1..]);
    }
  }

  /** Until the agent dies or fails to delete, whatever starts and removals fail: when nobody holds the lock, every
      directory shows a status. A start that fails leaves none behind. */
  lemma NothingIsLeftBehind(run: seq<Step>, id: Id)
    requires Possible(START, run) && Smooth(run)
    requires var s := After(START, run); s.op.Free? && id in s.disk.root.live.sessions
    ensures var d := After(START, run).disk; Exists(d, id) && NodeOf(d, id).entries.live.status.Some?
  {
    TidyAlways(START, run);
  }
}
