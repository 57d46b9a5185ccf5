/** Which session is supervised by whom: the active table, late releases, and readers that report an
    interruption. */
module SessionSupervision {
  import opened Common
  import opened SessionDisk
  import opened SessionStore
  import opened SessionSafety

  // ---- The table ---------------------------------------------------------------------------

  ghost predicate Numbered(s: State) {
    && (forall q :: q in s.workers ==> q < s.next)
    && (forall id :: id in s.active ==> s.active[id].sequence < s.next)
    && (s.op.Publishing? ==> s.op.sequence < s.next && s.op.sequence !in s.workers)
    && (forall q :: q in s.cancelled ==> q < s.next)
  }

  ghost predicate Holds(s: State, id: Id, q: nat) { id in s.active && s.active[id].sequence == q }

  /** Directories have one supervisor each. */
  ghost predicate Apart(s: State) {
    && (forall p, q :: p in s.workers && q in s.workers && s.workers[p].node == s.workers[q].node ==> p == q)
    && (s.op.Building? || s.op.Publishing? ==> forall q :: q in s.workers ==> s.workers[q].node != s.op.node)
  }

  /** Whoever supervises the directory its id names holds the entry. */
  ghost predicate Watched(s: State) {
    && (forall q :: q in s.workers && Names(s.disk, s.workers[q].id, s.workers[q].node) ==> Holds(s, s.workers[q].id, q))
    && (s.op.Publishing? ==> Holds(s, s.op.start.id, s.op.sequence))
  }

  /** Every entry has a supervisor that will release it. */
  ghost predicate Accounted(s: State) {
    forall id :: id in s.active ==>
      var q := s.active[id].sequence;
      (q in s.workers && s.workers[q].id == id) || (s.op.Publishing? && s.op.start.id == id && s.op.sequence == q)
  }

  /** A session's sender is gone exactly if the session was cancelled. */
  ghost predicate Senders(s: State) {
    forall id :: id in s.active ==> (s.active[id].sender <==> s.active[id].sequence !in s.cancelled)
  }

  ghost predicate Table(s: State) { Numbered(s) && Apart(s) && Watched(s) && Accounted(s) && Senders(s) }

  /** No directory is newly named, except possibly a fresh one. */
  ghost predicate NoNewNames(d: Disk, after: Disk) {
    forall id, n :: Names(after, id, n) && n in d.nodes ==> Names(d, id, n)
  }

  /** The table, the workers and what the lock holder supervises stay as they are. */
  ghost predicate Steady(s: State, after: State) {
    && after.active == s.active && after.next == s.next && after.workers == s.workers && after.cancelled == s.cancelled
    && NoNewNames(s.disk, after.disk)
    && (s.op.Publishing? <==> after.op.Publishing?)
    && (after.op.Publishing? ==>
          s.op.start.id == after.op.start.id && s.op.node == after.op.node && s.op.sequence == after.op.sequence)
    && (after.op.Building? ==> after.op.node !in s.disk.nodes || (s.op.Building? && s.op.node == after.op.node))
  }

  lemma TableSteady(s: State, after: State)
    requires OnDisk(s) && Table(s) && Steady(s, after)
    ensures Table(after)
  {}

  lemma TableKeeping(s: State, l: KeepStep)
    requires Placed(s) && OnDisk(s) && Table(s) && KeepEnabled(s, l)
    ensures Table(KeepApply(s, l))
  {
    TableSteady(s, KeepApply(s, l));
  }

  lemma TableRegister(s: State, after: State)
    requires Placed(s) && OnDisk(s) && Table(s) && BuildEnabled(s, Register) && after == BuildApply(s, Register)
    ensures Table(after)
  {
    forall q | q in s.workers && Names(s.disk, s.workers[q].id, s.workers[q].node)
      ensures s.workers[q].id != s.op.start.id
    {
      assert s.workers[q].node != s.op.node;
    }
  }

  lemma TableBuilding(s: State, l: BuildStep)
    requires Placed(s) && OnDisk(s) && Table(s) && BuildEnabled(s, l)
    ensures Table(BuildApply(s, l))
  {
    if l.Register? { TableRegister(s, BuildApply(s, l)); } else { TableSteady(s, BuildApply(s, l)); }
  }

  /** The lock holder gives its own entry back. */
  lemma TableReleased(s: State, after: State)
    requires Table(s) && s.op.Publishing? && !after.op.Publishing? && !after.op.Building?
    requires after.active == Release(s.active, s.op.start.id, s.op.sequence)
    requires after.next == s.next && after.workers == s.workers && after.cancelled == s.cancelled && after.disk == s.disk
    ensures Table(after)
  {}

  lemma TableLaunched(s: State, after: State)
    requires Table(s) && LaunchEnabled(s, Launch) && after == LaunchApply(s, Launch)
    ensures Table(after)
  {}

  lemma TableLaunching(s: State, l: LaunchStep)
    requires OnDisk(s) && Table(s) && LaunchEnabled(s, l)
    ensures Table(LaunchApply(s, l))
  {
    var after := LaunchApply(s, l);
    match l
    case Launch => TableLaunched(s, after);
    case SyncStoreFails => TableReleased(s, after);
    case Abandon => TableReleased(s, after);
    case PublishFails => TableReleased(s, after);
    case _ => TableSteady(s, after);
  }

  lemma TableReading(s: State, f: ReadStep)
    requires OnDisk(s) && Table(s) && ReadEnabled(s, f)
    ensures Table(ReadApply(s, f))
  {
    TableSteady(s, ReadApply(s, f));
  }

  lemma TableRetired(s: State, q: nat)
    requires Table(s) && WorkEnabled(s, Retire(q))
    ensures Table(WorkApply(s, Retire(q)))
  {}

  lemma TableClosed(s: State, f: WorkStep)
    requires OnDisk(s) && Table(s) && WorkEnabled(s, f) && (f.Publish? || f.GiveUp?)
    ensures Table(WorkApply(s, f))
  {
    var after := WorkApply(s, f);
    forall p | p in after.workers
      ensures after.workers[p].id == s.workers[p].id && after.workers[p].node == s.workers[p].node
    {}
    assert NoNewNames(s.disk, after.disk);
  }

  lemma SenderTaken(s: State, id: Id, after: State)
    requires Accounted(s) && Senders(s) && id in s.active && after.active.Keys == s.active.Keys
    requires forall i :: i in s.active ==>
               after.active[i] == if i == id then s.active[i].(sender := false) else s.active[i]
    requires after.cancelled == s.cancelled + {s.active[id].sequence}
    requires s.op.Publishing? ==> s.op.sequence !in s.workers
    ensures Senders(after)
  {}

  lemma TableCancelled(s: State, id: Id)
    requires Table(s) && WorkEnabled(s, Cancel(id))
    ensures Table(WorkApply(s, Cancel(id)))
  {
    var after := WorkApply(s, Cancel(id));
    assert forall i :: i in after.active ==> i in s.active && after.active[i].sequence == s.active[i].sequence;
    SenderTaken(s, id, after);
  }

  lemma TableWorking(s: State, f: WorkStep)
    requires OnDisk(s) && Table(s) && WorkEnabled(s, f)
    ensures Table(WorkApply(s, f))
  {
    match f
    case Retire(q) => TableRetired(s, q);
    case Append(q) => TableSteady(s, WorkApply(s, f));
    case Cancel(id) => TableCancelled(s, id);
    case _ => TableClosed(s, f);
  }

  // ---- Readers -----------------------------------------------------------------------------

  /** The lock holder has not yet published a status in `n`. */
  ghost predicate Unpublished(op: Op, n: nat) {
    (op.Building? && op.node == n) || (op.Publishing? && op.node == n && op.publish.Registered?)
  }

  ghost predicate IsRunning(d: Disk, n: nat) {
    n in d.nodes && d.nodes[n].entries.live.status.Some? && d.nodes[n].entries.live.status.value.state.Running?
  }

  ghost predicate Started(d: Disk, n: nat) {
    n in d.nodes && d.nodes[n].entries.live.status == Some(Status(Running, Starter))
  }

  ghost predicate Honest(e: Entries) {
    e.status.Some? && e.status.value.state.Running? ==> e.status.value.author.Starter?
  }

  /** Only a start writes a running status, in whatever version of a directory. */
  ghost predicate RunningStarted(s: State) {
    forall n :: n in s.disk.nodes ==>
      && Honest(s.disk.nodes[n].entries.live)
      && (IsRunning(s.disk, n) ==> !Unpublished(s.op, n))
      && (forall e :: e in s.disk.nodes[n].entries.restorable ==> Honest(e))
  }

  ghost predicate Unwatched(s: State, n: nat) {
    && (forall q :: q in s.workers ==> s.workers[q].node != n)
    && !(s.op.Publishing? && s.op.node == n)
  }

  /** A reader past its look at the table has before it a directory nobody supervises, unless the id
      has since been given another one. */
  ghost predicate Clear(s: State) {
    forall k :: k in s.readers ==>
      var r := s.readers[k];
      !Unpublished(s.op, r.node) && (!r.stage.Saw? && Names(s.disk, r.id, r.node) ==> Unwatched(s, r.node))
  }

  /** A worker's directory is named by its own id or not at all. */
  ghost predicate Homed(s: State) {
    forall q, id :: q in s.workers && Names(s.disk, id, s.workers[q].node) ==> id == s.workers[q].id
  }

  lemma HomedSteady(s: State, after: State)
    requires OnDisk(s) && Homed(s) && NoNewNames(s.disk, after.disk)
    requires forall q :: q in after.workers ==>
               q in s.workers && after.workers[q].id == s.workers[q].id && after.workers[q].node == s.workers[q].node
    ensures Homed(after)
  {}

  lemma HomedLaunched(s: State)
    requires OneName(s.disk.root.live.sessions) && Placed(s) && Homed(s) && LaunchEnabled(s, Launch)
    ensures Homed(LaunchApply(s, Launch))
  {}

  lemma HomedKeeping(s: State, l: KeepStep)
    requires OnDisk(s) && Homed(s) && KeepEnabled(s, l)
    ensures Homed(KeepApply(s, l))
  {
    HomedSteady(s, KeepApply(s, l));
  }

  lemma HomedBuilding(s: State, l: BuildStep)
    requires OnDisk(s) && Homed(s) && BuildEnabled(s, l)
    ensures Homed(BuildApply(s, l))
  {
    HomedSteady(s, BuildApply(s, l));
  }

  lemma HomedLaunching(s: State, l: LaunchStep)
    requires OnDisk(s) && Homed(s) && LaunchEnabled(s, l) && !l.Launch?
    ensures Homed(LaunchApply(s, l))
  {
    HomedSteady(s, LaunchApply(s, l));
  }

  lemma HomedReading(s: State, f: ReadStep)
    requires OnDisk(s) && Homed(s) && ReadEnabled(s, f)
    ensures Homed(ReadApply(s, f))
  {
    HomedSteady(s, ReadApply(s, f));
  }

  lemma HomedWorking(s: State, f: WorkStep)
    requires OnDisk(s) && Homed(s) && WorkEnabled(s, f)
    ensures Homed(WorkApply(s, f))
  {
    HomedSteady(s, WorkApply(s, f));
  }

  lemma RunningKeeping(s: State, l: KeepStep)
    requires Placed(s) && RunningStarted(s) && KeepEnabled(s, l)
    ensures RunningStarted(KeepApply(s, l))
  {}

  lemma RunningBuilding(s: State, l: BuildStep)
    requires Placed(s) && RunningStarted(s) && BuildEnabled(s, l)
    ensures RunningStarted(BuildApply(s, l))
  {}

  lemma RunningLaunching(s: State, l: LaunchStep)
    requires Placed(s) && RunningStarted(s) && LaunchEnabled(s, l)
    ensures RunningStarted(LaunchApply(s, l))
  {}

  lemma RunningReading(s: State, f: ReadStep)
    requires RunningStarted(s) && ReadEnabled(s, f)
    ensures RunningStarted(ReadApply(s, f))
  {}

  lemma RunningWorking(s: State, f: WorkStep)
    requires RunningStarted(s) && WorkEnabled(s, f)
    ensures RunningStarted(WorkApply(s, f))
  {}

  /** Readers go on as they were while nothing they may be looking at becomes supervised. */
  lemma ClearSteady(s: State, after: State)
    requires OnDisk(s) && Clear(s) && after.readers == s.readers && NoNewNames(s.disk, after.disk)
    requires forall n :: n in s.disk.nodes && Unpublished(after.op, n) ==> Unpublished(s.op, n)
    requires forall n :: n in s.disk.nodes && Unwatched(s, n) && !Unpublished(s.op, n) ==> Unwatched(after, n)
    ensures Clear(after)
  {}

  lemma ClearKeeping(s: State, l: KeepStep)
    requires Placed(s) && OnDisk(s) && Clear(s) && KeepEnabled(s, l)
    ensures Clear(KeepApply(s, l))
  {
    ClearSteady(s, KeepApply(s, l));
  }

  lemma ClearBuilding(s: State, l: BuildStep)
    requires Placed(s) && OnDisk(s) && Clear(s) && BuildEnabled(s, l)
    ensures Clear(BuildApply(s, l))
  {
    ClearSteady(s, BuildApply(s, l));
  }

  lemma ClearLaunching(s: State, l: LaunchStep)
    requires OnDisk(s) && Clear(s) && LaunchEnabled(s, l)
    ensures Clear(LaunchApply(s, l))
  {
    ClearSteady(s, LaunchApply(s, l));
  }

  /** The heart of `get`: a running status seen before, and no entry now, mean nobody supervises. */
  lemma CheckFindsUnwatched(s: State, k: nat)
    requires RootSound(s.disk) && Placed(s) && Homed(s) && Watched(s) && ReadEnabled(s, Check(k))
    requires Names(s.disk, s.readers[k].id, s.readers[k].node)
    ensures Unwatched(s, s.readers[k].node)
  {}

  lemma ClearChecked(s: State, k: nat)
    requires RootSound(s.disk) && Placed(s) && Homed(s) && Watched(s) && Clear(s) && ReadEnabled(s, Check(k))
    ensures Clear(ReadApply(s, Check(k)))
  {
    if Names(s.disk, s.readers[k].id, s.readers[k].node) { CheckFindsUnwatched(s, k); }
  }

  lemma ClearReading(s: State, f: ReadStep)
    requires OnDisk(s) && RunningStarted(s) && Clear(s) && ReadEnabled(s, f) && !f.Check?
    ensures Clear(ReadApply(s, f))
  {}

  lemma ClearWorking(s: State, f: WorkStep)
    requires OnDisk(s) && Clear(s) && WorkEnabled(s, f)
    ensures Clear(WorkApply(s, f))
  {
    ClearSteady(s, WorkApply(s, f));
  }

  // ---- Outcomes ----------------------------------------------------------------------------

  /** A worker that has not closed works in the directory its id names, which still shows the status
      of its start. */
  ghost predicate WorkersCalm(s: State) {
    forall q :: q in s.workers && !s.workers[q].closing && s.workers[q].id !in s.stale ==>
      Names(s.disk, s.workers[q].id, s.workers[q].node) && Started(s.disk, s.workers[q].node)
  }

  ghost predicate OpCalm(s: State) {
    && (s.op.Publishing? && !s.op.publish.Registered? && !s.op.publish.Failing? && s.op.start.id !in s.stale ==>
          Started(s.disk, s.op.node))
    && (s.op.Deleting? || s.op.Removing? ==>
          forall q :: q in s.workers && !s.workers[q].closing && s.workers[q].id !in s.stale ==>
            s.workers[q].node != s.op.node)
  }

  ghost predicate NoOutcome(d: Disk, n: nat) {
    n in d.nodes && (d.nodes[n].entries.live.status.Some? ==> !d.nodes[n].entries.live.status.value.author.Supervisor?)
  }

  /** What a reader is about to overwrite is no worker's outcome. */
  ghost predicate ReadersCalm(s: State) {
    forall k :: k in s.readers && s.readers[k].stage.Confirmed? && s.readers[k].id !in s.stale
                && Names(s.disk, s.readers[k].id, s.readers[k].node)
      ==> NoOutcome(s.disk, s.readers[k].node)
  }

  ghost predicate Calm(s: State) { WorkersCalm(s) && OpCalm(s) && ReadersCalm(s) }

  lemma CalmDeleting(s: State, l: KeepStep)
    requires OneName(s.disk.root.live.sessions) && OnDisk(s) && Homed(s) && Placed(s) && Calm(s)
    requires KeepEnabled(s, l) && (l.Unlink? || l.Rmdir?)
    ensures Calm(KeepApply(s, l))
  {}

  lemma CalmKeeping(s: State, l: KeepStep)
    requires OneName(s.disk.root.live.sessions) && OnDisk(s) && Homed(s) && Placed(s) && Calm(s)
    requires KeepEnabled(s, l) && !l.Unlink? && !l.Rmdir?
    ensures Calm(KeepApply(s, l))
  {}

  /** Nothing a worker or a reader has before it changes. */
  ghost predicate Undisturbed(s: State, after: State) {
    && after.workers == s.workers && after.readers == s.readers && after.stale == s.stale
    && (forall n :: n in s.disk.nodes ==>
          n in after.disk.nodes && after.disk.nodes[n].entries.live.status == s.disk.nodes[n].entries.live.status)
    && (forall id, n :: n in s.disk.nodes ==> (Names(after.disk, id, n) <==> Names(s.disk, id, n)))
  }

  lemma CalmUndisturbed(s: State, after: State)
    requires OnDisk(s) && Calm(s) && Undisturbed(s, after) && OpCalm(after)
    ensures Calm(after)
  {}

  lemma OpCalmBuilding(s: State, l: BuildStep)
    requires OnDisk(s) && Placed(s) && Apart(s) && Calm(s) && BuildEnabled(s, l)
    ensures OpCalm(BuildApply(s, l))
  {}

  lemma CalmBuilding(s: State, l: BuildStep)
    requires OnDisk(s) && Placed(s) && Apart(s) && Calm(s) && BuildEnabled(s, l)
    ensures Calm(BuildApply(s, l))
  {
    OpCalmBuilding(s, l);
    CalmUndisturbed(s, BuildApply(s, l));
  }

  lemma CalmStatus(s: State, l: LaunchStep)
    requires OneName(s.disk.root.live.sessions) && OnDisk(s) && Homed(s) && Placed(s) && Apart(s) && Calm(s)
    requires LaunchEnabled(s, l) && (l.Rename? || l.RenameFailure?)
    ensures Calm(LaunchApply(s, l))
  {}

  lemma CalmLaunching(s: State, l: LaunchStep)
    requires OnDisk(s) && Placed(s) && Apart(s) && Calm(s) && LaunchEnabled(s, l) && !l.Rename? && !l.RenameFailure?
    ensures Calm(LaunchApply(s, l))
  {}

  lemma CalmReading(s: State, f: ReadStep)
    requires OnDisk(s) && RunningStarted(s) && Calm(s) && ReadEnabled(s, f) && !f.Mark?
    ensures Calm(ReadApply(s, f))
  {}

  lemma CalmMarked(s: State, k: nat)
    requires OneName(s.disk.root.live.sessions) && OnDisk(s) && Homed(s) && Placed(s) && Clear(s) && Calm(s)
    requires ReadEnabled(s, Mark(k))
    ensures Calm(ReadApply(s, Mark(k)))
  {}

  lemma CalmWorking(s: State, f: WorkStep)
    requires Placed(s) && Calm(s) && WorkEnabled(s, f) && !f.Publish?
    ensures Calm(WorkApply(s, f))
  {}

  lemma CalmPublished(s: State, q: nat, state: SessionState)
    requires OneName(s.disk.root.live.sessions) && OnDisk(s) && Homed(s) && Placed(s) && Apart(s) && Clear(s) && Calm(s)
    requires WorkEnabled(s, Publish(q, state))
    ensures Calm(WorkApply(s, Publish(q, state)))
  {}

  // ---- Every run ---------------------------------------------------------------------------

  ghost predicate Supervised(s: State) {
    Structure(s) && Table(s) && Homed(s) && RunningStarted(s) && Clear(s) && Calm(s)
  }

  lemma SupervisedKeeping(s: State, l: KeepStep)
    requires Supervised(s) && KeepEnabled(s, l)
    ensures Supervised(KeepApply(s, l))
  {
    StructureKept(s, Keeping(l));
    TableKeeping(s, l); HomedKeeping(s, l); RunningKeeping(s, l); ClearKeeping(s, l);
    if l.Unlink? || l.Rmdir? { CalmDeleting(s, l); } else { CalmKeeping(s, l); }
  }

  lemma SupervisedBuilding(s: State, l: BuildStep)
    requires Supervised(s) && BuildEnabled(s, l)
    ensures Supervised(BuildApply(s, l))
  {
    StructureKept(s, Starting(l));
    TableBuilding(s, l); HomedBuilding(s, l); RunningBuilding(s, l); ClearBuilding(s, l); CalmBuilding(s, l);
  }

  lemma SupervisedLaunching(s: State, l: LaunchStep)
    requires Supervised(s) && LaunchEnabled(s, l)
    ensures Supervised(LaunchApply(s, l))
  {
    StructureKept(s, Launching(l));
    TableLaunching(s, l); RunningLaunching(s, l); ClearLaunching(s, l);
    if l.Rename? || l.RenameFailure? { CalmStatus(s, l); } else { CalmLaunching(s, l); }
    if l.Launch? { HomedLaunched(s); } else { HomedLaunching(s, l); }
  }

  lemma SupervisedReading(s: State, f: ReadStep)
    requires Supervised(s) && ReadEnabled(s, f)
    ensures Supervised(ReadApply(s, f))
  {
    StructureKept(s, Reading(f));
    TableReading(s, f); HomedReading(s, f); RunningReading(s, f);
    if f.Mark? { CalmMarked(s, f.reader); } else { CalmReading(s, f); }
    if f.Check? { ClearChecked(s, f.reader); } else { ClearReading(s, f); }
  }

  lemma SupervisedWorking(s: State, f: WorkStep)
    requires Supervised(s) && WorkEnabled(s, f)
    ensures Supervised(WorkApply(s, f))
  {
    StructureKept(s, Working(f));
    TableWorking(s, f); HomedWorking(s, f); RunningWorking(s, f); ClearWorking(s, f);
    if f.Publish? { CalmPublished(s, f.worker, f.state); } else { CalmWorking(s, f); }
  }

  lemma RunningCrashing(s: State, image: Disk)
    requires RunningStarted(s) && CrashImage(s.disk, image)
    ensures RunningStarted(CrashApply(s, image))
  {
    forall n | n in image.nodes
      ensures Honest(image.nodes[n].entries.live) && forall e :: e in image.nodes[n].entries.restorable ==> Honest(e)
    {
      assert NodeRestoredTo(s.disk.nodes[n], image.nodes[n]);
    }
  }

  lemma SupervisedCrashing(s: State, image: Disk)
    requires Supervised(s) && CrashImage(s.disk, image)
    ensures Supervised(CrashApply(s, image))
  {
    CrashSound(s.disk, image);
    RunningCrashing(s, image);
  }

  lemma SupervisedKept(s: State, t: Step)
    requires Supervised(s) && Enabled(s, t)
    ensures Supervised(Apply(s, t))
  {
    match t
    case Keeping(l) => SupervisedKeeping(s, l);
    case Starting(l) => SupervisedBuilding(s, l);
    case Launching(l) => SupervisedLaunching(s, l);
    case Reading(f) => SupervisedReading(s, f);
    case Working(f) => SupervisedWorking(s, f);
    case Crashing(image) => SupervisedCrashing(s, image);
  }

  lemma {:induction false} SupervisedAlways(s: State, run: seq<Step>)
    requires Supervised(s) && Possible(s, run)
    ensures Supervised(After(s, run))
    decreases |run|
  {
    if run != [] {
      SupervisedKept(s, run[0]);
      SupervisedAlways(Apply(s, run[0]), run[1..]);
    }
  }

  // ---- The promises ------------------------------------------------------------------------

  /** A worker whose outcome is still to come holds the entry under its id, in the directory that
      still shows it running, unless a reader of that same id has written into a directory it never read. */
  lemma WorkerHoldsItsEntry(run: seq<Step>, q: nat)
    requires Possible(START, run)
    requires var s := After(START, run); q in s.workers && !s.workers[q].closing && s.workers[q].id !in s.stale
    ensures var s := After(START, run);
            && Holds(s, s.workers[q].id, q)
            && Names(s.disk, s.workers[q].id, s.workers[q].node)
            && ShowsRunning(s.disk, s.workers[q].id)
  {
    SupervisedAlways(START, run);
  }

  /** A reader marks as interrupted only a session nobody supervises, and overwrites no worker's
      outcome, whenever the id still names the directory the reader first read. */
  lemma ReaderSparesTheSupervised(run: seq<Step>, k: nat)
    requires Possible(START, run) && ReadEnabled(After(START, run), Mark(k))
    requires var s := After(START, run); s.disk.root.live.sessions[s.readers[k].id] == s.readers[k].node
    ensures var s := After(START, run);
            && Unwatched(s, s.readers[k].node)
            && (s.readers[k].id !in s.stale ==> NoOutcome(s.disk, s.readers[k].node))
  {
    SupervisedAlways(START, run);
  }

  /** Entries have distinct sequence numbers, every one has a supervisor left to release it, and one that was not
      cancelled can be. */
  lemma EntriesAreAccounted(run: seq<Step>, i: Id, j: Id)
    requires Possible(START, run)
    requires i in After(START, run).active && j in After(START, run).active
    ensures var s := After(START, run);
            && (s.active[i].sequence == s.active[j].sequence ==> i == j)
            && (s.active[i].sender <==> s.active[i].sequence !in s.cancelled)
            && ((exists q :: q in s.workers && s.workers[q].id == i && s.active[i].sequence == q)
                || (s.op.Publishing? && s.op.start.id == i && s.op.sequence == s.active[i].sequence))
  {
    SupervisedAlways(START, run);
  }

  /** An entry that stays keeps its sender. */
  ghost predicate KeepsSender(s: State, after: State, id: Id) {
    id in s.active && id in after.active && s.active[id].sequence == after.active[id].sequence
    ==> after.active[id].sender == s.active[id].sender
  }

  ghost predicate KeepsId(s: State, after: State, q: nat) {
    q in s.workers && q in after.workers ==> after.workers[q].id == s.workers[q].id
  }

  lemma SenderBuilding(s: State, l: BuildStep, id: Id, q: nat)
    requires Numbered(s) && BuildEnabled(s, l)
    ensures KeepsSender(s, BuildApply(s, l), id) && KeepsId(s, BuildApply(s, l), q)
  {}

  lemma SenderLaunching(s: State, l: LaunchStep, id: Id, q: nat)
    requires Numbered(s) && LaunchEnabled(s, l)
    ensures KeepsSender(s, LaunchApply(s, l), id) && KeepsId(s, LaunchApply(s, l), q)
  {}

  lemma SenderWorking(s: State, f: WorkStep, id: Id, q: nat)
    requires WorkEnabled(s, f) && f != Cancel(id)
    ensures KeepsSender(s, WorkApply(s, f), id)
  {}

  lemma IdWorking(s: State, f: WorkStep, q: nat)
    requires WorkEnabled(s, f)
    ensures KeepsId(s, WorkApply(s, f), q)
  {}

  lemma SenderKept(s: State, t: Step, id: Id, q: nat)
    requires Numbered(s) && Enabled(s, t)
    ensures t == Working(Cancel(id)) || KeepsSender(s, Apply(s, t), id)
    ensures KeepsId(s, Apply(s, t), q)
  {
    match t
    case Starting(l) => SenderBuilding(s, l, id, q);
    case Launching(l) => SenderLaunching(s, l, id, q);
    case Working(f) => IdWorking(s, f, q); if f != Cancel(id) { SenderWorking(s, f, id, q); }
    case _ =>
  }

  /** Whatever else happens in whatever run, a predecessor's late release included, the worker of the directory
      its id names keeps its entry, and its cancel sender until it is cancelled. */
  lemma SuccessorIsNotEvicted(run: seq<Step>, t: Step, q: nat)
    requires Possible(START, run) && Enabled(After(START, run), t)
    requires var s := After(START, run); q in s.workers && Names(s.disk, s.workers[q].id, s.workers[q].node)
    requires var s := Apply(After(START, run), t); q in s.workers && Names(s.disk, s.workers[q].id, s.workers[q].node)
    ensures var s, next := After(START, run), Apply(After(START, run), t); var id := s.workers[q].id;
            && Holds(s, id, q) && Holds(next, id, q)
            && (next.active[id].sender == s.active[id].sender || t == Working(Cancel(id)))
  {
    var s := After(START, run);
    SupervisedAlways(START, run);
    SupervisedKept(s, t);
    SenderKept(s, t, s.workers[q].id, q);
  }

  /** And a worker whose outcome is still to come is the worker of such a directory, unless a reader of its own id
      has written into a directory it never read. */
  lemma WorkingIsNotEvicted(run: seq<Step>, t: Step, q: nat)
    requires Possible(START, run) && Enabled(After(START, run), t)
    requires var s := After(START, run); q in s.workers && !s.workers[q].closing && s.workers[q].id !in s.stale
    requires var s := Apply(After(START, run), t); q in s.workers && !s.workers[q].closing && s.workers[q].id !in s.stale
    ensures var s, next := After(START, run), Apply(After(START, run), t); var id := s.workers[q].id;
            && Holds(s, id, q) && Holds(next, id, q)
            && (next.active[id].sender == s.active[id].sender || t == Working(Cancel(id)))
  {
    SupervisedAlways(START, run);
    SupervisedKept(After(START, run), t);
    SuccessorIsNotEvicted(run, t, q);
  }
}
