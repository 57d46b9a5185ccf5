/** The guest session store as a machine of its separate effects: the holder of the creation lock,
    readers outside it, workers, cancellations and crashes, in any order. */
module SessionStore {
  import opened Common
  import opened SessionDisk

  const MAX_SESSIONS := 128
  const MAX_REPLAY_RECEIPTS := 1024
  const MAX_RUNNING := 16

  datatype Request = Request(id: Id, digest: string, replay: bool)

  datatype Active = Active(sequence: nat, sender: bool)

  datatype BuildStage = Made | Logged | Spawned | ReceiptCreated | ReceiptWritten | ReceiptSynced

  datatype PublishStage = Registered | Renamed | Accepted | Rooted | Failing

  datatype RemoveStage = Observed | TombstonesMade | Buried | TombstonesSynced

  /** What a directory removal returns to. */
  datatype Resume = ToFree | ToScan(request: Option<Request>)

  /** What the holder of the creation lock is about to do. */
  datatype Op =
    | Free
    | Scanning(request: Option<Request>)
    | Admitted(start: Request)
    | Building(start: Request, node: nat, build: BuildStage)
    | Publishing(start: Request, node: nat, sequence: nat, publish: PublishStage)
    | Deleting(id: Id, node: nat, resume: Resume, cleanup: bool)
    | Removing(id: Id, node: nat, remove: RemoveStage)

  /** A `get` that has seen a running status: once, with no active entry, then again. */
  datatype ReadStage = Saw | Unsupervised | Confirmed

  datatype Read = Read(id: Id, node: nat, stage: ReadStage)

  /** A worker until its release. `closing` once its outcome is published or given up. */
  datatype Worker = Worker(id: Id, node: nat, closing: bool)

  datatype Spawn = Spawn(id: Id, digest: string, node: nat, replay: bool)

  /** `spawns`, `cancelled` and `stale` record history and steer nothing. `stale`: the ids a reader of
      which has, since the last crash, written a status into a directory other than the one it had
      read. */
  datatype State = State(
    disk: Disk,
    active: map<Id, Active>,
    next: nat,
    op: Op,
    readers: map<nat, Read>,
    workers: map<nat, Worker>,
    spawns: seq<Spawn>,
    cancelled: set<nat>,
    stale: set<Id>)

  const START := State(BLANK, map[], 0, Free, map[], map[], [], {}, {})

  predicate HexDigit(c: char) { '0' <= c <= '9' || 'a' <= c <= 'f' || 'A' <= c <= 'F' }

  predicate ValidId(id: Id) {
    && |id| == 36
    && forall i :: 0 <= i < 36 ==> if i in [8, 13, 18, 23] then id[i] == '-' else HexDigit(id[i])
  }

  // ---- The mutex-guarded table -------------------------------------------------------------

  function Release(active: map<Id, Active>, id: Id, sequence: nat): map<Id, Active> {
    if id in active && active[id].sequence == sequence then active - {id} else active
  }

  // ---- The answer to a start ---------------------------------------------------------------

  datatype Answer = Conflict | Existing(node: nat) | Exhausted | TooManyRunning | RetentionLimit | IdExists | Create

  function Receipts(d: Disk): set<Id> {
    set id | id in d.root.live.sessions && Exists(d, id) && NodeOf(d, id).entries.live.receipt
  }

  /** Capacity, then `create_dir`. */
  function AnswerFresh(s: State, id: Id): Answer {
    if |s.active| >= MAX_RUNNING then TooManyRunning
    else if |s.disk.root.live.sessions| >= MAX_SESSIONS then RetentionLimit
    else if id in s.disk.root.live.sessions then IdExists
    else Create
  }

  /** What `start_owned` decides once its listing is complete. */
  function AnswerTo(s: State, r: Request): Answer {
    if !r.replay then AnswerFresh(s, r.id)
    else if r.id in Tombstones(s.disk) then Conflict
    else if Exists(s.disk, r.id) then
      if NodeOf(s.disk, r.id).entries.live.receipt && NodeOf(s.disk, r.id).receipt.live == Whole(r.digest)
      then Existing(s.disk.root.live.sessions[r.id]) else Conflict
    else if |Tombstones(s.disk)| + |Receipts(s.disk)| >= MAX_REPLAY_RECEIPTS then Exhausted
    else AnswerFresh(s, r.id)
  }

  /** A completed listing has met a status in every directory; it removed those without one. */
  ghost predicate Listed(d: Disk) {
    forall id :: id in d.root.live.sessions ==> Exists(d, id) && NodeOf(d, id).entries.live.status.Some?
  }

  // ---- Steps of the lock holder: listing, removing -----------------------------------------

  /** `Leave` covers every way of giving up the lock with nothing more to do: a finished listing, a
      refusal, a replayed answer, an I/O error or a dropped request. */
  datatype KeepStep =
    | BeginScan(request: Option<Request>) | Doom(id: Id) | Leave
    | BeginRemove(id: Id) | CreateTombstones | WriteTombstone | SealTombstones | SealRemoval | DeleteUnreceipted
    | Unlink(left: Entries) | Rmdir | StopDeleting

  /** Names can only go, and a removal meets an empty directory last. */
  predicate Shrinks(e: Entries, left: Entries) {
    && (left.status.Some? ==> left.status == e.status)
    && (left.receipt ==> e.receipt)
    && (left.log ==> e.log)
  }

  ghost predicate KeepEnabled(s: State, l: KeepStep) {
    var d := s.disk;
    match l
    case BeginScan(r) => s.op.Free? && (r.Some? ==> ValidId(r.value.id))
    case Doom(id) =>
      && s.op.Scanning? && Exists(d, id)
      && NodeOf(d, id).entries.live.status.None?
      && (NodeOf(d, id).entries.live.log ==> !NodeOf(d, id).output.live)
    case Leave => s.op.Scanning? || s.op.Admitted? || s.op.Removing?
    case BeginRemove(id) =>
      && s.op.Free? && Exists(d, id) && NodeOf(d, id).entries.live.status.Some?
      && !NodeOf(d, id).entries.live.status.value.state.Running?
    case CreateTombstones =>
      s.op.Removing? && s.op.remove.Observed? && s.op.node in d.nodes && d.nodes[s.op.node].entries.live.receipt
    case WriteTombstone => s.op.Removing? && s.op.remove.TombstonesMade?
    case SealTombstones => s.op.Removing? && s.op.remove.Buried?
    case SealRemoval => s.op.Removing? && s.op.remove.TombstonesSynced?
    case DeleteUnreceipted =>
      s.op.Removing? && s.op.remove.Observed? && s.op.node in d.nodes && !d.nodes[s.op.node].entries.live.receipt
    case Unlink(left) => s.op.Deleting? && s.op.node in d.nodes && Shrinks(d.nodes[s.op.node].entries.live, left)
    case Rmdir => s.op.Deleting? && s.op.node in d.nodes && d.nodes[s.op.node].entries.live == EMPTY
    case StopDeleting => s.op.Deleting?
  }

  ghost function KeepApply(s: State, l: KeepStep): (after: State)
    requires KeepEnabled(s, l)
    ensures after.spawns == s.spawns && after.active == s.active && after.workers == s.workers
  {
    var d := s.disk;
    match l
    case BeginScan(r) => s.(op := Scanning(r))
    case Doom(id) => s.(op := Deleting(id, d.root.live.sessions[id], ToScan(s.op.request), false))
    case Leave => s.(op := Free)
    case BeginRemove(id) => s.(op := Removing(id, d.root.live.sessions[id], Observed))
    case CreateTombstones => s.(disk := MakeTombstones(d), op := s.op.(remove := TombstonesMade))
    case WriteTombstone => s.(disk := Bury(d, s.op.id), op := s.op.(remove := Buried))
    case SealTombstones => s.(disk := SyncTombstones(d), op := s.op.(remove := TombstonesSynced))
    case SealRemoval => s.(disk := SyncRoot(d), op := Deleting(s.op.id, s.op.node, ToFree, false))
    case DeleteUnreceipted => s.(op := Deleting(s.op.id, s.op.node, ToFree, false))
    case Unlink(left) => s.(disk := PutEntries(d, s.op.node, left))
    case Rmdir =>
      s.(disk := DropDirectory(d, s.op.id),
         op := if s.op.resume.ToScan? then Scanning(s.op.resume.request) else Free)
    case StopDeleting => s.(op := Free)
  }

  // ---- Steps of the lock holder: a start up to its registration ----------------------------

  datatype BuildStep =
    | Admit | Make(node: nat) | CreateLog | SpawnEarly | CreateReceipt | WriteReceipt | SealReceipt
    | Register | BuildFails

  ghost predicate BuildEnabled(s: State, l: BuildStep) {
    var d := s.disk;
    match l
    case Admit =>
      s.op.Scanning? && s.op.request.Some? && Listed(d) && AnswerTo(s, s.op.request.value).Create?
    case Make(n) => s.op.Admitted? && s.op.start.id !in d.root.live.sessions && n !in d.nodes
    case CreateLog => s.op.Building? && s.op.build.Made? && s.op.node in d.nodes
    case SpawnEarly => s.op.Building? && s.op.build.Logged? && !s.op.start.replay
    case CreateReceipt => s.op.Building? && s.op.build.Logged? && s.op.start.replay && s.op.node in d.nodes
    case WriteReceipt => s.op.Building? && s.op.build.ReceiptCreated? && s.op.node in d.nodes
    case SealReceipt => s.op.Building? && s.op.build.ReceiptWritten? && s.op.node in d.nodes
    case Register => s.op.Building? && (s.op.build.Spawned? || s.op.build.ReceiptSynced?)
    case BuildFails => s.op.Building?
  }

  ghost function BuildApply(s: State, l: BuildStep): (after: State)
    requires BuildEnabled(s, l)
    ensures l.SpawnEarly? || after.spawns == s.spawns
  {
    var d := s.disk;
    match l
    case Admit => s.(op := Admitted(s.op.request.value))
    case Make(n) => s.(disk := MakeDirectory(d, s.op.start.id, n), op := Building(s.op.start, n, Made))
    case CreateLog =>
      s.(disk := PutEntries(d, s.op.node, d.nodes[s.op.node].entries.live.(log := true)), op := s.op.(build := Logged))
    case SpawnEarly =>
      s.(op := s.op.(build := Spawned),
         spawns := s.spawns + [Spawn(s.op.start.id, s.op.start.digest, s.op.node, false)])
    case CreateReceipt =>
      s.(disk := PutEntries(d, s.op.node, d.nodes[s.op.node].entries.live.(receipt := true)),
         op := s.op.(build := ReceiptCreated))
    case WriteReceipt =>
      s.(disk := PutReceipt(d, s.op.node, Whole(s.op.start.digest)), op := s.op.(build := ReceiptWritten))
    case SealReceipt => s.(disk := SyncReceipt(d, s.op.node), op := s.op.(build := ReceiptSynced))
    case Register =>
      s.(active := s.active[s.op.start.id := Active(s.next, true)], next := s.next + 1,
         op := Publishing(s.op.start, s.op.node, s.next, Registered))
    case BuildFails => s.(op := Deleting(s.op.start.id, s.op.node, ToFree, true))
  }

  // ---- Steps of the lock holder: a start from its registration -----------------------------

  datatype LaunchStep =
    | Rename | SyncDirectory | SyncStore | SyncStoreFails
    | Launch | LaunchFails | RenameFailure | Abandon | PublishFails

  ghost predicate LaunchEnabled(s: State, l: LaunchStep) {
    var d := s.disk;
    s.op.Publishing? && match l
    case Rename => s.op.publish.Registered? && s.op.node in d.nodes
    case SyncDirectory => s.op.publish.Renamed? && s.op.node in d.nodes
    case SyncStore => s.op.publish.Accepted? && s.op.start.replay
    case SyncStoreFails => s.op.publish.Accepted? && s.op.start.replay
    case Launch => if s.op.start.replay then s.op.publish.Rooted? else s.op.publish.Accepted?
    case LaunchFails => s.op.start.replay && s.op.publish.Rooted?
    case RenameFailure => s.op.publish.Failing? && s.op.node in d.nodes
    case Abandon => s.op.publish.Failing?
    case PublishFails => s.op.publish.Registered? || s.op.publish.Renamed?
  }

  ghost function LaunchApply(s: State, l: LaunchStep): (after: State)
    requires LaunchEnabled(s, l)
    ensures l.Launch? || after.spawns == s.spawns
  {
    var d := s.disk;
    match l
    case Rename =>
      s.(disk := PutStatus(d, s.op.node, Status(Running, Starter)), op := s.op.(publish := Renamed))
    case SyncDirectory => s.(disk := SyncEntries(d, s.op.node), op := s.op.(publish := Accepted))
    case SyncStore => s.(disk := SyncRoot(d), op := s.op.(publish := Rooted))
    case SyncStoreFails => s.(active := Release(s.active, s.op.start.id, s.op.sequence), op := Free)
    case Launch =>
      s.(workers := s.workers[s.op.sequence := Worker(s.op.start.id, s.op.node, false)], op := Free,
         spawns := if s.op.start.replay
                   then s.spawns + [Spawn(s.op.start.id, s.op.start.digest, s.op.node, true)] else s.spawns)
    case LaunchFails => s.(op := s.op.(publish := Failing))
    case RenameFailure => s.(disk := PutStatus(d, s.op.node, Status(Interrupted, Starter)))
    case Abandon => s.(active := Release(s.active, s.op.start.id, s.op.sequence), op := Free)
    case PublishFails =>
      s.(active := Release(s.active, s.op.start.id, s.op.sequence),
         op := Deleting(s.op.start.id, s.op.node, ToFree, true))
  }

  // ---- Steps outside the lock: readers -----------------------------------------------------

  datatype ReadStep = Look(reader: nat, id: Id) | Check(reader: nat) | Confirm(reader: nat) | Mark(reader: nat) | Return(reader: nat)

  predicate ShowsRunning(d: Disk, id: Id) {
    Exists(d, id) && NodeOf(d, id).entries.live.status.Some? && NodeOf(d, id).entries.live.status.value.state.Running?
  }

  ghost predicate ReadEnabled(s: State, f: ReadStep) {
    match f
    case Look(k, id) => k !in s.readers && ShowsRunning(s.disk, id)
    case Check(k) => k in s.readers && s.readers[k].stage.Saw? && s.readers[k].id !in s.active
    case Confirm(k) => k in s.readers && s.readers[k].stage.Unsupervised? && ShowsRunning(s.disk, s.readers[k].id)
    case Mark(k) => k in s.readers && s.readers[k].stage.Confirmed? && Exists(s.disk, s.readers[k].id)
    case Return(k) => k in s.readers
  }

  ghost function ReadApply(s: State, f: ReadStep): (after: State)
    requires ReadEnabled(s, f)
    ensures after.spawns == s.spawns && after.active == s.active && after.workers == s.workers
  {
    var live := s.disk.root.live.sessions;
    match f
    case Look(k, id) => s.(readers := s.readers[k := Read(id, live[id], Saw)])
    case Check(k) => s.(readers := s.readers[k := s.readers[k].(stage := Unsupervised)])
    case Confirm(k) => s.(readers := s.readers[k := s.readers[k].(stage := Confirmed)])
    case Mark(k) =>
      s.(disk := PutStatus(s.disk, live[s.readers[k].id], Status(Interrupted, Reader)),
         readers := s.readers - {k},
         stale := if live[s.readers[k].id] != s.readers[k].node then s.stale + {s.readers[k].id} else s.stale)
    case Return(k) => s.(readers := s.readers - {k})
  }

  // ---- Steps outside the lock: workers and cancellation ------------------------------------

  datatype WorkStep =
    | Append(worker: nat) | Publish(worker: nat, state: SessionState) | GiveUp(worker: nat) | Retire(worker: nat)
    | Cancel(id: Id)

  ghost predicate WorkEnabled(s: State, f: WorkStep) {
    match f
    case Append(q) => q in s.workers && !s.workers[q].closing && s.workers[q].node in s.disk.nodes
    case Publish(q, state) =>
      q in s.workers && !s.workers[q].closing && Exists(s.disk, s.workers[q].id) && !state.Running?
    case GiveUp(q) => q in s.workers && !s.workers[q].closing
    case Retire(q) => q in s.workers && s.workers[q].closing
    case Cancel(id) => id in s.active
  }

  ghost function WorkApply(s: State, f: WorkStep): (after: State)
    requires WorkEnabled(s, f)
    ensures after.spawns == s.spawns
  {
    match f
    case Append(q) => s.(disk := PutOutput(s.disk, s.workers[q].node))
    case Publish(q, state) =>
      s.(disk := PutStatus(s.disk, s.disk.root.live.sessions[s.workers[q].id], Status(state, Supervisor)),
         workers := s.workers[q := s.workers[q].(closing := true)])
    case GiveUp(q) => s.(workers := s.workers[q := s.workers[q].(closing := true)])
    case Retire(q) => s.(active := Release(s.active, s.workers[q].id, q), workers := s.workers - {q})
    case Cancel(id) =>
      s.(active := s.active[id := s.active[id].(sender := false)],
         cancelled := s.cancelled + {s.active[id].sequence})
  }

  /** The agent dies and starts again on `image`: its table, its sequence numbers, its lock holder,
      its readers and its workers are gone. */
  function CrashApply(s: State, image: Disk): State {
    State(image, map[], 0, Free, map[], map[], s.spawns, {}, {})
  }

  // ---- Runs --------------------------------------------------------------------------------

  datatype Step =
    | Keeping(keep: KeepStep) | Starting(build: BuildStep) | Launching(launch: LaunchStep)
    | Reading(read: ReadStep) | Working(work: WorkStep) | Crashing(image: Disk)

  ghost predicate Enabled(s: State, t: Step) {
    match t
    case Keeping(l) => KeepEnabled(s, l)
    case Starting(l) => BuildEnabled(s, l)
    case Launching(l) => LaunchEnabled(s, l)
    case Reading(f) => ReadEnabled(s, f)
    case Working(f) => WorkEnabled(s, f)
    case Crashing(image) => CrashImage(s.disk, image)
  }

  ghost function Apply(s: State, t: Step): State
    requires Enabled(s, t)
  {
    match t
    case Keeping(l) => KeepApply(s, l)
    case Starting(l) => BuildApply(s, l)
    case Launching(l) => LaunchApply(s, l)
    case Reading(f) => ReadApply(s, f)
    case Working(f) => WorkApply(s, f)
    case Crashing(image) => CrashApply(s, image)
  }

  /** Every step of `run` is possible where it is taken. */
  ghost predicate Possible(s: State, run: seq<Step>)
    decreases |run|
  {
    run == [] || (Enabled(s, run[0]) && Possible(Apply(s, run[0]), run[1..]))
  }

  ghost function After(s: State, run: seq<Step>): State
    requires Possible(s, run)
    decreases |run|
  {
    if run == [] then s else After(Apply(s, run[0]), run[1..])
  }

  lemma {:induction false} Extended(s: State, run: seq<Step>, t: Step)
    requires Possible(s, run) && Enabled(After(s, run), t)
    ensures Possible(s, run + [t]) && After(s, run + [t]) == Apply(After(s, run), t)
    decreases |run|
  {
    if run == [] {
      assert Possible(Apply(s, t), ([t])[1..]);
      assert run + [t] == [t];
    } else {
      Extended(Apply(s, run[0]), run[1..], t);
      assert (run + [t])[1..] == run[1..] + [t];
    }
  }

  ghost predicate Reachable(s: State) { exists run :: Possible(START, run) && After(START, run) == s }

  lemma Reach(s: State, t: Step)
    requires Reachable(s) && Enabled(s, t)
    ensures Reachable(Apply(s, t))
  {
    var run :| Possible(START, run) && After(START, run) == s;
    Extended(START, run, t);
  }
}
