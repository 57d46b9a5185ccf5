/** What every run of the session store keeps on disk: a command accepted for replay is started at
    most once, and the store always remembers that it was. */
module SessionSafety {
  import opened Common
  import opened SessionDisk
  import opened SessionStore

  ghost predicate Names(d: Disk, id: Id, n: nat) {
    id in d.root.live.sessions && d.root.live.sessions[id] == n && n in d.nodes
  }

  /** The lock holder's directory is the one its id names. */
  ghost predicate Placed(s: State) {
    match s.op
    case Free => true
    case Scanning(_) => true
    case Admitted(r) => r.id !in s.disk.root.live.sessions
    case Building(r, n, _) => Names(s.disk, r.id, n)
    case Publishing(r, n, _, _) => Names(s.disk, r.id, n)
    case Deleting(id, n, _, _) => Names(s.disk, id, n)
    case Removing(id, n, stage) => Names(s.disk, id, n) && (!stage.Observed? ==> s.disk.root.live.tombstones)
  }

  /** Inodes are never reused: workers and readers hold inodes that exist. */
  ghost predicate OnDisk(s: State) {
    && (forall q :: q in s.workers ==> s.workers[q].node in s.disk.nodes)
    && (forall k :: k in s.readers ==> s.readers[k].node in s.disk.nodes)
  }

  ghost predicate Structure(s: State) { DiskSound(s.disk) && Placed(s) && OnDisk(s) }

  lemma PutEntriesSound(d: Disk, n: nat, e: Entries)
    requires DiskSound(d) && n in d.nodes
    ensures DiskSound(PutEntries(d, n, e)) && DiskSound(SyncEntries(d, n)) && DiskSound(PutOutput(d, n))
  {}

  lemma PutReceiptSound(d: Disk, n: nat, t: Text)
    requires DiskSound(d) && n in d.nodes
    ensures DiskSound(PutReceipt(d, n, t)) && DiskSound(SyncReceipt(d, n))
  {}

  lemma MakeSound(d: Disk, id: Id, n: nat)
    requires DiskSound(d) && n !in d.nodes
    ensures DiskSound(MakeDirectory(d, id, n))
  {}

  lemma DropSound(d: Disk, id: Id)
    requires DiskSound(d)
    ensures DiskSound(DropDirectory(d, id)) && DiskSound(SyncRoot(d))
  {}

  lemma TombstonesSound(d: Disk, id: Id)
    requires DiskSound(d)
    ensures DiskSound(MakeTombstones(d)) && DiskSound(SyncTombstones(d))
    ensures d.root.live.tombstones ==> DiskSound(Bury(d, id))
  {}

  lemma CrashSound(d: Disk, image: Disk)
    requires DiskSound(d) && CrashImage(d, image)
    ensures DiskSound(image)
  {}

  lemma SoundKeeping(s: State, l: KeepStep)
    requires DiskSound(s.disk) && Placed(s) && KeepEnabled(s, l)
    ensures DiskSound(KeepApply(s, l).disk)
  {
    match l
    case CreateTombstones => TombstonesSound(s.disk, "");
    case WriteTombstone => TombstonesSound(s.disk, s.op.id);
    case SealTombstones => TombstonesSound(s.disk, "");
    case SealRemoval => DropSound(s.disk, s.op.id);
    case Unlink(left) => PutEntriesSound(s.disk, s.op.node, left);
    case Rmdir => DropSound(s.disk, s.op.id);
    case _ =>
  }

  lemma SoundBuilding(s: State, l: BuildStep)
    requires DiskSound(s.disk) && BuildEnabled(s, l)
    ensures DiskSound(BuildApply(s, l).disk)
  {
    match l
    case Make(n) => MakeSound(s.disk, s.op.start.id, n);
    case CreateLog => PutEntriesSound(s.disk, s.op.node, s.disk.nodes[s.op.node].entries.live.(log := true));
    case CreateReceipt => PutEntriesSound(s.disk, s.op.node, s.disk.nodes[s.op.node].entries.live.(receipt := true));
    case WriteReceipt => PutReceiptSound(s.disk, s.op.node, Whole(s.op.start.digest));
    case SealReceipt => PutReceiptSound(s.disk, s.op.node, Partial);
    case _ =>
  }

  lemma SoundLaunching(s: State, l: LaunchStep)
    requires DiskSound(s.disk) && LaunchEnabled(s, l)
    ensures DiskSound(LaunchApply(s, l).disk)
  {
    match l
    case Rename => StatusSound(s.disk, s.op.node, Status(Running, Starter));
    case SyncDirectory => PutEntriesSound(s.disk, s.op.node, EMPTY);
    case SyncStore => DropSound(s.disk, "");
    case RenameFailure => StatusSound(s.disk, s.op.node, Status(Interrupted, Starter));
    case _ =>
  }

  lemma StatusSound(d: Disk, n: nat, st: Status)
    requires DiskSound(d) && n in d.nodes
    ensures DiskSound(PutStatus(d, n, st))
  {
    PutEntriesSound(d, n, d.nodes[n].entries.live.(status := Some(st)));
  }

  lemma SoundOutside(s: State, t: Step)
    requires DiskSound(s.disk) && Enabled(s, t) && (t.Reading? || t.Working? || t.Crashing?)
    ensures DiskSound(Apply(s, t).disk)
  {
    match t
    case Reading(Mark(k)) =>
      StatusSound(s.disk, s.disk.root.live.sessions[s.readers[k].id], Status(Interrupted, Reader));
    case Working(Append(q)) => PutEntriesSound(s.disk, s.workers[q].node, EMPTY);
    case Working(Publish(q, state)) =>
      StatusSound(s.disk, s.disk.root.live.sessions[s.workers[q].id], Status(state, Supervisor));
    case Crashing(image) => CrashSound(s.disk, image);
    case _ =>
  }

  lemma SoundKept(s: State, t: Step)
    requires DiskSound(s.disk) && Placed(s) && Enabled(s, t)
    ensures DiskSound(Apply(s, t).disk)
  {
    match t
    case Keeping(l) => SoundKeeping(s, l);
    case Starting(l) => SoundBuilding(s, l);
    case Launching(l) => SoundLaunching(s, l);
    case _ => SoundOutside(s, t);
  }

  lemma PlaceKeeping(s: State, l: KeepStep)
    requires Placed(s) && OnDisk(s) && KeepEnabled(s, l)
    ensures Placed(KeepApply(s, l)) && OnDisk(KeepApply(s, l))
  {}

  lemma PlaceBuilding(s: State, l: BuildStep)
    requires Placed(s) && OnDisk(s) && BuildEnabled(s, l)
    ensures Placed(BuildApply(s, l)) && OnDisk(BuildApply(s, l))
  {}

  lemma PlaceLaunching(s: State, l: LaunchStep)
    requires Placed(s) && OnDisk(s) && LaunchEnabled(s, l)
    ensures Placed(LaunchApply(s, l)) && OnDisk(LaunchApply(s, l))
  {}

  lemma PlaceReading(s: State, f: ReadStep)
    requires Placed(s) && OnDisk(s) && ReadEnabled(s, f)
    ensures Placed(ReadApply(s, f)) && OnDisk(ReadApply(s, f))
  {}

  lemma PlaceWorking(s: State, f: WorkStep)
    requires Placed(s) && OnDisk(s) && WorkEnabled(s, f)
    ensures Placed(WorkApply(s, f)) && OnDisk(WorkApply(s, f))
  {}

  lemma StructureKept(s: State, t: Step)
    requires Structure(s) && Enabled(s, t)
    ensures Structure(Apply(s, t))
  {
    SoundKept(s, t);
    match t
    case Keeping(l) => PlaceKeeping(s, l);
    case Starting(l) => PlaceBuilding(s, l);
    case Launching(l) => PlaceLaunching(s, l);
    case Reading(f) => PlaceReading(s, f);
    case Working(f) => PlaceWorking(s, f);
    case Crashing(_) =>
  }

  // ---- What is remembered of a replayed command --------------------------------------------

  /** Whatever a crash restores, the session's directory is there with its status and the whole of
      its receipt. */
  ghost predicate Intact(d: Disk, sp: Spawn) {
    && (forall v :: v in d.root.restorable ==> sp.id in v.sessions && v.sessions[sp.id] == sp.node)
    && sp.node in d.nodes
    && (forall e :: e in d.nodes[sp.node].entries.restorable ==> e.status.Some? && e.receipt)
    && d.nodes[sp.node].receipt == Kept(Whole(sp.digest), {Whole(sp.digest)})
  }

  /** Whatever a crash restores, the id has its tombstone. */
  ghost predicate Gone(d: Disk, id: Id) {
    && (forall v :: v in d.root.restorable ==> v.tombstones)
    && (forall r :: r in d.removed.restorable ==> id in r)
  }

  ghost predicate Remembered(d: Disk, sp: Spawn) { Intact(d, sp) || Gone(d, sp.id) }

  ghost predicate Memory(s: State) {
    forall sp :: sp in s.spawns && sp.replay ==> Remembered(s.disk, sp)
  }

  /** A directory may be made or removed under `id`: any replayed spawn of it is buried. */
  ghost predicate Released(s: State, id: Id) {
    forall sp :: sp in s.spawns && sp.replay && sp.id == id ==> Gone(s.disk, id)
  }

  ghost predicate Unspawned(s: State, id: Id) {
    forall sp :: sp in s.spawns && sp.replay ==> sp.id != id
  }

  ghost predicate Cleared(s: State, r: Request) { if r.replay then Unspawned(s, r.id) else Released(s, r.id) }

  /** How much of a replayed start is already beyond a crash's reach. */
  ghost predicate BuildProgress(n: Node, r: Request, stage: BuildStage) {
    && ((stage.ReceiptCreated? || stage.ReceiptWritten? || stage.ReceiptSynced?) ==> n.entries.live.receipt && r.replay)
    && (stage.Spawned? ==> !r.replay)
    && (stage.ReceiptWritten? ==> n.receipt.live == Whole(r.digest))
    && (stage.ReceiptSynced? ==> n.receipt == Kept(Whole(r.digest), {Whole(r.digest)}))
  }

  ghost predicate PublishProgress(d: Disk, r: Request, node: nat, stage: PublishStage)
    requires node in d.nodes
  {
    var n := d.nodes[node];
    r.replay ==>
      && n.entries.live.receipt
      && n.receipt == Kept(Whole(r.digest), {Whole(r.digest)})
      && (!stage.Registered? ==> n.entries.live.status.Some?)
      && (stage.Accepted? || stage.Rooted? || stage.Failing?
          ==> forall e :: e in n.entries.restorable ==> e.status.Some? && e.receipt)
      && (stage.Rooted? ==> forall v :: v in d.root.restorable ==> r.id in v.sessions && v.sessions[r.id] == node)
  }

  ghost predicate OpMemory(s: State) {
    match s.op
    case Admitted(r) => Cleared(s, r)
    case Building(r, n, stage) => Cleared(s, r) && n in s.disk.nodes && BuildProgress(s.disk.nodes[n], r, stage)
    case Publishing(r, n, _, stage) => Cleared(s, r) && n in s.disk.nodes && PublishProgress(s.disk, r, n, stage)
    case Deleting(id, _, _, _) => Released(s, id)
    case Removing(id, _, stage) =>
      && (stage.Buried? || stage.TombstonesSynced? ==> id in s.disk.removed.live)
      && (stage.TombstonesSynced? ==> forall r :: r in s.disk.removed.restorable ==> id in r)
    case _ => true
  }

  ghost predicate Once(s: State) {
    forall i, j :: 0 <= i < j < |s.spawns| && s.spawns[i].replay && s.spawns[j].replay ==> s.spawns[i].id != s.spawns[j].id
  }

  ghost predicate Safe(s: State) { Structure(s) && Memory(s) && OpMemory(s) && Once(s) }

  // ---- What each disk operation respects ---------------------------------------------------

  /** Nothing remembered of another id is forgotten, and no tombstone is lost. */
  ghost predicate Respects(d: Disk, after: Disk, freed: Id) {
    && (forall sp: Spawn :: sp.id != freed && Intact(d, sp) ==> Intact(after, sp))
    && (forall id: Id :: Gone(d, id) ==> Gone(after, id))
  }

  ghost predicate RespectsAll(d: Disk, after: Disk) {
    && (forall sp: Spawn :: Intact(d, sp) ==> Intact(after, sp))
    && (forall id: Id :: Gone(d, id) ==> Gone(after, id))
  }

  lemma StatusRespects(d: Disk, n: nat, st: Status)
    requires NodesSound(d) && n in d.nodes
    ensures RespectsAll(d, PutStatus(d, n, st)) && RespectsAll(d, PutOutput(d, n)) && RespectsAll(d, SyncEntries(d, n))
  {}

  lemma EntriesRespect(d: Disk, id: Id, n: nat, e: Entries)
    requires RootSound(d) && Names(d, id, n)
    ensures Respects(d, PutEntries(d, n, e), id)
  {
    forall sp: Spawn | sp.id != id && Intact(d, sp) ensures Intact(PutEntries(d, n, e), sp) {
      assert sp.node != n;
    }
  }

  lemma ReceiptRespects(d: Disk, id: Id, n: nat, t: Text)
    requires RootSound(d) && Names(d, id, n)
    ensures Respects(d, PutReceipt(d, n, t), id) && Respects(d, SyncReceipt(d, n), id)
  {
    forall sp: Spawn | sp.id != id && Intact(d, sp)
      ensures Intact(PutReceipt(d, n, t), sp) && Intact(SyncReceipt(d, n), sp)
    {
      assert sp.node != n;
    }
  }

  lemma MakeRespects(d: Disk, id: Id, n: nat)
    requires RootSound(d) && n !in d.nodes
    ensures Respects(d, MakeDirectory(d, id, n), id)
  {}

  lemma DropRespects(d: Disk, id: Id)
    requires RootSound(d)
    ensures Respects(d, DropDirectory(d, id), id)
  {}

  lemma TombstonesRespect(d: Disk, id: Id)
    requires d.root.Sound() && RemovedSound(d)
    ensures RespectsAll(d, MakeTombstones(d)) && RespectsAll(d, Bury(d, id))
    ensures RespectsAll(d, SyncTombstones(d)) && RespectsAll(d, SyncRoot(d))
  {}

  lemma CrashRespects(d: Disk, image: Disk)
    requires DiskSound(d) && CrashImage(d, image)
    ensures RespectsAll(d, image)
  {}

  /** A step that leaves the spawns alone and frees at most a released id keeps the memory. */
  lemma MemoryKept(s: State, after: State, freed: Id)
    requires Memory(s) && Released(s, freed) && after.spawns == s.spawns && Respects(s.disk, after.disk, freed)
    ensures Memory(after)
    ensures forall id :: Released(s, id) ==> Released(after, id)
    ensures forall id :: Unspawned(s, id) ==> Unspawned(after, id)
  {}

  lemma MemoryKeptAll(s: State, after: State)
    requires Memory(s) && after.spawns == s.spawns && RespectsAll(s.disk, after.disk)
    ensures Memory(after)
    ensures forall id :: Released(s, id) ==> Released(after, id)
    ensures forall id :: Unspawned(s, id) ==> Unspawned(after, id)
  {}

  // ---- Every step keeps the memory ---------------------------------------------------------

  lemma ScrapIsReleased(s: State, id: Id)
    requires DiskSound(s.disk) && Memory(s) && Exists(s.disk, id) && NodeOf(s.disk, id).entries.live.status.None?
    ensures Released(s, id)
  {}

  lemma UnreceiptedIsReleased(s: State, id: Id)
    requires DiskSound(s.disk) && Memory(s) && Exists(s.disk, id) && !NodeOf(s.disk, id).entries.live.receipt
    ensures Released(s, id)
  {}

  lemma MemoryKeeping(s: State, l: KeepStep)
    requires Safe(s) && KeepEnabled(s, l)
    ensures Memory(KeepApply(s, l))
  {
    var after := KeepApply(s, l);
    match l
    case Doom(id) => ScrapIsReleased(s, id);
    case DeleteUnreceipted => UnreceiptedIsReleased(s, s.op.id);
    case CreateTombstones => TombstonesRespect(s.disk, s.op.id); MemoryKeptAll(s, after);
    case WriteTombstone => TombstonesRespect(s.disk, s.op.id); MemoryKeptAll(s, after);
    case SealTombstones => TombstonesRespect(s.disk, s.op.id); MemoryKeptAll(s, after);
    case SealRemoval => TombstonesRespect(s.disk, s.op.id); MemoryKeptAll(s, after);
    case Unlink(left) => EntriesRespect(s.disk, s.op.id, s.op.node, left); MemoryKept(s, after, s.op.id);
    case Rmdir =>
      DropRespects(s.disk, s.op.id); MemoryKept(s, after, s.op.id);
    case _ =>
  }

  lemma OpMemoryKeeping(s: State, l: KeepStep)
    requires DiskSound(s.disk) && Placed(s) && Memory(s) && OpMemory(s) && KeepEnabled(s, l)
    ensures OpMemory(KeepApply(s, l))
  {
    match l
    case Doom(id) => ScrapIsReleased(s, id);
    case DeleteUnreceipted => UnreceiptedIsReleased(s, s.op.id);
    case Unlink(left) => EntriesRespect(s.disk, s.op.id, s.op.node, left);
    case SealRemoval => assert Gone(KeepApply(s, l).disk, s.op.id);
    case _ =>
  }

  lemma AdmittedIsCleared(s: State)
    requires DiskSound(s.disk) && Memory(s) && BuildEnabled(s, Admit)
    ensures Cleared(s, s.op.request.value)
  {}

  lemma MemoryBuilding(s: State, l: BuildStep)
    requires Safe(s) && BuildEnabled(s, l)
    ensures Memory(BuildApply(s, l))
  {
    var after := BuildApply(s, l);
    match l
    case Admit => AdmittedIsCleared(s);
    case Make(n) => MakeRespects(s.disk, s.op.start.id, n); MemoryKept(s, after, s.op.start.id);
    case CreateLog =>
      EntriesRespect(s.disk, s.op.start.id, s.op.node, s.disk.nodes[s.op.node].entries.live.(log := true));
      MemoryKept(s, after, s.op.start.id);
    case CreateReceipt =>
      EntriesRespect(s.disk, s.op.start.id, s.op.node, s.disk.nodes[s.op.node].entries.live.(receipt := true));
      MemoryKept(s, after, s.op.start.id);
    case WriteReceipt =>
      ReceiptRespects(s.disk, s.op.start.id, s.op.node, Whole(s.op.start.digest));
      MemoryKept(s, after, s.op.start.id);
    case SealReceipt =>
      ReceiptRespects(s.disk, s.op.start.id, s.op.node, Partial);
      MemoryKept(s, after, s.op.start.id);
    case _ =>
  }

  lemma OpMemoryBuilding(s: State, l: BuildStep)
    requires DiskSound(s.disk) && Placed(s) && Memory(s) && OpMemory(s) && BuildEnabled(s, l)
    ensures OpMemory(BuildApply(s, l))
  {
    match l
    case Admit => AdmittedIsCleared(s);
    case Make(n) => MakeRespects(s.disk, s.op.start.id, n);
    case _ =>
  }

  lemma MemoryLaunching(s: State, l: LaunchStep)
    requires Safe(s) && LaunchEnabled(s, l)
    ensures Memory(LaunchApply(s, l))
  {
    var after := LaunchApply(s, l);
    match l
    case Rename => StatusRespects(s.disk, s.op.node, Status(Running, Starter)); MemoryKeptAll(s, after);
    case SyncDirectory => StatusRespects(s.disk, s.op.node, Status(Running, Starter)); MemoryKeptAll(s, after);
    case RenameFailure => StatusRespects(s.disk, s.op.node, Status(Interrupted, Starter)); MemoryKeptAll(s, after);
    case SyncStore => TombstonesRespect(s.disk, ""); MemoryKeptAll(s, after);
    case _ =>
  }

  lemma OpMemoryLaunching(s: State, l: LaunchStep)
    requires Safe(s) && LaunchEnabled(s, l)
    ensures OpMemory(LaunchApply(s, l))
  {
  }

  lemma SafeReading(s: State, f: ReadStep)
    requires NodesSound(s.disk) && Memory(s) && OpMemory(s) && ReadEnabled(s, f)
    ensures Memory(ReadApply(s, f)) && OpMemory(ReadApply(s, f))
  {
    if f.Mark? {
      StatusRespects(s.disk, s.disk.root.live.sessions[s.readers[f.reader].id], Status(Interrupted, Reader));
      MemoryKeptAll(s, ReadApply(s, f));
    }
  }

  lemma SafeWorking(s: State, f: WorkStep)
    requires NodesSound(s.disk) && Memory(s) && OpMemory(s) && WorkEnabled(s, f)
    ensures Memory(WorkApply(s, f)) && OpMemory(WorkApply(s, f))
  {
    if f.Publish? {
      StatusRespects(s.disk, s.disk.root.live.sessions[s.workers[f.worker].id], Status(f.state, Supervisor));
      MemoryKeptAll(s, WorkApply(s, f));
    } else if f.Append? {
      StatusRespects(s.disk, s.workers[f.worker].node, Status(Running, Starter));
      MemoryKeptAll(s, WorkApply(s, f));
    }
  }

  lemma SafeCrashing(s: State, image: Disk)
    requires Safe(s) && CrashImage(s.disk, image)
    ensures Memory(CrashApply(s, image))
  {
    CrashRespects(s.disk, image);
    MemoryKeptAll(s, CrashApply(s, image));
  }

  lemma OnceKept(s: State, t: Step)
    requires OpMemory(s) && Once(s) && Enabled(s, t)
    ensures Once(Apply(s, t))
  {
    if t.Launching? && t.launch.Launch? && s.op.start.replay {
      assert forall i :: 0 <= i < |s.spawns| && s.spawns[i].replay ==> s.spawns[i].id != s.op.start.id;
    }
  }

  lemma SafeKept(s: State, t: Step)
    requires Safe(s) && Enabled(s, t)
    ensures Safe(Apply(s, t))
  {
    StructureKept(s, t);
    OnceKept(s, t);
    match t
    case Keeping(l) => MemoryKeeping(s, l); OpMemoryKeeping(s, l);
    case Starting(l) => MemoryBuilding(s, l); OpMemoryBuilding(s, l);
    case Launching(l) => MemoryLaunching(s, l); OpMemoryLaunching(s, l);
    case Reading(f) => SafeReading(s, f);
    case Working(f) => SafeWorking(s, f);
    case Crashing(image) => SafeCrashing(s, image);
  }

  lemma StartsSafe()
    ensures Safe(START)
  {}

  lemma {:induction false} SafeAlways(s: State, run: seq<Step>)
    requires Safe(s) && Possible(s, run)
    ensures Safe(After(s, run))
    decreases |run|
  {
    if run != [] {
      SafeKept(s, run[0]);
      SafeAlways(Apply(s, run[0]), run[1..]);
    }
  }

  // ---- The promises ------------------------------------------------------------------------

  /** Over every interleaving and every crash, no id is started twice by replay. */
  lemma SpawnedAtMostOnce(run: seq<Step>, i: nat, j: nat)
    requires Possible(START, run)
    requires i < |After(START, run).spawns| && After(START, run).spawns[i].replay
    requires j < |After(START, run).spawns| && After(START, run).spawns[j].replay
    requires After(START, run).spawns[i].id == After(START, run).spawns[j].id
    ensures i == j
  {
    SafeAlways(START, run);
  }

  /** A later replay of a started id is answered from the disk: the same session for the same
      specification, a conflict for another one or after a removal. It is never a second start. */
  lemma ReplayAnswered(run: seq<Step>, sp: Spawn, r: Request)
    requires Possible(START, run) && sp in After(START, run).spawns && sp.replay
    requires r.replay && r.id == sp.id
    ensures AnswerTo(After(START, run), r)
         == if r.id in Tombstones(After(START, run).disk) || r.digest != sp.digest then Conflict else Existing(sp.node)
  {
    SafeAlways(START, run);
    assert Remembered(After(START, run).disk, sp);
  }

  /** A command is launched for replay only when no crash can lose its receipt and status. */
  lemma PublishedBeforeLaunch(run: seq<Step>)
    requires Possible(START, run) && LaunchEnabled(After(START, run), Launch) && After(START, run).op.start.replay
    ensures var s := After(START, run); Intact(s.disk, Spawn(s.op.start.id, s.op.start.digest, s.op.node, true))
  {
    SafeAlways(START, run);
  }

  lemma GoneKeeping(s: State, l: KeepStep, id: Id)
    requires s.disk.root.Sound() && RemovedSound(s.disk) && KeepEnabled(s, l) && Gone(s.disk, id)
    ensures Gone(KeepApply(s, l).disk, id)
  {}

  lemma GoneBuilding(s: State, l: BuildStep, id: Id)
    requires s.disk.root.Sound() && BuildEnabled(s, l) && Gone(s.disk, id)
    ensures Gone(BuildApply(s, l).disk, id)
  {}

  lemma GoneLaunching(s: State, l: LaunchStep, id: Id)
    requires s.disk.root.Sound() && LaunchEnabled(s, l) && Gone(s.disk, id)
    ensures Gone(LaunchApply(s, l).disk, id)
  {}

  lemma GoneCrashing(d: Disk, image: Disk, id: Id)
    requires CrashImage(d, image) && Gone(d, id)
    ensures Gone(image, id)
  {}

  lemma GoneKept(s: State, t: Step, id: Id)
    requires s.disk.root.Sound() && RemovedSound(s.disk) && Enabled(s, t) && Gone(s.disk, id)
    ensures Gone(Apply(s, t).disk, id)
  {
    match t
    case Keeping(l) => GoneKeeping(s, l, id);
    case Starting(l) => GoneBuilding(s, l, id);
    case Launching(l) => GoneLaunching(s, l, id);
    case Crashing(image) => GoneCrashing(s.disk, image, id);
    case _ =>
  }

  lemma {:induction false} GoneAlways(s: State, run: seq<Step>, id: Id)
    requires Safe(s) && Possible(s, run) && Gone(s.disk, id)
    ensures Gone(After(s, run).disk, id)
    decreases |run|
  {
    if run != [] {
      GoneKept(s, run[0], id);
      SafeKept(s, run[0]);
      GoneAlways(Apply(s, run[0]), run[1..], id);
    }
  }

  /** Once a removal has sealed its tombstone, whatever happens to its directory afterwards, every
      later replay of the id is a conflict. */
  lemma RemovalIsFinal(before: seq<Step>, later: seq<Step>, r: Request)
    requires Possible(START, before) && KeepEnabled(After(START, before), SealRemoval)
    requires Possible(KeepApply(After(START, before), SealRemoval), later)
    requires r.replay && r.id == After(START, before).op.id
    ensures AnswerTo(After(KeepApply(After(START, before), SealRemoval), later), r) == Conflict
  {
    var s := After(START, before);
    SafeAlways(START, before);
    SafeKept(s, Keeping(SealRemoval));
    assert Gone(KeepApply(s, SealRemoval).disk, r.id);
    SafeAlways(KeepApply(s, SealRemoval), later);
    GoneAlways(KeepApply(s, SealRemoval), later, r.id);
  }
}
