/** The receipt budget: tombstones and receipts together name at most 1024 ids. Every step keeps to it but two,
    which keep to it as long as they leave room and hide no receipt. */
module SessionBudget {
  import opened Common
  import opened SessionDisk
  import opened SessionStore
  import opened SessionSafety
  import opened SessionCapacity

  lemma UnionSize<T>(a: set<T>, b: set<T>)
    ensures |a + b| <= |a| + |b|
  {
    assert a + b == a + (b - a);
    SubsetSize(b - a, b);
  }

  // ---- Receipts ----------------------------------------------------------------------------

  ghost predicate MayHold(d: Disk, n: nat) {
    n in d.nodes && exists e :: e in d.nodes[n].entries.restorable && e.receipt
  }

  /** The ids a root version may present as accepted or removed. */
  ghost function Charged(d: Disk, v: Root): set<Id> {
    d.removed.live + set id | id in v.sessions && MayHold(d, v.sessions[id])
  }

  /** The lock holder is responsible for the directory under `id`. */
  ghost predicate Own(op: Op, id: Id) {
    ((op.Building? || op.Publishing?) && op.start.id == id) || (op.Deleting? && op.id == id)
  }

  /** A directory under `id` may carry a receipt that no tombstone stands for. */
  ghost predicate Loose(s: State, id: Id) {
    && id in s.disk.root.live.sessions && MayHold(s.disk, s.disk.root.live.sessions[id])
    && id !in s.disk.removed.live && !Own(s.op, id)
  }

  /** A reader about to report an interruption, or a worker about to publish its outcome. */
  ghost predicate HasWriter(s: State, id: Id) {
    || (exists k :: k in s.readers && s.readers[k].stage.Confirmed? && s.readers[k].id == id)
    || (exists q :: q in s.workers && !s.workers[q].closing && s.workers[q].id == id)
  }

  /** It has a status, or somebody is about to write one. */
  ghost predicate Attested(s: State, id: Id) {
    Exists(s.disk, id) && (NodeOf(s.disk, id).entries.live.status.Some? || HasWriter(s, id))
  }

  /** It can be removed, and its receipt then becomes a tombstone. */
  ghost predicate Buriable(s: State, id: Id) { Loose(s, id) && Attested(s, id) && id in Receipts(s.disk) }

  /** It escapes the count while a crash may bring its receipt back. */
  ghost predicate Concealed(s: State, id: Id) { Loose(s, id) && Attested(s, id) && id !in Receipts(s.disk) }

  /** It has output and neither a status nor anybody to write one, so no listing gets past it. */
  ghost predicate Bars(s: State, id: Id) {
    && Exists(s.disk, id) && !Attested(s, id) && !Own(s.op, id)
    && NodeOf(s.disk, id).entries.live.log && NodeOf(s.disk, id).output.live
  }

  /** No start gets past a listing while a receipt is concealed. */
  ghost predicate Shown(s: State) { (forall id :: !Concealed(s, id)) || (exists id :: Bars(s, id)) }

  ghost function Buriables(s: State): set<Id> { set id | id in s.disk.root.live.sessions && Buriable(s, id) }

  /** What can come to be counted: removals turn receipts into tombstones, and then a crash brings back the
      version `v` of the root. */
  ghost function Fill(s: State, v: Root): set<Id> { Charged(s.disk, v) + Buriables(s) }

  ghost predicate Room(s: State) {
    forall v :: v in s.disk.root.restorable && v.tombstones ==> |Fill(s, v)| <= MAX_REPLAY_RECEIPTS
  }

  /** Only the present version of the root names `n`. */
  ghost predicate OnlyLive(d: Disk, n: nat) {
    forall v :: v in d.root.restorable ==> v == d.root.live || n !in v.sessions.Values
  }

  ghost predicate OpReceipts(s: State) {
    match s.op
    case Admitted(r) => r.replay ==> |Charged(s.disk, s.disk.root.live)| < MAX_REPLAY_RECEIPTS
    case Building(r, n, stage) =>
      && OnlyLive(s.disk, n)
      && (!r.replay || stage.Made? || stage.Logged? ==> !MayHold(s.disk, n))
      && (r.replay && (stage.Made? || stage.Logged?) ==> |Charged(s.disk, s.disk.root.live)| < MAX_REPLAY_RECEIPTS)
    case Publishing(r, n, _, stage) =>
      && (!r.replay ==> !MayHold(s.disk, n))
      && (stage.Rooted? || stage.Failing? ==> r.replay && s.disk.root.restorable == {s.disk.root.live})
    case Removing(_, n, stage) =>
      && n in s.disk.nodes && s.disk.nodes[n].entries.live.status.Some?
      && (!stage.Observed? ==> s.disk.nodes[n].entries.live.receipt)
    case _ => true
  }

  ghost predicate Budgeted(s: State) { Shown(s) && OpReceipts(s) && Room(s) }

  /** The two steps that can break this: a start that was accepted cannot sync the root, and a removal, of
      which the cleanup of a failed start is one, stops half way. */
  predicate Rough(t: Step) { t == Launching(SyncStoreFails) || t == Keeping(StopDeleting) }

  // ---- What a step may do ------------------------------------------------------------------

  /** Nothing becomes buriable or concealed, and what bars the listing goes on to. */
  ghost predicate Modest(s: State, after: State) {
    && (forall i :: Loose(after, i) && Attested(after, i) ==>
          Loose(s, i) && Attested(s, i) && (i in Receipts(after.disk) <==> i in Receipts(s.disk)))
    && (forall i :: Bars(s, i) ==> Bars(after, i))
  }

  lemma ModestShown(s: State, after: State)
    requires Modest(s, after) && Shown(s)
    ensures Shown(after)
  {
    if i :| Concealed(after, i) {
      assert Concealed(s, i);
      var j :| Bars(s, j);
      assert Bars(after, j);
    }
  }

  lemma ModestBuriables(s: State, after: State)
    requires Modest(s, after)
    ensures Buriables(after) <= Buriables(s)
  {
    forall i | i in Buriables(after) ensures i in Buriables(s) { assert Buriable(after, i); }
  }

  lemma BuriableIsCharged(s: State)
    ensures Buriables(s) <= Charged(s.disk, s.disk.root.live)
  {}

  /** What a version presents was presented before, by itself or by the present version. */
  ghost predicate Covered(s: State, after: State, v: Root) {
    || (v in s.disk.root.restorable && Charged(after.disk, v) <= Fill(s, v))
    || (s.disk.root.live.tombstones && Charged(after.disk, v) <= Fill(s, s.disk.root.live))
  }

  lemma RoomKept(s: State, after: State)
    requires s.disk.root.Sound() && Room(s) && Buriables(after) <= Buriables(s)
    requires forall v :: v in after.disk.root.restorable && v.tombstones ==> Covered(s, after, v)
    ensures Room(after)
  {
    forall v | v in after.disk.root.restorable && v.tombstones ensures |Fill(after, v)| <= MAX_REPLAY_RECEIPTS {
      assert Covered(s, after, v);
      if v in s.disk.root.restorable && Charged(after.disk, v) <= Fill(s, v) {
        SubsetSize(Fill(after, v), Fill(s, v));
      } else {
        SubsetSize(Fill(after, v), Fill(s, s.disk.root.live));
      }
    }
  }

  ghost predicate SameHolders(d: Disk, after: Disk) { forall n :: MayHold(after, n) <==> MayHold(d, n) }

  lemma SameCharge(d: Disk, after: Disk, v: Root)
    requires SameHolders(d, after) && after.removed.live == d.removed.live
    ensures Charged(after, v) == Charged(d, v)
  {}

  /** The root, the tombstones and the receipts stay. */
  lemma RoomSteady(s: State, after: State)
    requires s.disk.root.Sound() && Room(s) && after.disk.root == s.disk.root && after.disk.removed.live == s.disk.removed.live
    requires SameHolders(s.disk, after.disk) && Buriables(after) <= Buriables(s)
    ensures Room(after)
  {
    forall v ensures Charged(after.disk, v) == Charged(s.disk, v) { SameCharge(s.disk, after.disk, v); }
    RoomKept(s, after);
  }

  lemma BudgetSteady(s: State, after: State)
    requires s.disk.root.Sound() && Budgeted(s) && Modest(s, after) && OpReceipts(after)
    requires after.disk.root == s.disk.root && after.disk.removed.live == s.disk.removed.live
    requires SameHolders(s.disk, after.disk)
    ensures Budgeted(after)
  {
    ModestShown(s, after);
    ModestBuriables(s, after);
    RoomSteady(s, after);
  }

  lemma EntriesHold(d: Disk, n: nat, e: Entries)
    requires NodesSound(d) && n in d.nodes && (e.receipt ==> d.nodes[n].entries.live.receipt)
    ensures SameHolders(d, PutEntries(d, n, e))
  {
    forall m ensures MayHold(PutEntries(d, n, e), m) <==> MayHold(d, m) {
      if m == n && MayHold(d, n) {
        var f :| f in d.nodes[n].entries.restorable && f.receipt;
        assert f in PutEntries(d, n, e).nodes[n].entries.restorable;
      }
    }
  }

  lemma StatusHolds(d: Disk, n: nat, st: Status)
    requires NodesSound(d) && n in d.nodes
    ensures SameHolders(d, PutStatus(d, n, st))
  {
    EntriesHold(d, n, d.nodes[n].entries.live.(status := Some(st)));
  }

  lemma OtherHolds(d: Disk, n: nat, t: Text)
    requires n in d.nodes
    ensures SameHolders(d, PutOutput(d, n)) && SameHolders(d, PutReceipt(d, n, t)) && SameHolders(d, SyncReceipt(d, n))
  {}

  // ---- Outside the lock --------------------------------------------------------------------

  /** No writer appears. */
  ghost predicate FewerWriters(s: State, after: State) { forall id :: HasWriter(after, id) ==> HasWriter(s, id) }

  lemma OpReceiptsSteady(s: State, after: State)
    requires OpReceipts(s) && after.op == s.op && after.disk.root == s.disk.root && after.disk.removed == s.disk.removed
    requires SameHolders(s.disk, after.disk)
    requires s.op.Removing? ==>
               && s.op.node in after.disk.nodes && after.disk.nodes[s.op.node].entries.live.status.Some?
               && after.disk.nodes[s.op.node].entries.live.receipt == s.disk.nodes[s.op.node].entries.live.receipt
    ensures OpReceipts(after)
  {
    SameCharge(s.disk, after.disk, s.disk.root.live);
  }

  lemma StatusModest(s: State, after: State, id: Id, st: Status)
    requires NodesSound(s.disk) && OneName(s.disk.root.live.sessions)
    requires Exists(s.disk, id) && HasWriter(s, id) && FewerWriters(s, after)
    requires after.op == s.op && after.disk == PutStatus(s.disk, s.disk.root.live.sessions[id], st)
    ensures Modest(s, after)
  {
    var n := s.disk.root.live.sessions[id];
    StatusHolds(s.disk, n, st);
    forall i | Exists(s.disk, i) && i != id
      ensures after.disk.nodes[s.disk.root.live.sessions[i]] == s.disk.nodes[s.disk.root.live.sessions[i]] {}
  }

  /** A reader or a worker writes a status under an id it is working on. */
  lemma BudgetStatus(s: State, after: State, id: Id, st: Status)
    requires NodesSound(s.disk) && RootSound(s.disk) && Budgeted(s)
    requires Exists(s.disk, id) && HasWriter(s, id) && FewerWriters(s, after)
    requires after.op == s.op && after.disk == PutStatus(s.disk, s.disk.root.live.sessions[id], st)
    ensures Budgeted(after)
  {
    StatusHolds(s.disk, s.disk.root.live.sessions[id], st);
    StatusModest(s, after, id, st);
    OpReceiptsSteady(s, after);
    BudgetSteady(s, after);
  }

  lemma QuietModest(s: State, after: State)
    requires after.op == s.op
    requires after.disk.root == s.disk.root && after.disk.removed == s.disk.removed && after.disk.nodes.Keys == s.disk.nodes.Keys
    requires forall n :: n in s.disk.nodes ==>
               && after.disk.nodes[n].entries == s.disk.nodes[n].entries
               && (s.disk.nodes[n].output.live ==> after.disk.nodes[n].output.live)
    requires forall id :: HasWriter(after, id) ==> HasWriter(s, id) || Attested(s, id)
    ensures SameHolders(s.disk, after.disk) && Modest(s, after)
  {}

  /** No status changes, and a writer appears only under an id that has one. */
  lemma BudgetQuiet(s: State, after: State)
    requires s.disk.root.Sound() && Budgeted(s) && after.op == s.op
    requires after.disk.root == s.disk.root && after.disk.removed == s.disk.removed && after.disk.nodes.Keys == s.disk.nodes.Keys
    requires forall n :: n in s.disk.nodes ==>
               && after.disk.nodes[n].entries == s.disk.nodes[n].entries
               && (s.disk.nodes[n].output.live ==> after.disk.nodes[n].output.live)
    requires forall id :: HasWriter(after, id) ==> HasWriter(s, id) || Attested(s, id)
    ensures Budgeted(after)
  {
    QuietModest(s, after);
    OpReceiptsSteady(s, after);
    BudgetSteady(s, after);
  }

  lemma BudgetReading(s: State, f: ReadStep)
    requires NodesSound(s.disk) && RootSound(s.disk) && Budgeted(s) && ReadEnabled(s, f)
    ensures Budgeted(ReadApply(s, f))
  {
    var after := ReadApply(s, f);
    if f.Mark? {
      BudgetStatus(s, after, s.readers[f.reader].id, Status(Interrupted, Reader));
    } else {
      BudgetQuiet(s, after);
    }
  }

  lemma BudgetWorking(s: State, f: WorkStep)
    requires NodesSound(s.disk) && RootSound(s.disk) && Budgeted(s) && WorkEnabled(s, f)
    ensures Budgeted(WorkApply(s, f))
  {
    var after := WorkApply(s, f);
    if f.Publish? {
      BudgetStatus(s, after, s.workers[f.worker].id, Status(f.state, Supervisor));
    } else {
      BudgetQuiet(s, after);
    }
  }

  // ---- The lock holder ---------------------------------------------------------------------

  /** Nothing changes but where the lock holder is; it gives up no directory and takes on none that bars. */
  lemma BudgetMoved(s: State, after: State)
    requires s.disk.root.Sound() && Budgeted(s) && after.disk == s.disk && FewerWriters(s, after)
    requires forall id :: Own(s.op, id) ==> Own(after.op, id)
    requires forall id :: Bars(s, id) ==> !Own(after.op, id)
    requires OpReceipts(after)
    ensures Budgeted(after)
  {
    BudgetSteady(s, after);
  }

  lemma UnlinkModest(s: State, left: Entries)
    requires NodesSound(s.disk) && RootSound(s.disk) && Placed(s) && KeepEnabled(s, Unlink(left))
    ensures SameHolders(s.disk, KeepApply(s, Unlink(left)).disk) && Modest(s, KeepApply(s, Unlink(left)))
  {
    var after := KeepApply(s, Unlink(left));
    EntriesHold(s.disk, s.op.node, left);
    forall i | Exists(s.disk, i) && i != s.op.id
      ensures after.disk.nodes[s.disk.root.live.sessions[i]] == s.disk.nodes[s.disk.root.live.sessions[i]] {}
  }

  lemma BudgetUnlink(s: State, left: Entries)
    requires NodesSound(s.disk) && RootSound(s.disk) && Placed(s) && Budgeted(s) && KeepEnabled(s, Unlink(left))
    ensures Budgeted(KeepApply(s, Unlink(left)))
  {
    UnlinkModest(s, left);
    BudgetSteady(s, KeepApply(s, Unlink(left)));
  }

  /** Every version of the root is an old one or a part of the present one. */
  ghost predicate RootFollows(s: State, after: State) {
    forall v :: v in after.disk.root.restorable ==> v in s.disk.root.restorable || PartOf(v, s.disk.root.live)
  }

  ghost predicate PartOf(v: Root, w: Root) {
    && v.tombstones == w.tombstones
    && forall i :: i in v.sessions ==> i in w.sessions && w.sessions[i] == v.sessions[i]
  }

  lemma ChargeSame(d: Disk, after: Disk, v: Root)
    requires after.nodes == d.nodes && after.removed.live == d.removed.live
    ensures Charged(after, v) == Charged(d, v)
  {}

  lemma BudgetRoot(s: State, after: State)
    requires s.disk.root.Sound() && Budgeted(s) && Modest(s, after)
    requires after.disk.nodes == s.disk.nodes && after.disk.removed.live == s.disk.removed.live
    requires RootFollows(s, after) && OpReceipts(after)
    ensures Budgeted(after)
  {
    ModestShown(s, after);
    ModestBuriables(s, after);
    forall v | v in after.disk.root.restorable && v.tombstones ensures Covered(s, after, v) {
      ChargeSame(s.disk, after.disk, v);
      if v !in s.disk.root.restorable { assert PartOf(v, s.disk.root.live); }
    }
    RoomKept(s, after);
  }

  lemma RmdirModest(s: State)
    requires Placed(s) && KeepEnabled(s, Rmdir)
    ensures Modest(s, KeepApply(s, Rmdir))
  {}

  lemma BudgetRmdir(s: State)
    requires RootSound(s.disk) && Placed(s) && Budgeted(s) && KeepEnabled(s, Rmdir)
    ensures Budgeted(KeepApply(s, Rmdir))
  {
    RmdirModest(s);
    BudgetRoot(s, KeepApply(s, Rmdir));
  }

  lemma BuryModest(s: State)
    requires KeepEnabled(s, WriteTombstone)
    ensures Modest(s, KeepApply(s, WriteTombstone))
  {}

  lemma BuriedWasBuriable(s: State)
    requires NodesSound(s.disk) && Placed(s) && OpReceipts(s) && KeepEnabled(s, WriteTombstone)
    ensures s.op.id in s.disk.removed.live || s.op.id in Buriables(s)
  {
    assert NodeSound(s.disk.nodes[s.op.node]);
  }

  lemma BudgetTombstone(s: State)
    requires NodesSound(s.disk) && RootSound(s.disk) && Placed(s) && Budgeted(s) && KeepEnabled(s, WriteTombstone)
    ensures Budgeted(KeepApply(s, WriteTombstone))
  {
    var after := KeepApply(s, WriteTombstone);
    BuryModest(s);
    ModestShown(s, after);
    ModestBuriables(s, after);
    BuriedWasBuriable(s);
    forall v | v in s.disk.root.restorable ensures Charged(after.disk, v) <= Fill(s, v) {}
    RoomKept(s, after);
  }

  /** Without tombstones, what a version may present is among its directories. */
  lemma ChargedAreNamed(d: Disk, v: Root)
    requires d.removed.live == {}
    ensures Charged(d, v) <= v.sessions.Keys
  {}

  lemma TombstonesModest(s: State)
    requires RemovedSound(s.disk) && KeepEnabled(s, CreateTombstones)
    ensures Modest(s, KeepApply(s, CreateTombstones))
  {}

  /** A new tombstone directory is empty, so the version that has it presents only its sessions. */
  lemma RoomForTombstones(s: State)
    requires s.disk.root.Sound() && RemovedSound(s.disk) && FewSessions(s) && Room(s) && !s.disk.root.live.tombstones
    requires KeepEnabled(s, CreateTombstones) && Buriables(KeepApply(s, CreateTombstones)) <= Buriables(s)
    ensures Room(KeepApply(s, CreateTombstones))
  {
    var after := KeepApply(s, CreateTombstones);
    forall v | v in after.disk.root.restorable && v.tombstones ensures |Fill(after, v)| <= MAX_REPLAY_RECEIPTS {
      if v in s.disk.root.restorable {
        ChargeSame(s.disk, after.disk, v);
        SubsetSize(Fill(after, v), Fill(s, v));
      } else {
        ChargedAreNamed(after.disk, v);
        SubsetSize(Fill(after, v), s.disk.root.live.sessions.Keys);
      }
    }
  }

  lemma BudgetTombstones(s: State)
    requires s.disk.root.Sound() && RemovedSound(s.disk) && FewSessions(s) && Budgeted(s)
    requires KeepEnabled(s, CreateTombstones)
    ensures Budgeted(KeepApply(s, CreateTombstones))
  {
    var after := KeepApply(s, CreateTombstones);
    TombstonesModest(s);
    ModestShown(s, after);
    ModestBuriables(s, after);
    if s.disk.root.live.tombstones {
      RoomSteady(s, after);
    } else {
      RoomForTombstones(s);
    }
  }

  lemma BudgetSealed(s: State)
    requires s.disk.root.Sound() && Budgeted(s) && KeepEnabled(s, SealTombstones)
    ensures Budgeted(KeepApply(s, SealTombstones))
  {
    BudgetRoot(s, KeepApply(s, SealTombstones));
  }

  lemma SealModest(s: State)
    requires Placed(s) && OpReceipts(s) && KeepEnabled(s, SealRemoval)
    ensures Modest(s, KeepApply(s, SealRemoval))
  {}

  lemma BudgetSealedRemoval(s: State)
    requires s.disk.root.Sound() && Placed(s) && Budgeted(s) && KeepEnabled(s, SealRemoval)
    ensures Budgeted(KeepApply(s, SealRemoval))
  {
    SealModest(s);
    BudgetRoot(s, KeepApply(s, SealRemoval));
  }

  lemma BudgetTurn(s: State, l: KeepStep)
    requires s.disk.root.Sound() && Placed(s) && Budgeted(s) && KeepEnabled(s, l)
    requires l.BeginScan? || l.Doom? || l.Leave? || l.BeginRemove? || l.DeleteUnreceipted?
    ensures Budgeted(KeepApply(s, l))
  {
    BudgetMoved(s, KeepApply(s, l));
  }

  lemma BudgetKeeping(s: State, l: KeepStep)
    requires DiskSound(s.disk) && Placed(s) && FewSessions(s) && Budgeted(s) && KeepEnabled(s, l) && !l.StopDeleting?
    ensures Budgeted(KeepApply(s, l))
  {
    match l
    case CreateTombstones => BudgetTombstones(s);
    case WriteTombstone => BudgetTombstone(s);
    case SealTombstones => BudgetSealed(s);
    case SealRemoval => BudgetSealedRemoval(s);
    case Unlink(left) => BudgetUnlink(s, left);
    case Rmdir => BudgetRmdir(s);
    case _ => BudgetTurn(s, l);
  }

  /** A completed listing leaves no receipt concealed, so the count covers the charge. */
  lemma BudgetAdmit(s: State)
    requires s.disk.root.Sound() && Budgeted(s) && BuildEnabled(s, Admit)
    ensures Budgeted(BuildApply(s, Admit))
  {
    var d := s.disk;
    assert Charged(d, d.root.live) <= Tombstones(d) + Receipts(d) by {
      forall id | id in Charged(d, d.root.live) && id !in d.removed.live ensures id in Receipts(d) {
        assert Loose(s, id) && Attested(s, id);
        assert !Concealed(s, id);
      }
    }
    SubsetSize(Charged(d, d.root.live), Tombstones(d) + Receipts(d));
    UnionSize(Tombstones(d), Receipts(d));
    BudgetMoved(s, BuildApply(s, Admit));
  }

  lemma MakeHolds(d: Disk, id: Id, n: nat)
    requires n !in d.nodes
    ensures SameHolders(d, MakeDirectory(d, id, n))
  {
    forall m ensures MayHold(MakeDirectory(d, id, n), m) <==> MayHold(d, m) {
      if m != n && m in d.nodes { assert MakeDirectory(d, id, n).nodes[m] == d.nodes[m]; }
    }
  }

  lemma MakeChargesOld(d: Disk, id: Id, n: nat, v: Root)
    requires n !in d.nodes
    ensures Charged(MakeDirectory(d, id, n), v) == Charged(d, v)
  {
    MakeHolds(d, id, n);
  }

  lemma MakeChargesNew(d: Disk, id: Id, n: nat)
    requires n !in d.nodes && id !in d.root.live.sessions
    ensures Charged(d, MakeDirectory(d, id, n).root.live) == Charged(d, d.root.live)
  {}

  lemma MakeOnlyLive(d: Disk, id: Id, n: nat)
    requires RootSound(d) && n !in d.nodes
    ensures OnlyLive(MakeDirectory(d, id, n), n)
  {
    forall v | v in d.root.restorable ensures n !in v.sessions.Values {}
  }

  lemma MakeModest(s: State, n: nat)
    requires RootSound(s.disk) && BuildEnabled(s, Make(n))
    ensures Modest(s, BuildApply(s, Make(n)))
  {
    var d, id, after := s.disk, s.op.start.id, BuildApply(s, Make(n));
    MakeHolds(d, id, n);
    forall i | Exists(d, i) ensures after.disk.root.live.sessions[i] == d.root.live.sessions[i]
      && after.disk.nodes[d.root.live.sessions[i]] == d.nodes[d.root.live.sessions[i]] {}
  }

  lemma MakeOp(s: State, n: nat)
    requires RootSound(s.disk) && OpReceipts(s) && BuildEnabled(s, Make(n))
    ensures OpReceipts(BuildApply(s, Make(n)))
  {
    var d, id := s.disk, s.op.start.id;
    MakeOnlyLive(d, id, n);
    MakeChargesOld(d, id, n, MakeDirectory(d, id, n).root.live);
    MakeChargesNew(d, id, n);
  }

  lemma MakeRoom(s: State, n: nat)
    requires RootSound(s.disk) && Room(s) && BuildEnabled(s, Make(n)) && Buriables(BuildApply(s, Make(n))) <= Buriables(s)
    ensures Room(BuildApply(s, Make(n)))
  {
    var d, id := s.disk, s.op.start.id;
    var after := BuildApply(s, Make(n));
    forall v | v in after.disk.root.restorable && v.tombstones ensures Covered(s, after, v) {
      MakeChargesOld(d, id, n, v);
      MakeChargesNew(d, id, n);
    }
    RoomKept(s, after);
  }

  lemma BudgetMake(s: State, n: nat)
    requires RootSound(s.disk) && Budgeted(s) && BuildEnabled(s, Make(n))
    ensures Budgeted(BuildApply(s, Make(n)))
  {
    MakeOp(s, n);
    MakeModest(s, n);
    ModestShown(s, BuildApply(s, Make(n)));
    ModestBuriables(s, BuildApply(s, Make(n)));
    MakeRoom(s, n);
  }

  lemma ReceiptHolds(d: Disk, n: nat, m: nat)
    requires n in d.nodes && m != n
    ensures MayHold(PutEntries(d, n, d.nodes[n].entries.live.(receipt := true)), m) <==> MayHold(d, m)
  {}

  lemma ReceiptCharges(s: State, v: Root)
    requires OneName(s.disk.root.live.sessions) && Placed(s) && OpReceipts(s) && BuildEnabled(s, CreateReceipt)
    requires v in s.disk.root.restorable
    ensures Charged(BuildApply(s, CreateReceipt).disk, v)
         <= Charged(s.disk, v) + if v == s.disk.root.live then {s.op.start.id} else {}
  {
    var after := BuildApply(s, CreateReceipt).disk;
    forall id | id in v.sessions && MayHold(after, v.sessions[id]) && v.sessions[id] != s.op.node
      ensures MayHold(s.disk, v.sessions[id])
    {
      ReceiptHolds(s.disk, s.op.node, v.sessions[id]);
    }
  }

  lemma ReceiptModest(s: State)
    requires OneName(s.disk.root.live.sessions) && Placed(s) && BuildEnabled(s, CreateReceipt)
    ensures Modest(s, BuildApply(s, CreateReceipt))
  {
    var after := BuildApply(s, CreateReceipt);
    forall i | Exists(s.disk, i) && i != s.op.start.id
      ensures after.disk.nodes[s.disk.root.live.sessions[i]] == s.disk.nodes[s.disk.root.live.sessions[i]] {}
  }

  lemma ReceiptRoom(s: State)
    requires OneName(s.disk.root.live.sessions) && Placed(s) && OpReceipts(s) && Room(s) && BuildEnabled(s, CreateReceipt)
    requires Buriables(BuildApply(s, CreateReceipt)) <= Buriables(s)
    ensures Room(BuildApply(s, CreateReceipt))
  {
    var after := BuildApply(s, CreateReceipt);
    var live := s.disk.root.live;
    BuriableIsCharged(s);
    forall v | v in s.disk.root.restorable && v.tombstones ensures |Fill(after, v)| <= MAX_REPLAY_RECEIPTS {
      ReceiptCharges(s, v);
      if v == live {
        SubsetSize(Fill(after, v), Charged(s.disk, live) + {s.op.start.id});
        UnionSize(Charged(s.disk, live), {s.op.start.id});
      } else {
        SubsetSize(Fill(after, v), Fill(s, v));
      }
    }
  }

  lemma BudgetReceipt(s: State)
    requires OneName(s.disk.root.live.sessions) && Placed(s) && Budgeted(s) && BuildEnabled(s, CreateReceipt)
    ensures Budgeted(BuildApply(s, CreateReceipt))
  {
    ReceiptModest(s);
    ModestShown(s, BuildApply(s, CreateReceipt));
    ModestBuriables(s, BuildApply(s, CreateReceipt));
    ReceiptRoom(s);
  }

  /** The lock holder works on its own directory without giving it a receipt. */
  ghost predicate OwnWork(s: State, after: State) {
    && (s.op.Building? || s.op.Publishing?) && Placed(s) && OneName(s.disk.root.live.sessions) && FewerWriters(s, after)
    && after.disk.root == s.disk.root && after.disk.removed == s.disk.removed && after.disk.nodes.Keys == s.disk.nodes.Keys
    && (forall m :: m in s.disk.nodes && m != s.op.node ==> after.disk.nodes[m] == s.disk.nodes[m])
    && (MayHold(after.disk, s.op.node) ==> MayHold(s.disk, s.op.node))
    && (forall i :: Own(after.op, i) <==> Own(s.op, i))
  }

  lemma OwnModest(s: State, after: State)
    requires OwnWork(s, after)
    ensures Modest(s, after)
  {
    forall i | Exists(s.disk, i) && i != s.op.start.id
      ensures after.disk.nodes[s.disk.root.live.sessions[i]] == s.disk.nodes[s.disk.root.live.sessions[i]] {}
  }

  lemma OwnCharges(s: State, after: State, v: Root)
    requires OwnWork(s, after)
    ensures Charged(after.disk, v) <= Charged(s.disk, v)
  {
    forall m | MayHold(after.disk, m) ensures MayHold(s.disk, m) {}
  }

  lemma BudgetOwn(s: State, after: State)
    requires s.disk.root.Sound() && Budgeted(s) && OwnWork(s, after) && OpReceipts(after)
    ensures Budgeted(after)
  {
    OwnModest(s, after);
    ModestShown(s, after);
    ModestBuriables(s, after);
    forall v | v in s.disk.root.restorable ensures Charged(after.disk, v) <= Fill(s, v) { OwnCharges(s, after, v); }
    RoomKept(s, after);
  }

  lemma LogHolds(s: State)
    requires NodesSound(s.disk) && BuildEnabled(s, CreateLog) && OpReceipts(s)
    ensures SameHolders(s.disk, BuildApply(s, CreateLog).disk) && OpReceipts(BuildApply(s, CreateLog))
  {
    EntriesHold(s.disk, s.op.node, s.disk.nodes[s.op.node].entries.live.(log := true));
    SameCharge(s.disk, BuildApply(s, CreateLog).disk, s.disk.root.live);
  }

  lemma BudgetLog(s: State)
    requires NodesSound(s.disk) && RootSound(s.disk) && Placed(s) && Budgeted(s) && BuildEnabled(s, CreateLog)
    ensures Budgeted(BuildApply(s, CreateLog))
  {
    LogHolds(s);
    BudgetOwn(s, BuildApply(s, CreateLog));
  }

  lemma BudgetText(s: State, l: BuildStep)
    requires RootSound(s.disk) && Placed(s) && Budgeted(s) && BuildEnabled(s, l)
    requires l.WriteReceipt? || l.SealReceipt?
    ensures Budgeted(BuildApply(s, l))
  {
    OtherHolds(s.disk, s.op.node, Whole(s.op.start.digest));
    BudgetOwn(s, BuildApply(s, l));
  }

  lemma BudgetOnward(s: State, l: BuildStep)
    requires s.disk.root.Sound() && OpMemory(s) && Budgeted(s) && BuildEnabled(s, l)
    requires l.SpawnEarly? || l.Register? || l.BuildFails?
    ensures Budgeted(BuildApply(s, l))
  {
    BudgetMoved(s, BuildApply(s, l));
  }

  lemma BudgetBuilding(s: State, l: BuildStep)
    requires DiskSound(s.disk) && Placed(s) && OpMemory(s) && Budgeted(s) && BuildEnabled(s, l)
    ensures Budgeted(BuildApply(s, l))
  {
    match l
    case Admit => BudgetAdmit(s);
    case Make(n) => BudgetMake(s, n);
    case CreateLog => BudgetLog(s);
    case CreateReceipt => BudgetReceipt(s);
    case WriteReceipt => BudgetText(s, l);
    case SealReceipt => BudgetText(s, l);
    case _ => BudgetOnward(s, l);
  }

  lemma BudgetOwnStatus(s: State, l: LaunchStep)
    requires NodesSound(s.disk) && RootSound(s.disk) && Placed(s) && Budgeted(s) && LaunchEnabled(s, l)
    requires l.Rename? || l.RenameFailure?
    ensures Budgeted(LaunchApply(s, l))
  {
    StatusHolds(s.disk, s.op.node, if l.Rename? then Status(Running, Starter) else Status(Interrupted, Starter));
    BudgetOwn(s, LaunchApply(s, l));
  }

  lemma BudgetSyncDirectory(s: State)
    requires NodesSound(s.disk) && RootSound(s.disk) && Placed(s) && Budgeted(s) && LaunchEnabled(s, SyncDirectory)
    ensures Budgeted(LaunchApply(s, SyncDirectory))
  {
    BudgetOwn(s, LaunchApply(s, SyncDirectory));
  }

  /** A start that has published its receipt leaves it in view. */
  lemma HandedOver(s: State, l: LaunchStep)
    requires Placed(s) && OpMemory(s) && OpReceipts(s) && LaunchEnabled(s, l) && (l.Launch? || l.Abandon?)
    ensures !Concealed(LaunchApply(s, l), s.op.start.id)
    ensures forall i :: i != s.op.start.id && Loose(LaunchApply(s, l), i) && Attested(LaunchApply(s, l), i) ==>
              Loose(s, i) && Attested(s, i)
    ensures forall i :: Bars(s, i) ==> Bars(LaunchApply(s, l), i)
  {}

  lemma HandedOverShown(s: State, l: LaunchStep)
    requires Placed(s) && OpMemory(s) && Budgeted(s) && LaunchEnabled(s, l) && (l.Launch? || l.Abandon?)
    ensures Shown(LaunchApply(s, l))
  {
    var after := LaunchApply(s, l);
    HandedOver(s, l);
    if i :| Concealed(after, i) {
      assert i != s.op.start.id && Concealed(s, i);
      var j :| Bars(s, j);
      assert Bars(after, j);
    }
  }

  lemma HandedOverBuriables(s: State, l: LaunchStep)
    requires Placed(s) && OpMemory(s) && OpReceipts(s) && LaunchEnabled(s, l) && (l.Launch? || l.Abandon?)
    ensures Buriables(LaunchApply(s, l)) <= Buriables(s) + if s.op.start.replay then {s.op.start.id} else {}
  {
    HandedOver(s, l);
    forall i | i in Buriables(LaunchApply(s, l)) && i != s.op.start.id ensures i in Buriables(s) {
      assert Buriable(LaunchApply(s, l), i);
    }
  }

  /** With the root synced there is only the present version to make room in. */
  lemma BudgetHandedOver(s: State, l: LaunchStep)
    requires s.disk.root.Sound() && Placed(s) && OpMemory(s) && Budgeted(s) && LaunchEnabled(s, l) && (l.Launch? || l.Abandon?)
    ensures Budgeted(LaunchApply(s, l))
  {
    var after := LaunchApply(s, l);
    HandedOverShown(s, l);
    HandedOverBuriables(s, l);
    BuriableIsCharged(after);
    if s.op.start.replay {
      forall v | v in after.disk.root.restorable && v.tombstones ensures |Fill(after, v)| <= MAX_REPLAY_RECEIPTS {
        SubsetSize(Fill(after, v), Fill(s, v));
      }
    } else {
      RoomSteady(s, after);
    }
  }

  lemma BudgetSyncStore(s: State)
    requires s.disk.root.Sound() && Placed(s) && Budgeted(s) && LaunchEnabled(s, SyncStore)
    ensures Budgeted(LaunchApply(s, SyncStore))
  {
    BudgetRoot(s, LaunchApply(s, SyncStore));
  }

  lemma BudgetStill(s: State, l: LaunchStep)
    requires s.disk.root.Sound() && Placed(s) && Budgeted(s) && LaunchEnabled(s, l) && (l.LaunchFails? || l.PublishFails?)
    ensures Budgeted(LaunchApply(s, l))
  {
    BudgetMoved(s, LaunchApply(s, l));
  }

  lemma BudgetLaunching(s: State, l: LaunchStep)
    requires DiskSound(s.disk) && Placed(s) && OpMemory(s) && Budgeted(s) && LaunchEnabled(s, l) && !l.SyncStoreFails?
    ensures Budgeted(LaunchApply(s, l))
  {
    match l
    case Rename => BudgetOwnStatus(s, l);
    case RenameFailure => BudgetOwnStatus(s, l);
    case SyncDirectory => BudgetSyncDirectory(s);
    case SyncStore => BudgetSyncStore(s);
    case Launch => BudgetHandedOver(s, l);
    case Abandon => BudgetHandedOver(s, l);
    case LaunchFails => BudgetStill(s, l);
    case PublishFails => BudgetStill(s, l);
  }

  lemma CrashHolds(d: Disk, image: Disk, n: nat)
    requires CrashImage(d, image) && MayHold(image, n)
    ensures MayHold(d, n) && image.nodes[n].entries.live.receipt
  {
    assert NodeRestoredTo(d.nodes[n], image.nodes[n]);
  }

  lemma CrashCharges(d: Disk, image: Disk)
    requires RemovedSound(d) && CrashImage(d, image)
    ensures image.root.live in d.root.restorable && |Charged(image, image.root.live)| <= |Charged(d, image.root.live)|
  {
    forall n | MayHold(image, n) ensures MayHold(d, n) { CrashHolds(d, image, n); }
    SubsetSize(Charged(image, image.root.live), Charged(d, image.root.live));
  }

  /** Just after a start of the agent only the present versions are left. */
  ghost predicate Reborn(s: State) {
    && s.disk.root.restorable == {s.disk.root.live} && s.op.Free? && s.readers == map[] && s.workers == map[]
    && forall n :: MayHold(s.disk, n) ==> s.disk.nodes[n].entries.live.receipt
  }

  lemma RebornInView(s: State)
    requires Reborn(s)
    ensures Shown(s) && OpReceipts(s)
  {
    forall i ensures !Concealed(s, i) {}
  }

  lemma BudgetReborn(s: State)
    requires Reborn(s) && (s.disk.root.live.tombstones ==> |Charged(s.disk, s.disk.root.live)| <= MAX_REPLAY_RECEIPTS)
    ensures Budgeted(s)
  {
    RebornInView(s);
    BuriableIsCharged(s);
    assert Fill(s, s.disk.root.live) == Charged(s.disk, s.disk.root.live);
  }

  lemma BudgetCrashing(s: State, image: Disk)
    requires RemovedSound(s.disk) && Budgeted(s) && CrashImage(s.disk, image)
    ensures Budgeted(CrashApply(s, image))
  {
    CrashCharges(s.disk, image);
    SubsetSize(Charged(s.disk, image.root.live), Fill(s, image.root.live));
    forall n | MayHold(image, n) ensures image.nodes[n].entries.live.receipt { CrashHolds(s.disk, image, n); }
    BudgetReborn(CrashApply(s, image));
  }

  // ---- Every run ---------------------------------------------------------------------------

  lemma BudgetKept(s: State, t: Step)
    requires Limited(s) && Budgeted(s) && Enabled(s, t) && !Rough(t)
    ensures Budgeted(Apply(s, t))
  {
    match t
    case Keeping(l) => BudgetKeeping(s, l);
    case Starting(l) => BudgetBuilding(s, l);
    case Launching(l) => BudgetLaunching(s, l);
    case Reading(f) => BudgetReading(s, f);
    case Working(f) => BudgetWorking(s, f);
    case Crashing(image) => BudgetCrashing(s, image);
  }

  /** Every rough step leaves room and hides no receipt. */
  ghost predicate Untroubled(s: State, run: seq<Step>)
    requires Possible(s, run)
    decreases |run|
  {
    run != [] ==>
      var after := Apply(s, run[0]);
      (Rough(run[0]) ==> Room(after) && Shown(after)) && Untroubled(after, run[1..])
  }

  lemma {:induction false} BudgetedAlways(s: State, run: seq<Step>)
    requires Limited(s) && Budgeted(s) && Possible(s, run) && Untroubled(s, run)
    ensures Budgeted(After(s, run))
    decreases |run|
  {
    if run != [] {
      LimitedKept(s, run[0]);
      if !Rough(run[0]) { BudgetKept(s, run[0]); }
      BudgetedAlways(Apply(s, run[0]), run[1..]);
    }
  }

  ghost predicate WithinBudget(d: Disk) { |Tombstones(d) + Receipts(d)| <= 1024 }

  lemma CountIsCharged(s: State)
    requires DiskSound(s.disk) && FewSessions(s) && Room(s)
    ensures WithinBudget(s.disk)
  {
    var d := s.disk;
    if d.root.live.tombstones {
      forall id | id in Receipts(d) ensures id in Charged(d, d.root.live) {
        assert NodeSound(d.nodes[d.root.live.sessions[id]]);
      }
      SubsetSize(Tombstones(d) + Receipts(d), Fill(s, d.root.live));
    } else {
      SubsetSize(Tombstones(d) + Receipts(d), d.root.live.sessions.Keys);
    }
  }

  /** Tombstones and receipts together name at most 1024 ids, in every run and after any crash, between a
      tombstone and the removal of its directory included, as long as every rough step leaves room and hides
      no receipt. */
  lemma ReceiptBudgetHolds(run: seq<Step>)
    requires Possible(START, run) && Untroubled(START, run)
    ensures WithinBudget(After(START, run).disk)
  {
    StartsLimited();
    BudgetReborn(START);
    LimitedAlways(START, run);
    BudgetedAlways(START, run);
    CountIsCharged(After(START, run));
  }
}
