/** The receipt budget is exceeded exactly from the states that have no room or conceal a receipt, and such states
    are reached. */
module SessionOverflow {
  import opened Common
  import opened SessionDisk
  import opened SessionStore
  import opened SessionSafety
  import opened SessionSupervision
  import opened SessionCapacity
  import opened SessionBudget

  // ---- Runs without a rough step -----------------------------------------------------------

  ghost predicate Plain(run: seq<Step>) { forall i :: 0 <= i < |run| ==> !Rough(run[i]) }

  ghost predicate Leads(s: State, e: State) { exists run :: Possible(s, run) && Plain(run) && After(s, run) == e }

  lemma LeadsHere(s: State)
    ensures Leads(s, s)
  {
    assert Possible(s, []) && Plain([]) && After(s, []) == s;
  }

  lemma Onward(s0: State, s: State, t: Step)
    requires Leads(s0, s) && Enabled(s, t) && !Rough(t)
    ensures Leads(s0, Apply(s, t))
  {
    var run :| Possible(s0, run) && Plain(run) && After(s0, run) == s;
    Extended(s0, run, t);
    assert Plain(run + [t]);
  }

  lemma {:induction false} ReachedBy(s: State, run: seq<Step>)
    requires Reachable(s) && Possible(s, run)
    ensures Reachable(After(s, run))
    decreases |run|
  {
    if run != [] {
      Reach(s, run[0]);
      ReachedBy(Apply(s, run[0]), run[1..]);
    }
  }

  lemma LeadsReachable(s: State, e: State)
    requires Reachable(s) && Leads(s, e)
    ensures Reachable(e)
  {
    var run :| Possible(s, run) && Plain(run) && After(s, run) == e;
    ReachedBy(s, run);
  }

  lemma ReachableLimited(s: State)
    requires Reachable(s)
    ensures Limited(s) && Accounted(s)
  {
    var run :| Possible(START, run) && After(START, run) == s;
    StartsLimited();
    LimitedAlways(START, run);
    SupervisedAlways(START, run);
  }

  // ---- Letting everybody outside the lock finish -------------------------------------------

  ghost predicate Idle(s: State) { s.op.Free? && s.active == map[] && s.readers == map[] && s.workers == map[] }

  ghost predicate StatusOnly(n: Node, m: Node) {
    && m.receipt == n.receipt && m.output == n.output
    && m.entries.live.receipt == n.entries.live.receipt && m.entries.live.log == n.entries.live.log
    && (n.entries.live.status.Some? ==> m.entries.live.status.Some?)
    && n.entries.restorable <= m.entries.restorable
  }

  /** Directories have gained statuses at most. */
  ghost predicate NodesFollow(d: Disk, after: Disk) {
    after.nodes.Keys == d.nodes.Keys && forall n :: n in d.nodes ==> StatusOnly(d.nodes[n], after.nodes[n])
  }

  ghost predicate OnlyStatuses(d: Disk, after: Disk) {
    after.root == d.root && after.removed == d.removed && NodesFollow(d, after)
  }

  lemma HoldersFollow(d: Disk, after: Disk, n: nat)
    requires NodesFollow(d, after) && MayHold(d, n)
    ensures MayHold(after, n)
  {
    var e :| e in d.nodes[n].entries.restorable && e.receipt;
    assert StatusOnly(d.nodes[n], after.nodes[n]);
  }

  /** A writer under `i` is still there. */
  lemma StaysAttested(s: State, e: State, i: Id)
    requires Attested(s, i) && OnlyStatuses(s.disk, e.disk)
    requires NodeOf(e.disk, i).entries.live.status.Some? || (
      && (forall k :: k in s.readers && s.readers[k].stage.Confirmed? && s.readers[k].id == i ==>
            k in e.readers && e.readers[k] == s.readers[k])
      && (forall q :: q in s.workers && !s.workers[q].closing && s.workers[q].id == i ==>
            q in e.workers && e.workers[q] == s.workers[q]))
    ensures Attested(e, i)
  {
    assert StatusOnly(NodeOf(s.disk, i), NodeOf(e.disk, i));
  }

  lemma StatusFollows(d: Disk, n: nat, st: Status)
    requires n in d.nodes
    ensures OnlyStatuses(d, PutStatus(d, n, st))
  {}

  lemma NothingFollows(d: Disk)
    ensures OnlyStatuses(d, d)
  {}

  lemma MarkAttests(s: State, k: nat)
    requires ReadEnabled(s, Mark(k))
    ensures OnlyStatuses(s.disk, ReadApply(s, Mark(k)).disk)
    ensures forall i :: Attested(s, i) ==> Attested(ReadApply(s, Mark(k)), i)
  {
    StatusFollows(s.disk, s.disk.root.live.sessions[s.readers[k].id], Status(Interrupted, Reader));
    forall i | Attested(s, i) ensures Attested(ReadApply(s, Mark(k)), i) { StaysAttested(s, ReadApply(s, Mark(k)), i); }
  }

  lemma ReturnAttests(s: State, k: nat)
    requires ReadEnabled(s, Return(k)) && !(s.readers[k].stage.Confirmed? && Exists(s.disk, s.readers[k].id))
    ensures forall i :: Attested(s, i) ==> Attested(ReadApply(s, Return(k)), i)
  {
    NothingFollows(s.disk);
    forall i | Attested(s, i) ensures Attested(ReadApply(s, Return(k)), i) { StaysAttested(s, ReadApply(s, Return(k)), i); }
  }

  lemma DrainReader(s0: State, s: State, k: nat) returns (e: State)
    requires Leads(s0, s) && s.op.Free? && k in s.readers
    ensures Leads(s0, e) && e.op.Free? && e.readers == s.readers - {k} && e.active == s.active && e.workers == s.workers
    ensures OnlyStatuses(s.disk, e.disk) && forall id :: Attested(s, id) ==> Attested(e, id)
  {
    if s.readers[k].stage.Confirmed? && Exists(s.disk, s.readers[k].id) {
      MarkAttests(s, k);
      Onward(s0, s, Reading(Mark(k)));
      e := ReadApply(s, Mark(k));
    } else {
      ReturnAttests(s, k);
      Onward(s0, s, Reading(Return(k)));
      e := ReadApply(s, Return(k));
    }
  }

  lemma SmallerMap<V>(m: map<nat, V>, k: nat)
    requires k in m
    ensures |m - {k}| < |m|
  {
    assert m.Keys == (m - {k}).Keys + {k};
  }

  lemma {:induction false} DrainReaders(s0: State, s: State) returns (e: State)
    requires Leads(s0, s) && s.op.Free?
    ensures Leads(s0, e) && e.op.Free? && e.readers == map[] && e.active == s.active && e.workers == s.workers
    ensures OnlyStatuses(s.disk, e.disk) && forall id :: Attested(s, id) ==> Attested(e, id)
    decreases |s.readers|
  {
    e := s;
    if s.readers != map[] {
      var k :| k in s.readers;
      SmallerMap(s.readers, k);
      e := DrainReader(s0, s, k);
      e := DrainReaders(s0, e);
    }
  }

  /** A worker publishes its outcome if it can. */
  function Closing(s: State, q: nat): WorkStep
    requires q in s.workers
  {
    if Exists(s.disk, s.workers[q].id) then Publish(q, Completed) else GiveUp(q)
  }

  lemma ClosingAttests(s: State, q: nat)
    requires q in s.workers && WorkEnabled(s, Closing(s, q))
    ensures OnlyStatuses(s.disk, WorkApply(s, Closing(s, q)).disk)
    ensures forall i :: Attested(s, i) ==> Attested(WorkApply(s, Closing(s, q)), i)
  {
    var e := WorkApply(s, Closing(s, q));
    if Exists(s.disk, s.workers[q].id) {
      StatusFollows(s.disk, s.disk.root.live.sessions[s.workers[q].id], Status(Completed, Supervisor));
    } else {
      NothingFollows(s.disk);
    }
    forall i | Attested(s, i) ensures Attested(e, i) { StaysAttested(s, e, i); }
  }

  lemma CloseWorker(s0: State, s: State, q: nat) returns (e: State)
    requires Leads(s0, s) && s.op.Free? && q in s.workers && Accounted(s)
    ensures Leads(s0, e) && e.op.Free? && e.readers == s.readers && Accounted(e)
    ensures q in e.workers && e.workers[q].closing && e.workers - {q} == s.workers - {q}
    ensures OnlyStatuses(s.disk, e.disk) && forall id :: Attested(s, id) ==> Attested(e, id)
  {
    if s.workers[q].closing {
      NothingFollows(s.disk);
      e := s;
    } else {
      ClosingAttests(s, q);
      Onward(s0, s, Working(Closing(s, q)));
      e := WorkApply(s, Closing(s, q));
    }
  }

  lemma RetireWorker(s0: State, s: State, q: nat) returns (e: State)
    requires Leads(s0, s) && s.op.Free? && q in s.workers && s.workers[q].closing && Accounted(s)
    ensures Leads(s0, e) && e.op.Free? && e.readers == s.readers && e.workers == s.workers - {q} && Accounted(e)
    ensures e.disk == s.disk && forall id :: Attested(s, id) ==> Attested(e, id)
  {
    Onward(s0, s, Working(Retire(q)));
    e := WorkApply(s, Retire(q));
    NothingFollows(s.disk);
    forall i | Attested(s, i) ensures Attested(e, i) { StaysAttested(s, e, i); }
  }

  lemma {:induction false} DrainWorkers(s0: State, s: State) returns (e: State)
    requires Leads(s0, s) && s.op.Free? && s.readers == map[] && Accounted(s)
    ensures Leads(s0, e) && Idle(e)
    ensures OnlyStatuses(s.disk, e.disk) && forall id :: Attested(s, id) ==> Attested(e, id)
    decreases |s.workers|
  {
    e := s;
    if s.workers != map[] {
      var q :| q in s.workers;
      SmallerMap(s.workers, q);
      e := CloseWorker(s0, s, q);
      e := RetireWorker(s0, e, q);
      e := DrainWorkers(s0, e);
    }
  }

  lemma Drain(s0: State, s: State) returns (e: State)
    requires Leads(s0, s) && s.op.Free? && Accounted(s)
    ensures Leads(s0, e) && Idle(e) && OnlyStatuses(s.disk, e.disk)
    ensures forall id :: Attested(s, id) ==> Exists(e.disk, id) && NodeOf(e.disk, id).entries.live.status.Some?
  {
    e := DrainReaders(s0, s);
    e := DrainWorkers(s0, e);
    forall id | Attested(s, id) ensures Attested(e, id) && !HasWriter(e, id) {}
  }

  // ---- Turning receipts into tombstones ----------------------------------------------------

  ghost predicate HasStatus(d: Disk, id: Id) { Exists(d, id) && NodeOf(d, id).entries.live.status.Some? }

  /** With nobody supervising, a reader reports a running session as interrupted. */
  lemma Settle(s0: State, s: State, id: Id) returns (e: State)
    requires Leads(s0, s) && Idle(s) && HasStatus(s.disk, id)
    ensures Leads(s0, e) && Idle(e) && OnlyStatuses(s.disk, e.disk)
    ensures HasStatus(e.disk, id) && !NodeOf(e.disk, id).entries.live.status.value.state.Running?
    ensures forall m :: m in s.disk.nodes && m != s.disk.root.live.sessions[id] ==> e.disk.nodes[m] == s.disk.nodes[m]
  {
    e := s;
    if ShowsRunning(s.disk, id) {
      Onward(s0, e, Reading(Look(0, id)));
      e := ReadApply(e, Look(0, id));
      Onward(s0, e, Reading(Check(0)));
      e := ReadApply(e, Check(0));
      Onward(s0, e, Reading(Confirm(0)));
      e := ReadApply(e, Confirm(0));
      Onward(s0, e, Reading(Mark(0)));
      e := ReadApply(e, Mark(0));
      assert e.readers == map[];
    }
  }

  /** There is a tombstone directory or there are no tombstones. */
  ghost predicate Tombed(d: Disk) { d.removed.Sound() && (d.root.live.tombstones || d.removed.live == {}) }

  lemma Entomb(s0: State, s: State, id: Id) returns (e: State)
    requires Leads(s0, s) && s.op.Removing? && s.op.id == id && s.op.remove.Observed?
    requires s.op.node in s.disk.nodes && s.disk.nodes[s.op.node].entries.live.receipt && Tombed(s.disk)
    ensures Leads(s0, e) && e.op == s.op.(remove := Buried)
    ensures e.active == s.active && e.readers == s.readers && e.workers == s.workers
    ensures e.disk.nodes == s.disk.nodes && e.disk.root.live.sessions == s.disk.root.live.sessions
    ensures s.disk.root.restorable <= e.disk.root.restorable
    ensures e.disk.root.live.tombstones && Tombed(e.disk) && e.disk.removed.live == s.disk.removed.live + {id}
  {
    Onward(s0, s, Keeping(CreateTombstones));
    e := KeepApply(s, CreateTombstones);
    Onward(s0, e, Keeping(WriteTombstone));
    e := KeepApply(e, WriteTombstone);
  }

  /** A removal that gets as far as its tombstone. */
  lemma BuryOne(s0: State, s: State, id: Id) returns (e: State)
    requires Leads(s0, s) && Idle(s) && HasStatus(s.disk, id) && id in Receipts(s.disk) && Tombed(s.disk)
    ensures Leads(s0, e) && Idle(e) && NodesFollow(s.disk, e.disk) && Tombed(e.disk)
    ensures e.disk.root.live.sessions == s.disk.root.live.sessions && s.disk.root.restorable <= e.disk.root.restorable
    ensures e.disk.removed.live == s.disk.removed.live + {id}
  {
    e := Settle(s0, s, id);
    Onward(s0, e, Keeping(BeginRemove(id)));
    e := KeepApply(e, BeginRemove(id));
    e := Entomb(s0, e, id);
    Onward(s0, e, Keeping(Leave));
    e := KeepApply(e, Leave);
  }

  lemma FollowsReceipts(d: Disk, after: Disk, id: Id)
    requires NodesFollow(d, after) && after.root.live.sessions == d.root.live.sessions
    ensures HasStatus(d, id) ==> HasStatus(after, id)
    ensures id in Receipts(d) ==> id in Receipts(after)
  {
    if Exists(d, id) { assert StatusOnly(NodeOf(d, id), NodeOf(after, id)); }
  }

  lemma FollowsOn(d: Disk, mid: Disk, after: Disk)
    requires NodesFollow(d, mid) && NodesFollow(mid, after)
    ensures NodesFollow(d, after)
  {
    forall n | n in d.nodes ensures StatusOnly(d.nodes[n], after.nodes[n]) {
      assert StatusOnly(d.nodes[n], mid.nodes[n]) && StatusOnly(mid.nodes[n], after.nodes[n]);
    }
  }

  lemma {:induction false} BuryAll(s0: State, s: State, todo: set<Id>) returns (e: State)
    requires Leads(s0, s) && Idle(s) && Tombed(s.disk)
    requires forall id :: id in todo ==> HasStatus(s.disk, id) && id in Receipts(s.disk)
    ensures Leads(s0, e) && Idle(e) && NodesFollow(s.disk, e.disk) && Tombed(e.disk)
    ensures s.disk.root.restorable <= e.disk.root.restorable
    ensures e.disk.removed.live == s.disk.removed.live + todo
    decreases |todo|
  {
    e := s;
    if id :| id in todo {
      e := BuryOne(s0, s, id);
      forall i | i in todo - {id} ensures HasStatus(e.disk, i) && i in Receipts(e.disk) { FollowsReceipts(s.disk, e.disk, i); }
      ghost var mid := e.disk;
      e := BuryAll(s0, e, todo - {id});
      FollowsOn(s.disk, mid, e.disk);
      assert {id} + (todo - {id}) == todo;
    }
  }

  // ---- The worst crash ---------------------------------------------------------------------

  /** A version with a receipt, if there is one. */
  ghost function Worst(n: Node): Entries {
    if exists e :: e in n.entries.restorable && e.receipt
    then var e :| e in n.entries.restorable && e.receipt; e
    else n.entries.live
  }

  ghost function Revived(d: Disk, v: Root): Disk {
    Disk(Kept(v, {v}), d.removed.Synced(),
         map n | n in d.nodes ::
           Node(Kept(Worst(d.nodes[n]), {Worst(d.nodes[n])}), d.nodes[n].receipt.Synced(), d.nodes[n].output.Synced()))
  }

  lemma RevivedIsImage(d: Disk, v: Root)
    requires NodesSound(d) && v in d.root.restorable && v.tombstones && d.removed.Sound()
    ensures CrashImage(d, Revived(d, v))
  {
    forall n | n in d.nodes ensures NodeRestoredTo(d.nodes[n], Revived(d, v).nodes[n]) {
      assert NodeSound(d.nodes[n]);
    }
  }

  lemma RevivedCounts(d: Disk, v: Root)
    ensures Charged(d, v) <= Tombstones(Revived(d, v)) + Receipts(Revived(d, v))
  {
    var after := Revived(d, v);
    forall id | id in v.sessions && MayHold(d, v.sessions[id]) ensures id in Receipts(after) {
      assert NodeOf(after, id).entries.live == Worst(d.nodes[v.sessions[id]]);
    }
  }

  lemma Overflows(s0: State, s: State, v: Root, many: set<Id>) returns (e: State)
    requires Leads(s0, s) && NodesSound(s.disk) && Tombed(s.disk) && v in s.disk.root.restorable && v.tombstones
    requires many <= Charged(s.disk, v) && |many| > MAX_REPLAY_RECEIPTS
    ensures Leads(s0, e) && !WithinBudget(e.disk)
  {
    RevivedIsImage(s.disk, v);
    RevivedCounts(s.disk, v);
    Onward(s0, s, Crashing(Revived(s.disk, v)));
    e := CrashApply(s, Revived(s.disk, v));
    SubsetSize(many, Tombstones(e.disk) + Receipts(e.disk));
  }

  lemma StillSound(s0: State, s: State)
    requires Reachable(s0) && Leads(s0, s)
    ensures DiskSound(s.disk)
  {
    LeadsReachable(s0, s);
    ReachableLimited(s);
  }

  lemma SoundIsTombed(d: Disk)
    requires RemovedSound(d)
    ensures Tombed(d)
  {}

  lemma FollowsCharged(d: Disk, after: Disk, v: Root)
    requires NodesFollow(d, after) && d.removed.live <= after.removed.live
    ensures Charged(d, v) <= Charged(after, v)
  {
    forall id | id in v.sessions && MayHold(d, v.sessions[id]) ensures MayHold(after, v.sessions[id]) {
      HoldersFollow(d, after, v.sessions[id]);
    }
  }

  /** No room: bury what can be buried and come back to the version that is too full. */
  lemma RoomlessOverflows(s: State) returns (e: State)
    requires Reachable(s) && s.op.Free? && !Room(s)
    ensures Leads(s, e) && !WithinBudget(e.disk)
  {
    ghost var v :| v in s.disk.root.restorable && v.tombstones && |Fill(s, v)| > MAX_REPLAY_RECEIPTS;
    ReachableLimited(s);
    LeadsHere(s);
    e := Drain(s, s);
    StillSound(s, e);
    SoundIsTombed(e.disk);
    ghost var todo := Buriables(s);
    forall id | id in todo ensures HasStatus(e.disk, id) && id in Receipts(e.disk) {
      FollowsReceipts(s.disk, e.disk, id);
    }
    ghost var mid := e.disk;
    e := BuryAll(s, e, todo);
    FollowsOn(s.disk, mid, e.disk);
    FollowsCharged(s.disk, e.disk, v);
    StillSound(s, e);
    e := Overflows(s, e, v, Fill(s, v));
  }

  // ---- Removing sessions -------------------------------------------------------------------

  /** The session under `id` is gone and nothing else has changed but tombstones. */
  ghost predicate Without(d: Disk, after: Disk, id: Id) {
    && id in d.root.live.sessions && after.root.live.sessions == d.root.live.sessions - {id}
    && after.nodes.Keys == d.nodes.Keys && Tombed(after) && d.removed.live <= after.removed.live <= d.removed.live + {id}
    && forall m :: m in d.nodes && m != d.root.live.sessions[id] ==> after.nodes[m] == d.nodes[m]
  }

  lemma Empty(s0: State, s: State) returns (e: State)
    requires Leads(s0, s) && s.op.Deleting? && Names(s.disk, s.op.id, s.op.node) && Tombed(s.disk)
    ensures Leads(s0, e) && Without(s.disk, e.disk, s.op.id) && e.disk.removed == s.disk.removed
    ensures e.op == if s.op.resume.ToScan? then Scanning(s.op.resume.request) else Free
    ensures e.active == s.active && e.readers == s.readers && e.workers == s.workers
    ensures s.disk.root.restorable <= e.disk.root.restorable && e.disk.root.live.tombstones == s.disk.root.live.tombstones
    ensures s.disk.nodes[s.op.node].entries.restorable <= e.disk.nodes[s.op.node].entries.restorable
  {
    Onward(s0, s, Keeping(Unlink(EMPTY)));
    e := KeepApply(s, Unlink(EMPTY));
    Onward(s0, e, Keeping(Rmdir));
    e := KeepApply(e, Rmdir);
  }

  /** A directory without a status and without output goes while a listing meets it. */
  lemma Sweep(s0: State, s: State, id: Id) returns (e: State)
    requires Leads(s0, s) && Idle(s) && Exists(s.disk, id) && Tombed(s.disk)
    requires NodeOf(s.disk, id).entries.live.status.None?
    requires NodeOf(s.disk, id).entries.live.log ==> !NodeOf(s.disk, id).output.live
    ensures Leads(s0, e) && Idle(e) && Without(s.disk, e.disk, id)
  {
    Onward(s0, s, Keeping(BeginScan(None)));
    e := KeepApply(s, BeginScan(None));
    Onward(s0, e, Keeping(Doom(id)));
    e := KeepApply(e, Doom(id));
    e := Empty(s0, e);
    Onward(s0, e, Keeping(Leave));
    e := KeepApply(e, Leave);
  }

  lemma Seal(s0: State, s: State) returns (e: State)
    requires Leads(s0, s) && s.op.Removing? && s.op.remove.Buried?
    ensures Leads(s0, e) && e.op == Deleting(s.op.id, s.op.node, ToFree, false)
    ensures e.active == s.active && e.readers == s.readers && e.workers == s.workers
    ensures e.disk.nodes == s.disk.nodes && e.disk.root.live == s.disk.root.live && e.disk.removed == s.disk.removed.Synced()
  {
    Onward(s0, s, Keeping(SealTombstones));
    e := KeepApply(s, SealTombstones);
    Onward(s0, e, Keeping(SealRemoval));
    e := KeepApply(e, SealRemoval);
  }

  /** A removal up to the deletion of its directory. */
  lemma Condemn(s0: State, s: State, id: Id) returns (e: State)
    requires Leads(s0, s) && Idle(s) && HasStatus(s.disk, id) && Tombed(s.disk)
    requires !NodeOf(s.disk, id).entries.live.status.value.state.Running?
    ensures Leads(s0, e) && e.op == Deleting(id, s.disk.root.live.sessions[id], ToFree, false)
    ensures e.active == s.active && e.readers == s.readers && e.workers == s.workers
    ensures e.disk.nodes == s.disk.nodes && e.disk.root.live.sessions == s.disk.root.live.sessions && Tombed(e.disk)
    ensures e.disk.removed.live == if id in Receipts(s.disk) then s.disk.removed.live + {id} else s.disk.removed.live
  {
    Onward(s0, s, Keeping(BeginRemove(id)));
    e := KeepApply(s, BeginRemove(id));
    if id in Receipts(s.disk) {
      e := Entomb(s0, e, id);
      e := Seal(s0, e);
    } else {
      Onward(s0, e, Keeping(DeleteUnreceipted));
      e := KeepApply(e, DeleteUnreceipted);
    }
  }

  lemma Remove(s0: State, s: State, id: Id) returns (e: State)
    requires Leads(s0, s) && Idle(s) && HasStatus(s.disk, id) && Tombed(s.disk)
    ensures Leads(s0, e) && Idle(e) && Without(s.disk, e.disk, id)
    ensures id in Receipts(s.disk) ==> id in e.disk.removed.live
  {
    e := Settle(s0, s, id);
    FollowsReceipts(s.disk, e.disk, id);
    e := Condemn(s0, e, id);
    e := Empty(s0, e);
  }

  /** A session with a status and no receipt to be seen, though a crash may bring one back. */
  ghost predicate Hidden(d: Disk, id: Id) {
    HasStatus(d, id) && id !in Receipts(d) && MayHold(d, d.root.live.sessions[id]) && id !in d.removed.live
  }

  lemma HiddenStays(d: Disk, after: Disk, id: Id, other: Id)
    requires Hidden(d, id) && Without(d, after, other) && other != id && OneName(d.root.live.sessions)
    ensures Hidden(after, id)
  {
    assert after.nodes[d.root.live.sessions[id]] == d.nodes[d.root.live.sessions[id]];
  }

  /** No listing is held up. */
  ghost predicate Passable(d: Disk) {
    forall id :: id in d.root.live.sessions ==>
      Exists(d, id) && (HasStatus(d, id) || (NodeOf(d, id).entries.live.log ==> !NodeOf(d, id).output.live))
  }

  lemma PassableStays(d: Disk, after: Disk, other: Id)
    requires Passable(d) && Without(d, after, other) && OneName(d.root.live.sessions)
    ensures Passable(after) && OneName(after.root.live.sessions)
  {
    forall id | id in after.root.live.sessions
      ensures Exists(d, id) && after.nodes[d.root.live.sessions[id]] == d.nodes[d.root.live.sessions[id]]
    {
      assert d.root.live.sessions[id] != d.root.live.sessions[other];
    }
  }

  lemma FewerSessions(d: Disk, after: Disk, other: Id)
    requires Without(d, after, other)
    ensures |after.root.live.sessions| < |d.root.live.sessions|
  {
    assert d.root.live.sessions.Keys == after.root.live.sessions.Keys + {other};
  }

  lemma RemoveOther(s0: State, s: State, id: Id, other: Id) returns (e: State)
    requires Leads(s0, s) && Idle(s) && Tombed(s.disk) && Passable(s.disk) && OneName(s.disk.root.live.sessions)
    requires Hidden(s.disk, id) && other in s.disk.root.live.sessions && other != id
    ensures Leads(s0, e) && Idle(e) && Tombed(e.disk) && Passable(e.disk) && OneName(e.disk.root.live.sessions)
    ensures Hidden(e.disk, id) && |e.disk.root.live.sessions| < |s.disk.root.live.sessions|
  {
    if HasStatus(s.disk, other) { e := Remove(s0, s, other); } else { e := Sweep(s0, s, other); }
    HiddenStays(s.disk, e.disk, id, other);
    PassableStays(s.disk, e.disk, other);
    FewerSessions(s.disk, e.disk, other);
  }

  /** Every session but one is removed. */
  lemma {:induction false} RemoveOthers(s0: State, s: State, id: Id) returns (e: State)
    requires Leads(s0, s) && Idle(s) && Tombed(s.disk) && Passable(s.disk) && OneName(s.disk.root.live.sessions)
    requires Hidden(s.disk, id)
    ensures Leads(s0, e) && Idle(e) && Tombed(e.disk) && Hidden(e.disk, id) && e.disk.root.live.sessions.Keys == {id}
    decreases |s.disk.root.live.sessions|
  {
    e := s;
    if other :| other in s.disk.root.live.sessions && other != id {
      e := RemoveOther(s0, s, id, other);
      e := RemoveOthers(s0, e, id);
    }
  }

  // ---- Ids ---------------------------------------------------------------------------------

  const STEM := "00000000-0000-0000-0000-00000000"

  function Digit(n: nat): char { '0' + (n % 10) as char }

  function IdOf(n: nat): Id { STEM + [Digit(n / 10 / 10 / 10), Digit(n / 10 / 10), Digit(n / 10), Digit(n)] }

  lemma IdIsValid(n: nat)
    ensures ValidId(IdOf(n))
  {
    var id := IdOf(n);
    assert |STEM| == 32 && forall i :: 0 <= i < 32 ==> STEM[i] == if i in [8, 13, 18, 23] then '-' else '0';
    assert forall i :: 0 <= i < 32 ==> id[i] == STEM[i];
    assert forall i :: 32 <= i < 36 ==> HexDigit(id[i]);
  }

  lemma DigitTells(n: nat, m: nat)
    requires Digit(n) == Digit(m) && (n / 10 == m / 10 || (n < 10 && m < 10))
    ensures n == m
  {}

  lemma IdTells(n: nat, m: nat)
    requires n < 10000 && m < 10000 && IdOf(n) == IdOf(m)
    ensures n == m
  {
    var a, b := IdOf(n), IdOf(m);
    assert a[32] == b[32] && a[33] == b[33] && a[34] == b[34] && a[35] == b[35];
    DigitTells(n / 10 / 10 / 10, m / 10 / 10 / 10);
    DigitTells(n / 10 / 10, m / 10 / 10);
    DigitTells(n / 10, m / 10);
    DigitTells(n, m);
  }

  ghost function Image(f: nat -> Id, n: nat): set<Id> { set i | 0 <= i < n :: f(i) }

  lemma {:induction false} ImageSize(f: nat -> Id, n: nat)
    requires forall i, j :: 0 <= i < n && 0 <= j < n && f(i) == f(j) ==> i == j
    ensures |Image(f, n)| == n
  {
    if n > 0 {
      ImageSize(f, n - 1);
      assert Image(f, n) == Image(f, n - 1) + {f(n - 1)};
    }
  }

  lemma FreshId(taken: set<Id>) returns (id: Id)
    requires |taken| < 10000
    ensures ValidId(id) && id !in taken
  {
    forall i: nat, j: nat | i < 10000 && j < 10000 && IdOf(i) == IdOf(j) ensures i == j { IdTells(i, j); }
    ImageSize(IdOf, 10000);
    if Image(IdOf, 10000) <= taken { SubsetSize(Image(IdOf, 10000), taken); }
    var i :| 0 <= i < 10000 && IdOf(i) !in taken;
    IdIsValid(i);
    id := IdOf(i);
  }

  lemma {:induction false} FreshNode(taken: set<nat>) returns (n: nat)
    ensures forall m :: m in taken ==> m < n
    decreases |taken|
  {
    n := 0;
    if k :| k in taken {
      n := FreshNode(taken - {k});
      n := Max(n, k + 1);
      assert forall m :: m in taken ==> m == k || m in taken - {k};
    }
  }

  // ---- A session from its start to its removal ---------------------------------------------

  /** The listing meets no obstacle and the limits are not reached. */
  ghost predicate Admissible(s: State, id: Id) {
    && ValidId(id) && Listed(s.disk) && id !in s.disk.root.live.sessions && id !in s.disk.removed.live
    && |s.disk.root.live.sessions| < MAX_SESSIONS
    && |Tombstones(s.disk)| + |Receipts(s.disk)| < MAX_REPLAY_RECEIPTS
  }

  lemma Accept(s0: State, s: State, r: Request) returns (e: State)
    requires Leads(s0, s) && Idle(s) && r.replay && Admissible(s, r.id)
    ensures Leads(s0, e) && e == s.(op := Admitted(r))
  {
    Onward(s0, s, Keeping(BeginScan(Some(r))));
    e := KeepApply(s, BeginScan(Some(r)));
    assert AnswerTo(e, r) == Create;
    Onward(s0, e, Starting(Admit));
    e := BuildApply(e, Admit);
  }

  /** The disk has gained the one session `id`, in directory `n`. */
  ghost predicate With(d: Disk, after: Disk, id: Id, n: nat) {
    && n !in d.nodes && after.nodes.Keys == d.nodes.Keys + {n}
    && after.root.live == d.root.live.(sessions := d.root.live.sessions[id := n]) && after.removed == d.removed
    && (forall m :: m in d.nodes ==> after.nodes[m] == d.nodes[m])
    && after.nodes[n].entries.live.receipt
  }

  lemma Furnish(s0: State, s: State, n: nat) returns (e: State)
    requires Leads(s0, s) && s.op.Admitted? && s.op.start.replay && s.op.start.id !in s.disk.root.live.sessions
    requires n !in s.disk.nodes
    ensures Leads(s0, e) && e.op == Building(s.op.start, n, ReceiptCreated) && With(s.disk, e.disk, s.op.start.id, n)
    ensures e.active == s.active && e.next == s.next && e.readers == s.readers && e.workers == s.workers
    ensures e.disk.nodes[n].entries.live == Entries(None, true, true) && !e.disk.nodes[n].output.live
    ensures s.disk.root.restorable <= e.disk.root.restorable && e.disk.root.Sound()
  {
    Onward(s0, s, Starting(Make(n)));
    e := BuildApply(s, Make(n));
    Onward(s0, e, Starting(CreateLog));
    e := BuildApply(e, CreateLog);
    Onward(s0, e, Starting(CreateReceipt));
    e := BuildApply(e, CreateReceipt);
  }

  lemma Enlist(s0: State, s: State, d: Disk, n: nat) returns (e: State)
    requires Leads(s0, s) && s.op.Building? && s.op.node == n && s.op.build.ReceiptCreated?
    requires With(d, s.disk, s.op.start.id, n) && s.active == map[]
    ensures Leads(s0, e) && e.op == Publishing(s.op.start, n, s.next, Registered) && With(d, e.disk, s.op.start.id, n)
    ensures e.readers == s.readers && e.workers == s.workers && e.disk.root == s.disk.root
    ensures e.active == map[s.op.start.id := Active(s.next, true)] && e.next == s.next + 1
  {
    Onward(s0, s, Starting(WriteReceipt));
    e := BuildApply(s, WriteReceipt);
    Onward(s0, e, Starting(SealReceipt));
    e := BuildApply(e, SealReceipt);
    Onward(s0, e, Starting(Register));
    e := BuildApply(e, Register);
  }

  lemma Promise(s0: State, s: State, d: Disk, n: nat) returns (e: State)
    requires Leads(s0, s) && s.op.Publishing? && s.op.node == n && s.op.publish.Registered?
    requires With(d, s.disk, s.op.start.id, n)
    ensures Leads(s0, e) && e.op == s.op.(publish := Accepted) && With(d, e.disk, s.op.start.id, n)
    ensures HasStatus(e.disk, s.op.start.id) && e.disk.root == s.disk.root
    ensures e.active == s.active && e.next == s.next && e.readers == s.readers && e.workers == s.workers
  {
    Onward(s0, s, Launching(Rename));
    e := LaunchApply(s, Rename);
    Onward(s0, e, Launching(SyncDirectory));
    e := LaunchApply(e, SyncDirectory);
  }

  lemma Embark(s0: State, s: State) returns (e: State)
    requires Leads(s0, s) && s.op.Publishing? && s.op.publish.Accepted? && s.op.start.replay
    ensures Leads(s0, e) && e.op.Free? && e.active == s.active && e.readers == s.readers
    ensures e.workers == s.workers[s.op.sequence := Worker(s.op.start.id, s.op.node, false)]
    ensures e.disk.nodes == s.disk.nodes && e.disk.root.live == s.disk.root.live && e.disk.removed == s.disk.removed
  {
    Onward(s0, s, Launching(SyncStore));
    e := LaunchApply(s, SyncStore);
    Onward(s0, e, Launching(Launch));
    e := LaunchApply(e, Launch);
  }

  lemma Serve(s0: State, s: State, d: Disk, n: nat) returns (e: State)
    requires Leads(s0, s) && s.op.Publishing? && s.op.node == n && s.op.publish.Accepted? && s.op.start.replay
    requires With(d, s.disk, s.op.start.id, n) && s.active == map[s.op.start.id := Active(s.op.sequence, true)]
    requires s.readers == map[] && s.workers == map[]
    ensures Leads(s0, e) && Idle(e) && With(d, e.disk, s.op.start.id, n) && HasStatus(e.disk, s.op.start.id)
  {
    var q := s.op.sequence;
    e := Embark(s0, s);
    Onward(s0, e, Working(Publish(q, Completed)));
    e := WorkApply(e, Publish(q, Completed));
    Onward(s0, e, Working(Retire(q)));
    e := WorkApply(e, Retire(q));
    assert e.workers == map[] && e.active == map[];
  }

  lemma Host(s0: State, s: State, id: Id) returns (e: State, n: nat)
    requires Leads(s0, s) && Idle(s) && Admissible(s, id)
    ensures Leads(s0, e) && Idle(e) && With(s.disk, e.disk, id, n) && HasStatus(e.disk, id)
  {
    n := FreshNode(s.disk.nodes.Keys);
    e := Accept(s0, s, Request(id, "", true));
    e := Furnish(s0, e, n);
    e := Enlist(s0, e, s.disk, n);
    e := Promise(s0, e, s.disk, n);
    e := Serve(s0, e, s.disk, n);
  }

  lemma CameAndWent(d: Disk, mid: Disk, after: Disk, id: Id, n: nat)
    requires id !in d.root.live.sessions && With(d, mid, id, n) && Without(mid, after, id)
    ensures after.root.live.sessions == d.root.live.sessions
    ensures d.nodes.Keys <= after.nodes.Keys && forall m :: m in d.nodes ==> after.nodes[m] == d.nodes[m]
  {}

  /** A session is started, ends and is removed; its tombstone is all that is left. */
  lemma Cycle(s0: State, s: State, id: Id) returns (e: State)
    requires Leads(s0, s) && Idle(s) && Tombed(s.disk) && Admissible(s, id)
    ensures Leads(s0, e) && Idle(e) && Tombed(e.disk) && e.disk.root.live.sessions == s.disk.root.live.sessions
    ensures e.disk.removed.live == s.disk.removed.live + {id}
    ensures s.disk.nodes.Keys <= e.disk.nodes.Keys && forall m :: m in s.disk.nodes ==> e.disk.nodes[m] == s.disk.nodes[m]
  {
    var n;
    e, n := Host(s0, s, id);
    ghost var mid := e.disk;
    e := Remove(s0, e, id);
    CameAndWent(s.disk, mid, e.disk, id, n);
  }

  // ---- A concealed receipt -----------------------------------------------------------------

  lemma HiddenIsUncounted(d: Disk, id: Id)
    requires Hidden(d, id) && d.root.live.sessions.Keys == {id}
    ensures Listed(d) && Receipts(d) == {} && |d.root.live.sessions| == 1
  {
    assert |d.root.live.sessions.Keys| == 1;
  }

  lemma HiddenUntouched(d: Disk, after: Disk, id: Id)
    requires Hidden(d, id) && after.root.live.sessions == d.root.live.sessions && id !in after.removed.live
    requires d.nodes.Keys <= after.nodes.Keys && forall m :: m in d.nodes ==> after.nodes[m] == d.nodes[m]
    ensures Hidden(after, id)
  {
    assert after.nodes[d.root.live.sessions[id]] == d.nodes[d.root.live.sessions[id]];
  }

  /** The tombstones of other sessions use up the budget. */
  lemma {:induction false} UseUp(s0: State, s: State, id: Id) returns (e: State)
    requires Leads(s0, s) && Idle(s) && Tombed(s.disk) && Hidden(s.disk, id) && s.disk.root.live.sessions.Keys == {id}
    ensures Leads(s0, e) && Tombed(e.disk) && Hidden(e.disk, id) && |Tombstones(e.disk)| >= MAX_REPLAY_RECEIPTS
    decreases MAX_REPLAY_RECEIPTS - |Tombstones(s.disk)|
  {
    e := s;
    if |Tombstones(s.disk)| < MAX_REPLAY_RECEIPTS {
      HiddenIsUncounted(s.disk, id);
      var other := FreshId(Tombstones(s.disk) + {id});
      e := Cycle(s0, s, other);
      HiddenUntouched(s.disk, e.disk, id);
      e := UseUp(s0, e, id);
    }
  }

  lemma ConcealedHides(s: State, after: Disk, id: Id)
    requires Concealed(s, id) && OnlyStatuses(s.disk, after) && HasStatus(after, id)
    ensures Hidden(after, id)
  {
    HoldersFollow(s.disk, after, s.disk.root.live.sessions[id]);
    assert StatusOnly(NodeOf(s.disk, id), NodeOf(after, id));
  }

  lemma UnbarredPasses(s: State, after: Disk)
    requires RootSound(s.disk) && s.op.Free? && OnlyStatuses(s.disk, after) && forall id :: !Bars(s, id)
    requires forall id :: Attested(s, id) ==> HasStatus(after, id)
    ensures Passable(after)
  {
    forall id | id in after.root.live.sessions
      ensures Exists(after, id) && (HasStatus(after, id) || (NodeOf(after, id).entries.live.log ==> !NodeOf(after, id).output.live))
    {
      assert StatusOnly(NodeOf(s.disk, id), NodeOf(after, id));
      assert !Bars(s, id);
    }
  }

  lemma Isolate(s: State, id: Id) returns (e: State)
    requires Reachable(s) && s.op.Free? && Concealed(s, id) && forall i :: !Bars(s, i)
    ensures Leads(s, e) && Idle(e) && Tombed(e.disk) && Hidden(e.disk, id) && e.disk.root.live.sessions.Keys == {id}
  {
    ReachableLimited(s);
    LeadsHere(s);
    e := Drain(s, s);
    StillSound(s, e);
    SoundIsTombed(e.disk);
    ConcealedHides(s, e.disk, id);
    UnbarredPasses(s, e.disk);
    e := RemoveOthers(s, e, id);
  }

  /** A concealed receipt: remove every other session, use up the budget, and come back with the receipt. */
  lemma ConcealedOverflows(s: State) returns (e: State)
    requires Reachable(s) && s.op.Free? && !Shown(s)
    ensures Leads(s, e) && !WithinBudget(e.disk)
  {
    ghost var id :| Concealed(s, id);
    e := Isolate(s, id);
    e := UseUp(s, e, id);
    StillSound(s, e);
    e := Overflows(s, e, e.disk.root.live, Tombstones(e.disk) + {id});
  }

  // ---- Exactly when the budget holds -------------------------------------------------------

  lemma {:induction false} PlainIsUntroubled(s: State, run: seq<Step>)
    requires Possible(s, run) && Plain(run)
    ensures Untroubled(s, run)
    decreases |run|
  {
    if run != [] {
      assert forall i :: 0 <= i < |run[1..]| ==> run[1..][i] == run[i + 1];
      PlainIsUntroubled(Apply(s, run[0]), run[1..]);
    }
  }

  lemma PlainKeepsBudget(s: State, e: State)
    requires Reachable(s) && s.op.Free? && Room(s) && Shown(s) && Leads(s, e)
    ensures WithinBudget(e.disk)
  {
    var run :| Possible(s, run) && Plain(run) && After(s, run) == e;
    ReachableLimited(s);
    PlainIsUntroubled(s, run);
    BudgetedAlways(s, run);
    LeadsReachable(s, e);
    ReachableLimited(e);
    CountIsCharged(e);
  }

  /** From a state between operations, every run without a further rough step keeps to the budget if and only if
      there is room and no receipt is concealed. */
  lemma BudgetDecided(s: State)
    requires Reachable(s) && s.op.Free?
    ensures Room(s) && Shown(s) <==> forall e :: Leads(s, e) ==> WithinBudget(e.disk)
  {
    if Room(s) && Shown(s) {
      forall e | Leads(s, e) ensures WithinBudget(e.disk) { PlainKeepsBudget(s, e); }
    } else if Room(s) {
      var e := ConcealedOverflows(s);
    } else {
      var e := RoomlessOverflows(s);
    }
  }

  // ---- Both ways are taken -----------------------------------------------------------------

  /** A start that has shown its status fails, and its cleanup stops after the receipt. */
  lemma CleanupConceals() returns (s: State, e: State)
    ensures Reachable(s) && s.op.Free? && !Shown(s)
    ensures Reachable(e) && !WithinBudget(e.disk)
  {
    var id := FreshId({});
    LeadsHere(START);
    s := Accept(START, START, Request(id, "", true));
    s := Furnish(START, s, 0);
    s := Enlist(START, s, BLANK, 0);
    s := Withdraw(START, s, BLANK, 0);
    assert Possible(START, []) && After(START, []) == START;
    LeadsReachable(START, s);
    Reach(s, Keeping(StopDeleting));
    s := KeepApply(s, StopDeleting);
    OneHiddenConceals(s, id);
    e := ConcealedOverflows(s);
    LeadsReachable(s, e);
  }

  lemma Withdraw(s0: State, s: State, d: Disk, n: nat) returns (e: State)
    requires Leads(s0, s) && s.op.Publishing? && s.op.node == n && s.op.publish.Registered?
    requires With(d, s.disk, s.op.start.id, n)
    ensures Leads(s0, e) && e.op == Deleting(s.op.start.id, n, ToFree, true) && e.disk.root == s.disk.root
    ensures e.disk.removed == d.removed && MayHold(e.disk, n)
    ensures e.disk.nodes[n].entries.live.status.Some? && !e.disk.nodes[n].entries.live.receipt
  {
    Onward(s0, s, Launching(Rename));
    e := LaunchApply(s, Rename);
    Onward(s0, e, Launching(PublishFails));
    e := LaunchApply(e, PublishFails);
    var shown := e.disk.nodes[n].entries.live;
    Onward(s0, e, Keeping(Unlink(shown.(receipt := false))));
    e := KeepApply(e, Unlink(shown.(receipt := false)));
    assert shown in e.disk.nodes[n].entries.restorable;
  }

  lemma OneHiddenConceals(s: State, id: Id)
    requires s.op.Free? && Hidden(s.disk, id) && s.disk.root.live.sessions.Keys == {id}
    ensures !Shown(s)
  {
    assert Concealed(s, id);
    forall i ensures !Bars(s, i) {}
  }

  /** With no sessions, tombstones up to any number below the budget. */
  lemma {:induction false} Spend(s0: State, s: State, n: nat) returns (e: State)
    requires Leads(s0, s) && Idle(s) && Tombed(s.disk) && s.disk.root.live.sessions == map[]
    requires |Tombstones(s.disk)| <= n < MAX_REPLAY_RECEIPTS
    ensures Leads(s0, e) && Idle(e) && Tombed(e.disk) && e.disk.root.live.sessions == map[] && |Tombstones(e.disk)| == n
    decreases n - |Tombstones(s.disk)|
  {
    e := s;
    if |Tombstones(s.disk)| < n {
      assert Receipts(s.disk) == {};
      var id := FreshId(Tombstones(s.disk));
      e := Cycle(s0, s, id);
      e := Spend(s0, e, n);
    }
  }

  /** The crash that loses nothing. */
  function Unharmed(d: Disk): Disk {
    Disk(d.root.Synced(), d.removed.Synced(),
         map n | n in d.nodes ::
           Node(d.nodes[n].entries.Synced(), d.nodes[n].receipt.Synced(), d.nodes[n].output.Synced()))
  }

  lemma UnharmedIsImage(d: Disk)
    requires DiskSound(d)
    ensures CrashImage(d, Unharmed(d))
  {
    forall n | n in d.nodes ensures NodeRestoredTo(d.nodes[n], Unharmed(d).nodes[n]) { assert NodeSound(d.nodes[n]); }
  }

  lemma Restart(s0: State, s: State) returns (e: State)
    requires Reachable(s0) && Leads(s0, s)
    ensures Leads(s0, e) && Idle(e) && e.disk == Unharmed(s.disk)
  {
    StillSound(s0, s);
    UnharmedIsImage(s.disk);
    Onward(s0, s, Crashing(Unharmed(s.disk)));
    e := CrashApply(s, Unharmed(s.disk));
  }

  /** The agent dies in a start and comes back to a directory with a receipt and no status. */
  lemma Orphan(s0: State, s: State, id: Id) returns (e: State, n: nat)
    requires Reachable(s0) && Leads(s0, s) && Idle(s) && s.disk.root.live.sessions == map[] && Admissible(s, id)
    requires s.disk.root.live.tombstones
    ensures Leads(s0, e) && Idle(e) && e.disk.root.live == Root(map[id := n], true)
    ensures Tombstones(e.disk) == Tombstones(s.disk) && n in e.disk.nodes
    ensures e.disk.nodes[n].entries.live == Entries(None, true, true) && !e.disk.nodes[n].output.live
  {
    n := FreshNode(s.disk.nodes.Keys);
    e := Accept(s0, s, Request(id, "", true));
    e := Furnish(s0, e, n);
    e := Restart(s0, e);
  }

  /** A listing for a start sweeps that directory. */
  lemma SweepFor(s0: State, s: State, id: Id, n: nat, r: Request) returns (e: State)
    requires Leads(s0, s) && Idle(s) && s.disk.root.live == Root(map[id := n], true) && n in s.disk.nodes && ValidId(r.id)
    requires s.disk.nodes[n].entries.live == Entries(None, true, true) && !s.disk.nodes[n].output.live && Tombed(s.disk)
    requires s.disk.root.Sound() && NodeSound(s.disk.nodes[n])
    ensures Leads(s0, e) && e.op == Scanning(Some(r)) && e.disk.root.live == Root(map[], true) && e.disk.removed == s.disk.removed
    ensures s.disk.root.live in e.disk.root.restorable && MayHold(e.disk, n)
    ensures e.active == map[] && e.readers == map[] && e.workers == map[]
  {
    Onward(s0, s, Keeping(BeginScan(Some(r))));
    e := KeepApply(s, BeginScan(Some(r)));
    Onward(s0, e, Keeping(Doom(id)));
    e := KeepApply(e, Doom(id));
    e := Empty(s0, e);
    assert Entries(None, true, true) in e.disk.nodes[n].entries.restorable;
  }

  /** And the start takes its place under another id. */
  lemma Displace(s0: State, s: State, id: Id, n: nat, r: Request) returns (e: State)
    requires Reachable(s0) && Leads(s0, s) && Idle(s) && s.disk.root.live == Root(map[id := n], true) && n in s.disk.nodes
    requires s.disk.nodes[n].entries.live == Entries(None, true, true) && !s.disk.nodes[n].output.live
    requires r.replay && ValidId(r.id) && r.id !in Tombstones(s.disk) && |Tombstones(s.disk)| < MAX_REPLAY_RECEIPTS
    ensures Leads(s0, e) && e.op == Admitted(r) && e.disk.root.live == Root(map[], true) && e.disk.removed == s.disk.removed
    ensures s.disk.root.live in e.disk.root.restorable && MayHold(e.disk, n)
    ensures e.active == map[] && e.readers == map[] && e.workers == map[]
  {
    StillSound(s0, s);
    SoundIsTombed(s.disk);
    e := SweepFor(s0, s, id, n, r);
    assert Receipts(e.disk) == {};
    assert AnswerTo(e, r) == Create;
    Onward(s0, e, Starting(Admit));
    e := BuildApply(e, Admit);
  }

  lemma NoRoomForBoth(s: State, v: Root, x: Id, y: Id)
    requires v in s.disk.root.restorable && v.tombstones && x in v.sessions && MayHold(s.disk, v.sessions[x])
    requires Buriable(s, y) && x != y && x !in Tombstones(s.disk) && |Tombstones(s.disk)| == MAX_REPLAY_RECEIPTS - 1
    ensures !Room(s)
  {
    assert y in Buriables(s);
    var both := Tombstones(s.disk) + {x} + {y};
    assert |both| == MAX_REPLAY_RECEIPTS + 1;
    SubsetSize(both, Fill(s, v));
  }

  /** Up to the root sync of the start that displaced the directory. */
  lemma AcceptOver(s0: State, s: State, v: Root, n: nat) returns (e: State)
    requires Leads(s0, s) && s.op.Admitted? && s.op.start.replay && s.disk.root.live.sessions == map[]
    requires s.active == map[] && s.readers == map[] && s.workers == map[] && v in s.disk.root.restorable && MayHold(s.disk, n)
    ensures Leads(s0, e) && e.op.Publishing? && e.op.start == s.op.start && e.op.publish.Accepted?
    ensures HasStatus(e.disk, s.op.start.id) && s.op.start.id in Receipts(e.disk) && e.disk.removed == s.disk.removed
    ensures v in e.disk.root.restorable && MayHold(e.disk, n)
  {
    var m := FreshNode(s.disk.nodes.Keys);
    e := Furnish(s0, s, m);
    e := Enlist(s0, e, s.disk, m);
    e := Promise(s0, e, s.disk, m);
    assert e.disk.nodes[n] == s.disk.nodes[n];
  }

  lemma BuriableAfter(s: State, id: Id)
    requires s.op.Free? && NodesSound(s.disk) && HasStatus(s.disk, id) && id in Receipts(s.disk) && id !in Tombstones(s.disk)
    ensures Buriable(s, id)
  {
    assert NodeSound(NodeOf(s.disk, id));
  }

  /** An accepted start cannot sync the root, an older version of which has a receipt of its own. */
  lemma UnsyncedIsRoomless() returns (s: State, e: State)
    ensures Reachable(s) && s.op.Free? && !Room(s)
    ensures Reachable(e) && !WithinBudget(e.disk)
  {
    LeadsHere(START);
    assert Possible(START, []) && After(START, []) == START;
    s := Spend(START, START, MAX_REPLAY_RECEIPTS - 1);
    var x := FreshId(Tombstones(s.disk));
    var y := FreshId(Tombstones(s.disk) + {x});
    assert Receipts(s.disk) == {};
    var n;
    s, n := Orphan(START, s, x);
    ghost var v := s.disk.root.live;
    s := Displace(START, s, x, n, Request(y, "", true));
    s := AcceptOver(START, s, v, n);
    LeadsReachable(START, s);
    Reach(s, Launching(SyncStoreFails));
    s := LaunchApply(s, SyncStoreFails);
    ReachableLimited(s);
    BuriableAfter(s, y);
    NoRoomForBoth(s, v, x, y);
    e := RoomlessOverflows(s);
    LeadsReachable(s, e);
  }
}
