/** A run in which a reader's report lands on a session it never looked at. It shows that the proviso
    on the supervision promises is needed. */
module SessionWitness {
  import opened Common
  import opened SessionDisk
  import opened SessionStore
  import opened SessionSafety
  import opened SessionSupervision

  const ID := "00000000-0000-0000-0000-000000000000"
  const ASK := Request(ID, "", false)

  lemma IdIsValid()
    ensures ValidId(ID)
  {
    assert forall i :: 0 <= i < 36 ==> i == 8 || i == 13 || i == 18 || i == 23 || ID[i] == '0';
  }

  /** Everything but the lock holder, the disk and the spawns. */
  ghost predicate SameElse(s: State, e: State) {
    e.active == s.active && e.next == s.next && e.readers == s.readers && e.workers == s.workers
  }

  lemma Admits(s: State) returns (e: State)
    requires Reachable(s) && s.op.Free? && s.disk.root.live.sessions == map[] && s.active == map[]
    ensures Reachable(e) && e.op == Admitted(ASK) && e.disk == s.disk && SameElse(s, e)
  {
    IdIsValid();
    Reach(s, Keeping(BeginScan(Some(ASK))));
    e := KeepApply(s, BeginScan(Some(ASK)));
    assert AnswerTo(e, ASK) == Create;
    Reach(e, Starting(Admit));
    e := BuildApply(e, Admit);
  }

  /** The disk has just the one session, in directory `n`. */
  ghost predicate Only(d: Disk, n: nat) { d.root.live.sessions == map[ID := n] && n in d.nodes }

  lemma Builds(s: State, n: nat) returns (e: State)
    requires Reachable(s) && s.op == Admitted(ASK) && s.disk.root.live.sessions == map[] && n !in s.disk.nodes
    ensures Reachable(e) && e.op == Building(ASK, n, Spawned) && Only(e.disk, n) && SameElse(s, e)
    ensures e.disk.nodes.Keys == s.disk.nodes.Keys + {n} && !e.disk.nodes[n].entries.live.receipt
  {
    Reach(s, Starting(Make(n)));
    e := BuildApply(s, Make(n));
    Reach(e, Starting(CreateLog));
    e := BuildApply(e, CreateLog);
    Reach(e, Starting(SpawnEarly));
    e := BuildApply(e, SpawnEarly);
  }

  lemma Launches(s: State, n: nat) returns (e: State)
    requires Reachable(s) && s.op == Building(ASK, n, Spawned) && Only(s.disk, n) && s.active == map[]
    requires !s.disk.nodes[n].entries.live.receipt
    ensures Reachable(e) && e.op.Free? && Only(e.disk, n) && Started(e.disk, n)
    ensures e.disk.nodes.Keys == s.disk.nodes.Keys && !e.disk.nodes[n].entries.live.receipt
    ensures e.active == map[ID := Active(s.next, true)] && e.next == s.next + 1 && e.readers == s.readers
    ensures e.workers == s.workers[s.next := Worker(ID, n, false)]
  {
    Reach(s, Starting(Register));
    e := BuildApply(s, Register);
    Reach(e, Launching(Rename));
    e := LaunchApply(e, Rename);
    Reach(e, Launching(SyncDirectory));
    e := LaunchApply(e, SyncDirectory);
    Reach(e, Launching(Launch));
    e := LaunchApply(e, Launch);
  }

  /** The worker cannot save its outcome and retires. */
  lemma Retires(s: State, q: nat) returns (e: State)
    requires Reachable(s) && s.op.Free? && s.workers == map[q := Worker(ID, 0, false)] && s.active == map[ID := Active(q, true)]
    ensures Reachable(e) && e.op.Free? && e.disk == s.disk && e.workers == map[] && e.active == map[]
    ensures e.next == s.next && e.readers == s.readers
  {
    Reach(s, Working(GiveUp(q)));
    e := WorkApply(s, GiveUp(q));
    Reach(e, Working(Retire(q)));
    e := WorkApply(e, Retire(q));
    assert e.workers == map[] && e.active == map[];
  }

  /** A reader finds the session running and unsupervised, twice. */
  lemma Confirms(s: State, k: nat) returns (e: State)
    requires Reachable(s) && s.op.Free? && Only(s.disk, 0) && Started(s.disk, 0) && s.active == map[] && k !in s.readers
    ensures Reachable(e) && e.readers == s.readers[k := Read(ID, 0, Confirmed)]
    ensures e.op.Free? && e.disk == s.disk && e.active == s.active && e.next == s.next && e.workers == s.workers
  {
    Reach(s, Reading(Look(k, ID)));
    e := ReadApply(s, Look(k, ID));
    Reach(e, Reading(Check(k)));
    e := ReadApply(e, Check(k));
    Reach(e, Reading(Confirm(k)));
    e := ReadApply(e, Confirm(k));
  }

  /** The second reader reports the interruption. */
  lemma Reports(s: State) returns (e: State)
    requires Reachable(s) && Only(s.disk, 0) && 1 in s.readers
    requires s.readers[1] == Read(ID, 0, Confirmed) && !s.disk.nodes[0].entries.live.receipt
    ensures Reachable(e) && e.op == s.op && Only(e.disk, 0) && e.disk.nodes.Keys == s.disk.nodes.Keys
    ensures e.disk.nodes[0].entries.live.status == Some(Status(Interrupted, Reader))
    ensures !e.disk.nodes[0].entries.live.receipt
    ensures e.readers == s.readers - {1} && e.active == s.active && e.workers == s.workers && e.next == s.next
  {
    Reach(s, Reading(Mark(1)));
    e := ReadApply(s, Mark(1));
  }

  lemma Removes(s: State) returns (e: State)
    requires Reachable(s) && s.op.Free? && Only(s.disk, 0) && !s.disk.nodes[0].entries.live.receipt
    requires s.disk.nodes[0].entries.live.status == Some(Status(Interrupted, Reader))
    ensures Reachable(e) && e.op == Deleting(ID, 0, ToFree, false) && e.disk == s.disk && SameElse(s, e)
  {
    Reach(s, Keeping(BeginRemove(ID)));
    e := KeepApply(s, BeginRemove(ID));
    Reach(e, Keeping(DeleteUnreceipted));
    e := KeepApply(e, DeleteUnreceipted);
  }

  lemma Deletes(s: State) returns (e: State)
    requires Reachable(s) && s.op == Deleting(ID, 0, ToFree, false) && Only(s.disk, 0)
    ensures Reachable(e) && e.op.Free? && e.disk.root.live.sessions == map[] && e.disk.nodes.Keys == s.disk.nodes.Keys
    ensures SameElse(s, e)
  {
    Reach(s, Keeping(Unlink(EMPTY)));
    e := KeepApply(s, Unlink(EMPTY));
    Reach(e, Keeping(Rmdir));
    e := KeepApply(e, Rmdir);
  }

  lemma FirstSession() returns (s: State)
    ensures Reachable(s) && s.op.Free? && Only(s.disk, 0) && Started(s.disk, 0) && s.disk.nodes.Keys == {0}
    ensures !s.disk.nodes[0].entries.live.receipt && s.active == map[] && s.workers == map[] && s.next == 1
    ensures s.readers == map[]
  {
    s := START;
    assert Possible(START, []) && After(START, []) == s;
    s := Admits(s);
    s := Builds(s, 0);
    s := Launches(s, 0);
    s := Retires(s, 0);
  }

  lemma SecondSession(s: State) returns (e: State)
    requires Reachable(s) && s.op.Free? && s.disk.root.live.sessions == map[] && s.disk.nodes.Keys == {0}
    requires s.active == map[] && s.workers == map[] && s.next == 1 && s.readers == map[0 := Read(ID, 0, Confirmed)]
    ensures Reachable(e) && Only(e.disk, 1) && e.workers == map[1 := Worker(ID, 1, false)] && e.readers == s.readers
  {
    e := Admits(s);
    e := Builds(e, 1);
    e := Launches(e, 1);
  }

  /** Remove and restart an id while one `get` of it is under way, and that `get` can report as
      interrupted the new session, whose worker is still running. */
  lemma StaleReport() returns (s: State, q: nat)
    ensures Reachable(s) && q in s.workers && !s.workers[q].closing && s.workers[q].id in s.stale
    ensures Names(s.disk, s.workers[q].id, s.workers[q].node) && !ShowsRunning(s.disk, s.workers[q].id)
    ensures s.disk.nodes[s.workers[q].node].entries.live.status == Some(Status(Interrupted, Reader))
  {
    s := FirstSession();
    s := Confirms(s, 0);
    s := Confirms(s, 1);
    s := Reports(s);
    assert s.readers == map[0 := Read(ID, 0, Confirmed)];
    s := Removes(s);
    s := Deletes(s);
    s := SecondSession(s);
    q := 1;
    Reach(s, Reading(Mark(0)));
    s := ReadApply(s, Mark(0));
  }
}
