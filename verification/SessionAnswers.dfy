/** What each answer to a start means, in terms of what happened before. */
module SessionAnswers {
  import opened Common
  import opened SessionDisk
  import opened SessionStore
  import opened SessionSafety
  import opened SessionCapacity

  // ---- Ids ---------------------------------------------------------------------------------

  ghost predicate Hex(c: char) { c in "0123456789abcdef" || c in "ABCDEF" }

  lemma HexMeans(c: char)
    ensures HexDigit(c) <==> Hex(c)
  {
    var s, t := "0123456789abcdef", "ABCDEF";
    assert s[0] == '0' && s[1] == '1' && s[2] == '2' && s[3] == '3' && s[4] == '4' && s[5] == '5' && s[6] == '6' && s[7] == '7';
    assert s[8] == '8' && s[9] == '9' && s[10] == 'a' && s[11] == 'b' && s[12] == 'c' && s[13] == 'd' && s[14] == 'e' && s[15] == 'f';
    assert t[0] == 'A' && t[1] == 'B' && t[2] == 'C' && t[3] == 'D' && t[4] == 'E' && t[5] == 'F';
  }

  ghost predicate HexText(id: Id, from: nat, to: nat) { to <= |id| && forall i :: from <= i < to ==> Hex(id[i]) }

  /** An id is valid exactly if it is hexadecimal digits in groups of 8, 4, 4, 4 and 12 with hyphens between them. */
  lemma IdExactly(id: Id)
    ensures ValidId(id) <==>
            && |id| == 36 && HexText(id, 0, 8) && HexText(id, 9, 13) && HexText(id, 14, 18) && HexText(id, 19, 23)
            && HexText(id, 24, 36) && id[8] == id[13] == id[18] == id[23] == '-'
  {
    forall i | 0 <= i < |id| ensures HexDigit(id[i]) <==> Hex(id[i]) { HexMeans(id[i]); }
  }

  // ---- What a run has made and written -----------------------------------------------------

  /** The directory a step makes, with the id it is made for. */
  ghost function MadeBy(s: State, t: Step): set<(Id, nat)> {
    if t.Starting? && t.build.Make? && s.op.Admitted? then {(s.op.start.id, t.build.node)} else {}
  }

  /** The receipt a step writes: for which id, in which directory, of which specification. */
  ghost function WrittenBy(s: State, t: Step): set<(Id, nat, string)> {
    if t == Starting(WriteReceipt) && s.op.Building? then {(s.op.start.id, s.op.node, s.op.start.digest)} else {}
  }

  ghost function MadeIn(s: State, run: seq<Step>): set<(Id, nat)>
    requires Possible(s, run)
    decreases |run|
  {
    if run == [] then {} else MadeBy(s, run[0]) + MadeIn(Apply(s, run[0]), run[1..])
  }

  ghost function WrittenIn(s: State, run: seq<Step>): set<(Id, nat, string)>
    requires Possible(s, run)
    decreases |run|
  {
    if run == [] then {} else WrittenBy(s, run[0]) + WrittenIn(Apply(s, run[0]), run[1..])
  }

  // ---- Every name and every receipt has its origin -----------------------------------------

  ghost predicate NamesMade(d: Disk, made: set<(Id, nat)>) {
    && (forall id, n :: (id, n) in made ==> n in d.nodes)
    && (forall id, other, n :: (id, n) in made && (other, n) in made ==> id == other)
    && (forall v, id :: v in d.root.restorable && id in v.sessions ==> (id, v.sessions[id]) in made)
  }

  ghost predicate ReceiptsWritten(d: Disk, made: set<(Id, nat)>, written: set<(Id, nat, string)>) {
    forall n, digest :: n in d.nodes && Whole(digest) in d.nodes[n].receipt.restorable ==>
      exists id :: (id, n) in made && (id, n, digest) in written
  }

  /** No directory goes, and every version of the root is an old one or a part of the present one. */
  ghost predicate NamesFollow(d: Disk, after: Disk) {
    && d.nodes.Keys <= after.nodes.Keys
    && forall v, id :: v in after.root.restorable && id in v.sessions ==>
         exists w :: w in d.root.restorable && id in w.sessions && w.sessions[id] == v.sessions[id]
  }

  /** No receipt gains a version, and new directories have none. */
  ghost predicate ReceiptsFollow(d: Disk, after: Disk) {
    forall n, digest :: n in after.nodes && Whole(digest) in after.nodes[n].receipt.restorable ==>
      n in d.nodes && Whole(digest) in d.nodes[n].receipt.restorable
  }

  lemma OldVersions(d: Disk, after: Disk)
    requires d.nodes.Keys <= after.nodes.Keys && after.root.restorable <= d.root.restorable
    ensures NamesFollow(d, after)
  {}

  lemma SameReceipts(d: Disk, after: Disk)
    requires after.nodes.Keys <= d.nodes.Keys && forall n :: n in after.nodes ==> after.nodes[n].receipt == d.nodes[n].receipt
    ensures ReceiptsFollow(d, after)
  {}

  lemma KeepingFollows(s: State, l: KeepStep)
    requires s.disk.root.Sound() && KeepEnabled(s, l)
    ensures NamesFollow(s.disk, KeepApply(s, l).disk) && ReceiptsFollow(s.disk, KeepApply(s, l).disk)
  {
    SameReceipts(s.disk, KeepApply(s, l).disk);
    if !l.Rmdir? && !l.CreateTombstones? { OldVersions(s.disk, KeepApply(s, l).disk); }
  }

  lemma BuildingFollows(s: State, l: BuildStep)
    requires s.disk.root.Sound() && NodesSound(s.disk) && BuildEnabled(s, l) && !l.Make?
    ensures NamesFollow(s.disk, BuildApply(s, l).disk) && (!l.WriteReceipt? ==> ReceiptsFollow(s.disk, BuildApply(s, l).disk))
  {
    OldVersions(s.disk, BuildApply(s, l).disk);
    if l.SealReceipt? {
      assert NodeSound(s.disk.nodes[s.op.node]);
    } else if !l.WriteReceipt? {
      SameReceipts(s.disk, BuildApply(s, l).disk);
    }
  }

  lemma LaunchingFollows(s: State, l: LaunchStep)
    requires s.disk.root.Sound() && LaunchEnabled(s, l)
    ensures NamesFollow(s.disk, LaunchApply(s, l).disk) && ReceiptsFollow(s.disk, LaunchApply(s, l).disk)
  {
    OldVersions(s.disk, LaunchApply(s, l).disk);
    SameReceipts(s.disk, LaunchApply(s, l).disk);
  }

  ghost predicate Follows(d: Disk, after: Disk) { NamesFollow(d, after) && ReceiptsFollow(d, after) }

  lemma EntriesFollow(d: Disk, n: nat, e: Entries)
    requires n in d.nodes
    ensures Follows(d, PutEntries(d, n, e)) && Follows(d, PutOutput(d, n)) && Follows(d, d)
  {
    OldVersions(d, PutEntries(d, n, e));
    SameReceipts(d, PutEntries(d, n, e));
    OldVersions(d, PutOutput(d, n));
    SameReceipts(d, PutOutput(d, n));
    OldVersions(d, d);
  }

  lemma NothingFollows(d: Disk)
    ensures Follows(d, d)
  {
    OldVersions(d, d);
  }

  lemma StatusFollows(d: Disk, n: nat, st: Status)
    requires n in d.nodes
    ensures Follows(d, PutStatus(d, n, st))
  {
    EntriesFollow(d, n, d.nodes[n].entries.live.(status := Some(st)));
  }

  lemma ReadingFollows(s: State, f: ReadStep)
    requires ReadEnabled(s, f)
    ensures Follows(s.disk, ReadApply(s, f).disk)
  {
    NothingFollows(s.disk);
    if f.Mark? { StatusFollows(s.disk, s.disk.root.live.sessions[s.readers[f.reader].id], Status(Interrupted, Reader)); }
  }

  lemma WorkingFollows(s: State, f: WorkStep)
    requires WorkEnabled(s, f)
    ensures Follows(s.disk, WorkApply(s, f).disk)
  {
    NothingFollows(s.disk);
    if f.Append? { EntriesFollow(s.disk, s.workers[f.worker].node, EMPTY); }
    if f.Publish? { StatusFollows(s.disk, s.disk.root.live.sessions[s.workers[f.worker].id], Status(f.state, Supervisor)); }
  }

  lemma CrashFollows(d: Disk, image: Disk)
    requires CrashImage(d, image)
    ensures NamesFollow(d, image) && ReceiptsFollow(d, image)
  {
    forall n, digest | n in image.nodes && Whole(digest) in image.nodes[n].receipt.restorable
      ensures Whole(digest) in d.nodes[n].receipt.restorable
    {
      assert NodeRestoredTo(d.nodes[n], image.nodes[n]);
    }
  }

  lemma StepFollows(s: State, t: Step)
    requires s.disk.root.Sound() && NodesSound(s.disk) && Enabled(s, t) && !(t.Starting? && t.build.Make?)
    ensures NamesFollow(s.disk, Apply(s, t).disk)
    ensures t != Starting(WriteReceipt) ==> ReceiptsFollow(s.disk, Apply(s, t).disk)
  {
    match t
    case Keeping(l) => KeepingFollows(s, l);
    case Starting(l) => BuildingFollows(s, l);
    case Launching(l) => LaunchingFollows(s, l);
    case Reading(f) => ReadingFollows(s, f);
    case Working(f) => WorkingFollows(s, f);
    case Crashing(image) => CrashFollows(s.disk, image);
  }

  ghost predicate Recorded(d: Disk, made: set<(Id, nat)>, written: set<(Id, nat, string)>) {
    NamesMade(d, made) && ReceiptsWritten(d, made, written)
  }

  lemma FollowersMade(d: Disk, after: Disk, made: set<(Id, nat)>)
    requires NamesMade(d, made) && NamesFollow(d, after)
    ensures NamesMade(after, made)
  {}

  lemma FollowersWritten(d: Disk, after: Disk, made: set<(Id, nat)>, written: set<(Id, nat, string)>)
    requires ReceiptsWritten(d, made, written) && ReceiptsFollow(d, after)
    ensures ReceiptsWritten(after, made, written)
  {}

  lemma MoreWritten(d: Disk, made: set<(Id, nat)>, written: set<(Id, nat, string)>, also: set<(Id, nat)>, more: set<(Id, nat, string)>)
    requires ReceiptsWritten(d, made, written)
    ensures ReceiptsWritten(d, made + also, written + more)
  {
    forall n, digest | n in d.nodes && Whole(digest) in d.nodes[n].receipt.restorable
      ensures exists id :: (id, n) in made + also && (id, n, digest) in written + more
    {
      var id :| (id, n) in made && (id, n, digest) in written;
      assert (id, n) in made + also && (id, n, digest) in written + more;
    }
  }

  lemma MakeRecorded(s: State, n: nat, made: set<(Id, nat)>, written: set<(Id, nat, string)>)
    requires s.disk.root.Sound() && Recorded(s.disk, made, written) && BuildEnabled(s, Make(n))
    ensures Recorded(BuildApply(s, Make(n)).disk, made + {(s.op.start.id, n)}, written)
  {
    var d, after, also := s.disk, BuildApply(s, Make(n)).disk, {(s.op.start.id, n)};
    assert forall v, id :: v in after.root.restorable && id in v.sessions ==>
      (id, v.sessions[id]) in made || (id == s.op.start.id && v.sessions[id] == n);
    MoreWritten(d, made, written, also, {});
    assert written + {} == written;
    assert ReceiptsFollow(d, after);
    FollowersWritten(d, after, made + also, written);
  }

  lemma PutWritten(d: Disk, made: set<(Id, nat)>, written: set<(Id, nat, string)>, id: Id, n: nat, digest: string)
    requires ReceiptsWritten(d, made, written) && n in d.nodes && (id, n) in made && (id, n, digest) in written
    ensures ReceiptsWritten(PutReceipt(d, n, Whole(digest)), made, written)
  {}

  lemma WriteRecorded(d: Disk, made: set<(Id, nat)>, written: set<(Id, nat, string)>, id: Id, n: nat, digest: string)
    requires Recorded(d, made, written) && n in d.nodes && (id, n) in made
    ensures Recorded(PutReceipt(d, n, Whole(digest)), made, written + {(id, n, digest)})
  {
    OldVersions(d, PutReceipt(d, n, Whole(digest)));
    FollowersMade(d, PutReceipt(d, n, Whole(digest)), made);
    MoreWritten(d, made, written, {}, {(id, n, digest)});
    assert made + {} == made;
    PutWritten(d, made, written + {(id, n, digest)}, id, n, digest);
  }

  lemma WrittenRecorded(s: State, made: set<(Id, nat)>, written: set<(Id, nat, string)>)
    requires s.disk.root.Sound() && Placed(s) && Recorded(s.disk, made, written) && BuildEnabled(s, WriteReceipt)
    ensures Recorded(BuildApply(s, WriteReceipt).disk, made, written + {(s.op.start.id, s.op.node, s.op.start.digest)})
  {
    assert s.disk.root.live in s.disk.root.restorable && (s.op.start.id, s.op.node) in made;
    WriteRecorded(s.disk, made, written, s.op.start.id, s.op.node, s.op.start.digest);
  }

  lemma OtherRecorded(s: State, t: Step, made: set<(Id, nat)>, written: set<(Id, nat, string)>)
    requires s.disk.root.Sound() && NodesSound(s.disk) && Recorded(s.disk, made, written) && Enabled(s, t)
    requires !(t.Starting? && t.build.Make?) && t != Starting(WriteReceipt)
    ensures Recorded(Apply(s, t).disk, made, written)
  {
    StepFollows(s, t);
    FollowersMade(s.disk, Apply(s, t).disk, made);
    FollowersWritten(s.disk, Apply(s, t).disk, made, written);
  }

  lemma RecordedKept(s: State, t: Step, made: set<(Id, nat)>, written: set<(Id, nat, string)>)
    requires s.disk.root.Sound() && NodesSound(s.disk) && Placed(s) && Recorded(s.disk, made, written) && Enabled(s, t)
    ensures Recorded(Apply(s, t).disk, made + MadeBy(s, t), written + WrittenBy(s, t))
  {
    assert made + {} == made && written + {} == written;
    if t.Starting? && t.build.Make? {
      MakeRecorded(s, t.build.node, made, written);
    } else if t == Starting(WriteReceipt) {
      WrittenRecorded(s, made, written);
    } else {
      OtherRecorded(s, t, made, written);
    }
  }

  lemma {:induction false} RecordedAlways(s: State, run: seq<Step>, made: set<(Id, nat)>, written: set<(Id, nat, string)>)
    requires Safe(s) && Recorded(s.disk, made, written) && Possible(s, run)
    ensures Recorded(After(s, run).disk, made + MadeIn(s, run), written + WrittenIn(s, run))
    decreases |run|
  {
    if run == [] {
      assert made + {} == made && written + {} == written;
    } else {
      var t, next := run[0], Apply(s, run[0]);
      RecordedKept(s, t, made, written);
      SafeKept(s, t);
      RecordedAlways(next, run[1..], made + MadeBy(s, t), written + WrittenBy(s, t));
      assert made + MadeBy(s, t) + MadeIn(next, run[1..]) == made + MadeIn(s, run);
      assert written + WrittenBy(s, t) + WrittenIn(next, run[1..]) == written + WrittenIn(s, run);
    }
  }

  /** Whatever directory an id names with a whole receipt in it, the run wrote that receipt there for that id. */
  lemma ReceiptWasWritten(run: seq<Step>, id: Id, digest: string)
    requires Possible(START, run)
    requires var d := After(START, run).disk; Exists(d, id) && NodeOf(d, id).receipt.live == Whole(digest)
    ensures (id, After(START, run).disk.root.live.sessions[id], digest) in WrittenIn(START, run)
  {
    var d, n := After(START, run).disk, After(START, run).disk.root.live.sessions[id];
    StartsSafe();
    SafeAlways(START, run);
    RecordedAlways(START, run, {}, {});
    assert {} + MadeIn(START, run) == MadeIn(START, run) && {} + WrittenIn(START, run) == WrittenIn(START, run);
    assert NodeSound(d.nodes[n]);
    var other :| (other, n) in MadeIn(START, run) && (other, n, digest) in WrittenIn(START, run);
    assert (id, n) in MadeIn(START, run);
  }

  // ---- Sessions started without a receipt --------------------------------------------------

  ghost predicate NoReceipt(d: Disk, n: nat) {
    n in d.nodes && forall e :: e in d.nodes[n].entries.restorable ==> !e.receipt
  }

  /** Who starts without replay has no receipt, in whatever version of its directory. */
  ghost predicate Bare(s: State) {
    && (forall sp :: sp in s.spawns && !sp.replay ==> NoReceipt(s.disk, sp.node))
    && ((s.op.Building? || s.op.Publishing?) && !s.op.start.replay ==> NoReceipt(s.disk, s.op.node))
    && (s.op.Building? && s.op.start.replay ==> forall sp :: sp in s.spawns && !sp.replay ==> sp.node != s.op.node)
  }

  /** Directories without a receipt stay so. */
  ghost predicate StayBare(d: Disk, after: Disk) { forall n :: NoReceipt(d, n) ==> NoReceipt(after, n) }

  lemma EntriesStayBare(d: Disk, n: nat, e: Entries)
    requires n in d.nodes && (e.receipt ==> d.nodes[n].entries.live in d.nodes[n].entries.restorable && d.nodes[n].entries.live.receipt)
    ensures StayBare(d, PutEntries(d, n, e))
  {}

  lemma BareKeeping(s: State, l: KeepStep)
    requires NodesSound(s.disk) && Bare(s) && KeepEnabled(s, l)
    ensures Bare(KeepApply(s, l))
  {
    if l.Unlink? {
      assert NodeSound(s.disk.nodes[s.op.node]);
      EntriesStayBare(s.disk, s.op.node, l.left);
    }
  }

  lemma BareBuilding(s: State, l: BuildStep)
    requires NodesSound(s.disk) && Bare(s) && BuildEnabled(s, l)
    ensures Bare(BuildApply(s, l))
  {
    if l.CreateLog? {
      assert NodeSound(s.disk.nodes[s.op.node]);
      EntriesStayBare(s.disk, s.op.node, s.disk.nodes[s.op.node].entries.live.(log := true));
    }
  }

  lemma BareStatus(d: Disk, n: nat, st: Status)
    requires NodesSound(d) && n in d.nodes
    ensures StayBare(d, PutStatus(d, n, st))
  {
    assert NodeSound(d.nodes[n]);
    EntriesStayBare(d, n, d.nodes[n].entries.live.(status := Some(st)));
  }

  lemma BareLaunching(s: State, l: LaunchStep)
    requires NodesSound(s.disk) && Placed(s) && Bare(s) && LaunchEnabled(s, l)
    ensures Bare(LaunchApply(s, l))
  {
    assert NodeSound(s.disk.nodes[s.op.node]);
    if l.Rename? { BareStatus(s.disk, s.op.node, Status(Running, Starter)); }
    if l.RenameFailure? { BareStatus(s.disk, s.op.node, Status(Interrupted, Starter)); }
  }

  lemma BareOutside(s: State, t: Step)
    requires NodesSound(s.disk) && Bare(s) && Enabled(s, t) && (t.Reading? || t.Working?)
    ensures Bare(Apply(s, t))
  {
    var live := s.disk.root.live.sessions;
    if t.Reading? && t.read.Mark? { BareStatus(s.disk, live[s.readers[t.read.reader].id], Status(Interrupted, Reader)); }
    if t.Working? && t.work.Publish? { BareStatus(s.disk, live[s.workers[t.work.worker].id], Status(t.work.state, Supervisor)); }
  }

  lemma BareCrashing(s: State, image: Disk)
    requires Bare(s) && CrashImage(s.disk, image)
    ensures Bare(CrashApply(s, image))
  {
    forall n | NoReceipt(s.disk, n) ensures NoReceipt(image, n) { assert NodeRestoredTo(s.disk.nodes[n], image.nodes[n]); }
  }

  lemma BareKept(s: State, t: Step)
    requires Safe(s) && Bare(s) && Enabled(s, t)
    ensures Bare(Apply(s, t))
  {
    match t
    case Keeping(l) => BareKeeping(s, l);
    case Starting(l) => BareBuilding(s, l);
    case Launching(l) => BareLaunching(s, l);
    case Crashing(image) => BareCrashing(s, image);
    case _ => BareOutside(s, t);
  }

  lemma {:induction false} BareAlways(s: State, run: seq<Step>)
    requires Safe(s) && Bare(s) && Possible(s, run)
    ensures Bare(After(s, run))
    decreases |run|
  {
    if run != [] {
      SafeKept(s, run[0]);
      BareKept(s, run[0]);
      BareAlways(Apply(s, run[0]), run[1..]);
    }
  }

  // ---- The answers -------------------------------------------------------------------------

  /** A replay of an id under which a session runs or ran without replay is a conflict, whatever it asks for. */
  lemma LegacyIsConflict(run: seq<Step>, sp: Spawn, r: Request)
    requires Possible(START, run) && sp in After(START, run).spawns && !sp.replay
    requires r.replay && r.id == sp.id && Names(After(START, run).disk, r.id, sp.node)
    ensures AnswerTo(After(START, run), r) == Conflict
  {
    StartsSafe();
    SafeAlways(START, run);
    BareAlways(START, run);
    assert NodeSound(After(START, run).disk.nodes[sp.node]);
  }

  ghost predicate HasReceipt(d: Disk, id: Id, digest: string) {
    Exists(d, id) && NodeOf(d, id).entries.live.receipt && NodeOf(d, id).receipt.live == Whole(digest)
  }

  ghost predicate Unused(d: Disk, r: Request) {
    r.id !in d.root.live.sessions && (r.replay ==> r.id !in Tombstones(d) && |Tombstones(d)| + |Receipts(d)| < MAX_REPLAY_RECEIPTS)
  }

  /** The cause of every answer, in every reachable state. */
  lemma StartAnswered(run: seq<Step>, r: Request)
    requires Possible(START, run)
    ensures var s := After(START, run); var d := s.disk; var sessions := d.root.live.sessions;
            match AnswerTo(s, r)
            case Conflict => r.replay && (r.id in Tombstones(d) || (r.id in sessions && !HasReceipt(d, r.id, r.digest)))
            case Existing(n) =>
              && r.replay && r.id !in Tombstones(d) && Names(d, r.id, n) && HasReceipt(d, r.id, r.digest)
              && (r.id, n, r.digest) in WrittenIn(START, run)
            case Exhausted =>
              && r.replay && r.id !in Tombstones(d) && r.id !in sessions
              && |Tombstones(d)| + |Receipts(d)| >= MAX_REPLAY_RECEIPTS
            case TooManyRunning => |s.active| == MAX_RUNNING && (r.replay ==> Unused(d, r))
            case RetentionLimit => |sessions| == MAX_SESSIONS && |s.active| < MAX_RUNNING && (r.replay ==> Unused(d, r))
            case IdExists => !r.replay && r.id in sessions && |s.active| < MAX_RUNNING && |sessions| < MAX_SESSIONS
            case Create => Unused(d, r) && |s.active| < MAX_RUNNING && |sessions| < MAX_SESSIONS
  {
    var s := After(START, run);
    StartsSafe();
    SafeAlways(START, run);
    LimitsHold(run);
    if AnswerTo(s, r).Existing? { ReceiptWasWritten(run, r.id, r.digest); }
  }
}
