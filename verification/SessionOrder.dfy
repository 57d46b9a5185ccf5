/** What the session store does to one session's directory, as the readers of its log rely on it: whoever writes
    the outcome, no worker appends after it. */
module SessionOrder {
  import opened SessionDisk
  import opened SessionStore
  import opened SessionSafety
  import opened SessionSupervision
  import SessionWitness
  import Cursor = SessionCursor
  import Log = SessionLog
  import Worker = SessionWorker

  // ---- The story of a directory ------------------------------------------------------------

  /** The directory shows the session over, whoever says so. */
  predicate Ended(d: Disk, n: nat) {
    && n in d.nodes && d.nodes[n].entries.live.status.Some?
    && !d.nodes[n].entries.live.status.value.state.Running?
  }

  /** A worker of session `id` appends to its log in directory `n`. */
  predicate Appends(s: State, t: Step, id: Id, n: nat) {
    && t.Working? && t.work.Append?
    && t.work.worker in s.workers && s.workers[t.work.worker].id == id && s.workers[t.work.worker].node == n
  }

  ghost function EndOf(d: Disk, n: nat): seq<Cursor.Act> { if Ended(d, n) then [Cursor.Publish] else [] }

  /** What a step, which moves so many bytes, does there, and whether the directory then shows the end. */
  ghost function ActOf(s: State, t: Step, bytes: nat, id: Id, n: nat): seq<Cursor.Act>
    requires Enabled(s, t)
  {
    (if Appends(s, t, id, n) then [Cursor.Append(bytes)] else []) + EndOf(Apply(s, t).disk, n)
  }

  ghost function ActsOf(s: State, run: seq<Step>, sizes: seq<nat>, id: Id, n: nat): seq<Cursor.Act>
    requires Possible(s, run) && |run| == |sizes|
    decreases |run|
  {
    if run == [] then []
    else ActOf(s, run[0], sizes[0], id, n) + ActsOf(Apply(s, run[0]), run[1..], sizes[1..], id, n)
  }

  /** The log has so many bytes already, and then the steps are taken. */
  ghost function Story(s: State, already: nat, run: seq<Step>, sizes: seq<nat>, id: Id, n: nat): seq<Cursor.Act>
    requires Possible(s, run) && |run| == |sizes|
  {
    [Cursor.Append(already)] + EndOf(s.disk, n) + ActsOf(s, run, sizes, id, n)
  }

  ghost predicate NoCrash(run: seq<Step>) { forall i :: 0 <= i < |run| ==> !run[i].Crashing? }

  lemma NoCrashRest(run: seq<Step>)
    requires NoCrash(run) && run != []
    ensures !run[0].Crashing? && NoCrash(run[1..])
  {
    assert forall i :: 0 <= i < |run[1..]| ==> run[1..][i] == run[i + 1];
  }

  // ---- Nobody is left to append ------------------------------------------------------------

  /** The start that holds the lock may yet launch a worker of `id` in directory `n`. */
  predicate MayLaunch(op: Op, id: Id, n: nat) {
    (op.Building? || (op.Publishing? && !op.publish.Failing?)) && op.start.id == id && op.node == n
  }

  /** Every worker of `id` in directory `n` is closing, and no other will be launched. */
  ghost predicate Quiet(s: State, id: Id, n: nat) {
    && n in s.disk.nodes && !MayLaunch(s.op, id, n)
    && forall q :: q in s.workers && s.workers[q].id == id && s.workers[q].node == n ==> s.workers[q].closing
  }

  lemma QuietKeeping(s: State, l: KeepStep, id: Id, n: nat)
    requires Quiet(s, id, n) && KeepEnabled(s, l)
    ensures Quiet(KeepApply(s, l), id, n)
  {}

  lemma QuietBuilding(s: State, l: BuildStep, id: Id, n: nat)
    requires Quiet(s, id, n) && BuildEnabled(s, l)
    ensures Quiet(BuildApply(s, l), id, n)
  {}

  lemma QuietLaunching(s: State, l: LaunchStep, id: Id, n: nat)
    requires Quiet(s, id, n) && LaunchEnabled(s, l)
    ensures Quiet(LaunchApply(s, l), id, n)
  {}

  lemma QuietOutside(s: State, t: Step, id: Id, n: nat)
    requires Quiet(s, id, n) && Enabled(s, t) && (t.Reading? || t.Working?)
    ensures Quiet(Apply(s, t), id, n) && !Appends(s, t, id, n)
  {}

  lemma QuietKept(s: State, t: Step, id: Id, n: nat)
    requires Quiet(s, id, n) && Enabled(s, t) && !t.Crashing?
    ensures Quiet(Apply(s, t), id, n) && !Appends(s, t, id, n)
  {
    match t
    case Keeping(l) => QuietKeeping(s, l, id, n);
    case Starting(l) => QuietBuilding(s, l, id, n);
    case Launching(l) => QuietLaunching(s, l, id, n);
    case _ => QuietOutside(s, t, id, n);
  }

  /** Some step of the run appends. */
  ghost predicate SomeAppends(s: State, run: seq<Step>, id: Id, n: nat)
    requires Possible(s, run)
    decreases |run|
  {
    run != [] && (Appends(s, run[0], id, n) || SomeAppends(Apply(s, run[0]), run[1..], id, n))
  }

  lemma {:induction false} QuietIsSilent(s: State, run: seq<Step>, id: Id, n: nat)
    requires Quiet(s, id, n) && Possible(s, run) && NoCrash(run)
    ensures !SomeAppends(s, run, id, n)
    decreases |run|
  {
    if run != [] {
      NoCrashRest(run);
      QuietKept(s, run[0], id, n);
      QuietIsSilent(Apply(s, run[0]), run[1..], id, n);
    }
  }

  // ---- A directory that shows the end is quiet ---------------------------------------------

  /** Until a start publishes its status there is none, unless a reader of its id is stale. */
  ghost predicate Blank(s: State) {
    Starts(s.op) && s.op.start.id !in s.stale ==>
      s.op.node in s.disk.nodes && s.disk.nodes[s.op.node].entries.live.status.None?
  }

  predicate Starts(op: Op) { op.Building? || (op.Publishing? && op.publish.Registered?) }

  /** Only a replayed start syncs the root. */
  predicate RootedReplays(op: Op) { op.Publishing? && (op.publish.Rooted? || op.publish.Failing?) ==> op.start.replay }

  ghost predicate Orderly(s: State) { Supervised(s) && Blank(s) && RootedReplays(s.op) }

  lemma BlankKeeping(s: State, l: KeepStep)
    requires Blank(s) && KeepEnabled(s, l)
    ensures Blank(KeepApply(s, l))
  {}

  lemma BlankBuilding(s: State, l: BuildStep)
    requires Blank(s) && BuildEnabled(s, l)
    ensures Blank(BuildApply(s, l))
  {}

  lemma BlankLaunching(s: State, l: LaunchStep)
    requires Blank(s) && LaunchEnabled(s, l)
    ensures Blank(LaunchApply(s, l))
  {}

  lemma BlankReading(s: State, f: ReadStep)
    requires OneName(s.disk.root.live.sessions) && Placed(s) && Clear(s) && Blank(s) && ReadEnabled(s, f)
    ensures Blank(ReadApply(s, f))
  {}

  lemma BlankWorking(s: State, f: WorkStep)
    requires OneName(s.disk.root.live.sessions) && Placed(s) && Apart(s) && WorkersCalm(s) && Blank(s) && WorkEnabled(s, f)
    ensures Blank(WorkApply(s, f))
  {}

  lemma BlankKept(s: State, t: Step)
    requires Supervised(s) && Blank(s) && Enabled(s, t)
    ensures Blank(Apply(s, t))
  {
    match t
    case Keeping(l) => BlankKeeping(s, l);
    case Starting(l) => BlankBuilding(s, l);
    case Launching(l) => BlankLaunching(s, l);
    case Reading(f) => BlankReading(s, f);
    case Working(f) => BlankWorking(s, f);
    case Crashing(_) =>
  }

  lemma ReplaysKept(s: State, t: Step)
    requires RootedReplays(s.op) && Enabled(s, t)
    ensures RootedReplays(Apply(s, t).op)
  {}

  lemma OrderlyKept(s: State, t: Step)
    requires Orderly(s) && Enabled(s, t)
    ensures Orderly(Apply(s, t))
  {
    SupervisedKept(s, t);
    BlankKept(s, t);
    ReplaysKept(s, t);
  }

  lemma {:induction false} OrderlyAlways(s: State, run: seq<Step>)
    requires Orderly(s) && Possible(s, run)
    ensures Orderly(After(s, run))
    decreases |run|
  {
    if run != [] {
      OrderlyKept(s, run[0]);
      OrderlyAlways(Apply(s, run[0]), run[1..]);
    }
  }

  lemma ReachableOrderly(s: State)
    requires Reachable(s)
    ensures Orderly(s)
  {
    var run :| Possible(START, run) && After(START, run) == s;
    OrderlyAlways(START, run);
  }

  /** Whoever wrote it: without a stale reader of the id, a directory that shows the end is quiet. */
  lemma EndedIsQuiet(s: State, id: Id, n: nat)
    requires Supervised(s) && Blank(s) && Ended(s.disk, n) && id !in s.stale
    ensures Quiet(s, id, n)
  {}

  /** So the end is final: up to the next crash nobody appends any more. */
  lemma EndIsFinal(s: State, run: seq<Step>, id: Id, n: nat)
    requires Reachable(s) && Ended(s.disk, n) && id !in s.stale && Possible(s, run) && NoCrash(run)
    ensures !SomeAppends(s, run, id, n)
  {
    ReachableOrderly(s);
    EndedIsQuiet(s, id, n);
    QuietIsSilent(s, run, id, n);
  }

  // ---- Exactly when nobody appends any more ------------------------------------------------

  /** The next step of a start on its way to a launch. */
  function Ahead(op: Op): Step
    requires op.Building? || op.Publishing?
  {
    if op.Building? then
      match op.build
      case Made => Starting(CreateLog)
      case Logged => Starting(if op.start.replay then CreateReceipt else SpawnEarly)
      case ReceiptCreated => Starting(WriteReceipt)
      case ReceiptWritten => Starting(SealReceipt)
      case _ => Starting(Register)
    else
      match op.publish
      case Registered => Launching(Rename)
      case Renamed => Launching(SyncDirectory)
      case Accepted => Launching(if op.start.replay then SyncStore else Launch)
      case _ => Launching(Launch)
  }

  function Distance(op: Op): nat {
    if op.Building? then
      match op.build
      case Made => 9
      case Logged => 8
      case ReceiptCreated => 7
      case ReceiptWritten => 6
      case _ => 5
    else if op.Publishing? then
      match op.publish
      case Registered => 4
      case Renamed => 3
      case Accepted => 2
      case _ => 1
    else 0
  }

  /** A worker that is not closing appends to its directory. */
  ghost predicate AtWork(s: State, id: Id, n: nat) {
    exists q :: q in s.workers && s.workers[q].id == id && s.workers[q].node == n && !s.workers[q].closing
  }

  lemma AheadGoes(s: State, id: Id, n: nat)
    requires MayLaunch(s.op, id, n) && n in s.disk.nodes && RootedReplays(s.op)
    ensures Enabled(s, Ahead(s.op)) && !Ahead(s.op).Crashing?
    ensures var after := Apply(s, Ahead(s.op));
            && n in after.disk.nodes && RootedReplays(after.op)
            && (AtWork(after, id, n) || (MayLaunch(after.op, id, n) && Distance(after.op) < Distance(s.op)))
  {
    var after := Apply(s, Ahead(s.op));
    if Ahead(s.op) == Launching(Launch) {
      assert s.op.sequence in after.workers && !after.workers[s.op.sequence].closing;
    }
  }

  lemma Prefixed(s: State, t: Step, run: seq<Step>, id: Id, n: nat)
    requires Enabled(s, t) && !t.Crashing? && Possible(Apply(s, t), run) && NoCrash(run)
    requires Appends(s, t, id, n) || SomeAppends(Apply(s, t), run, id, n)
    ensures Possible(s, [t] + run) && NoCrash([t] + run) && SomeAppends(s, [t] + run, id, n)
  {
    assert ([t] + run)[1..] == run;
  }

  /** Whoever may append does so in some run. */
  lemma {:induction false} LoudAppends(s: State, id: Id, n: nat) returns (run: seq<Step>)
    requires n in s.disk.nodes && RootedReplays(s.op) && !Quiet(s, id, n)
    ensures Possible(s, run) && NoCrash(run) && SomeAppends(s, run, id, n)
    decreases if AtWork(s, id, n) then 0 else Distance(s.op)
  {
    if AtWork(s, id, n) {
      var q :| q in s.workers && s.workers[q].id == id && s.workers[q].node == n && !s.workers[q].closing;
      run := [Working(Append(q))];
      assert Possible(Apply(s, run[0]), []) && run == [run[0]] + [];
      Prefixed(s, run[0], [], id, n);
    } else {
      AheadGoes(s, id, n);
      run := LoudAppends(Apply(s, Ahead(s.op)), id, n);
      Prefixed(s, Ahead(s.op), run, id, n);
      run := [Ahead(s.op)] + run;
    }
  }

  /** Up to the next crash nobody appends to a session's log if and only if every worker of it is closing and no
      start can launch another. */
  lemma SilentExactly(s: State, id: Id, n: nat)
    requires Reachable(s) && n in s.disk.nodes
    ensures Quiet(s, id, n) <==> forall run :: Possible(s, run) && NoCrash(run) ==> !SomeAppends(s, run, id, n)
  {
    if Quiet(s, id, n) {
      forall run | Possible(s, run) && NoCrash(run) ensures !SomeAppends(s, run, id, n) { QuietIsSilent(s, run, id, n); }
    } else {
      ReachableOrderly(s);
      var run := LoudAppends(s, id, n);
    }
  }

  // ---- Lawful stories ----------------------------------------------------------------------

  /** Nothing but the end comes after the end. */
  ghost predicate EndsLast(acts: seq<Cursor.Act>) {
    forall i, j :: 0 <= i < j < |acts| && acts[i].Publish? ==> acts[j].Publish?
  }

  ghost predicate OnlyEnds(acts: seq<Cursor.Act>) { forall i :: 0 <= i < |acts| ==> acts[i].Publish? }

  lemma {:induction false} SilentActs(s: State, run: seq<Step>, sizes: seq<nat>, id: Id, n: nat)
    requires Possible(s, run) && |run| == |sizes| && !SomeAppends(s, run, id, n)
    ensures OnlyEnds(ActsOf(s, run, sizes, id, n))
    decreases |run|
  {
    if run != [] { SilentActs(Apply(s, run[0]), run[1..], sizes[1..], id, n); }
  }

  lemma {:induction false} StaleStays(s: State, run: seq<Step>, id: Id)
    requires Possible(s, run) && NoCrash(run) && id in s.stale
    ensures id in After(s, run).stale
    decreases |run|
  {
    if run != [] {
      NoCrashRest(run);
      StaleStays(Apply(s, run[0]), run[1..], id);
    }
  }

  lemma EndsAfterAppend(acts: seq<Cursor.Act>, bytes: nat)
    requires EndsLast(acts)
    ensures EndsLast([Cursor.Append(bytes)] + acts)
  {
    var more := [Cursor.Append(bytes)] + acts;
    assert forall i :: 0 < i < |more| ==> more[i] == acts[i - 1];
  }

  lemma ActsFollow(s: State, run: seq<Step>, sizes: seq<nat>, id: Id, n: nat)
    requires Possible(s, run) && |run| == |sizes| && run != [] && !Ended(s.disk, n)
    ensures var after := Apply(s, run[0]);
            var later := EndOf(after.disk, n) + ActsOf(after, run[1..], sizes[1..], id, n);
            EndOf(s.disk, n) + ActsOf(s, run, sizes, id, n) ==
              if Appends(s, run[0], id, n) then [Cursor.Append(sizes[0])] + later else later
  {}

  lemma {:induction false} EndComesLast(s: State, run: seq<Step>, sizes: seq<nat>, id: Id, n: nat)
    requires Orderly(s) && Possible(s, run) && NoCrash(run) && |run| == |sizes| && id !in After(s, run).stale
    ensures EndsLast(EndOf(s.disk, n) + ActsOf(s, run, sizes, id, n))
    decreases |run|
  {
    if Ended(s.disk, n) {
      if id in s.stale { StaleStays(s, run, id); }
      EndedIsQuiet(s, id, n);
      QuietIsSilent(s, run, id, n);
      SilentActs(s, run, sizes, id, n);
    } else if run != [] {
      NoCrashRest(run);
      OrderlyKept(s, run[0]);
      EndComesLast(Apply(s, run[0]), run[1..], sizes[1..], id, n);
      ActsFollow(s, run, sizes, id, n);
      EndsAfterAppend(EndOf(Apply(s, run[0]).disk, n) + ActsOf(Apply(s, run[0]), run[1..], sizes[1..], id, n), sizes[0]);
    }
  }

  lemma {:induction false} NothingMore(acts: seq<Cursor.Act>, i: nat, j: nat)
    requires i <= j <= |acts| && forall k :: i <= k < |acts| ==> acts[k].Publish?
    ensures Cursor.Visible(acts[..i]) == Cursor.Visible(acts[..j])
    decreases j
  {
    if i < j {
      NothingMore(acts, i, j - 1);
      assert acts[..j][..j - 1] == acts[..j - 1];
    }
  }

  lemma EndsLastIsLawful(acts: seq<Cursor.Act>)
    requires EndsLast(acts)
    ensures Cursor.Lawful(acts, Cursor.Visible(acts))
  {
    assert acts[..|acts|] == acts;
    forall i | 0 <= i < |acts| && acts[i].Publish? ensures Cursor.Visible(acts[..i]) == Cursor.Visible(acts) {
      NothingMore(acts, i, |acts|);
    }
  }

  lemma Associates<T>(a: seq<T>, b: seq<T>, c: seq<T>)
    ensures a + b + c == a + (b + c)
  {}

  /** From any reachable state up to a crash, with appends of whatever sizes and the end written by whomever, the
      story of a session's directory is lawful to those that read its log, unless a reader of its id is stale. */
  lemma SessionIsLawful(s: State, already: nat, run: seq<Step>, sizes: seq<nat>, id: Id, n: nat)
    requires Reachable(s) && Possible(s, run) && NoCrash(run) && |run| == |sizes| && id !in After(s, run).stale
    ensures var story := Story(s, already, run, sizes, id, n); Cursor.Lawful(story, Cursor.Visible(story))
  {
    ReachableOrderly(s);
    EndComesLast(s, run, sizes, id, n);
    EndsAfterAppend(EndOf(s.disk, n) + ActsOf(s, run, sizes, id, n), already);
    Associates([Cursor.Append(already)], EndOf(s.disk, n), ActsOf(s, run, sizes, id, n));
    EndsLastIsLawful(Story(s, already, run, sizes, id, n));
  }

  /** So the client's loop over what a run of the worker left in the file is complete. */
  lemma SessionIsSetting(codec: Log.Codec, inputs: seq<Worker.Input>, file: string,
                         s: State, already: nat, run: seq<Step>, sizes: seq<nat>, id: Id, n: nat)
    requires Log.Faithful(codec) && Worker.Bounded(inputs) && file <= Log.Written(codec, Worker.Logged(Worker.FRESH, inputs, []))
    requires Reachable(s) && Possible(s, run) && NoCrash(run) && |run| == |sizes| && id !in After(s, run).stale
    requires |file| == Cursor.Visible(Story(s, already, run, sizes, id, n))
    ensures var story := Story(s, already, run, sizes, id, n);
            Cursor.Setting(codec, Worker.Logged(Worker.FRESH, inputs, []), |file|, story) && Cursor.Lawful(story, |file|)
  {
    SessionIsLawful(s, already, run, sizes, id, n);
    Cursor.RunIsReadable(codec, inputs, file, Story(s, already, run, sizes, id, n));
  }

  /** Whoever finds the directory showing the end after some steps has the end behind them in the story. */
  lemma {:induction false} EndIsTold(s: State, run: seq<Step>, sizes: seq<nat>, i: nat, id: Id, n: nat)
    requires Possible(s, run) && |run| == |sizes| && i <= |run|
    ensures Possible(s, run[..i]) && ActsOf(s, run[..i], sizes[..i], id, n) <= ActsOf(s, run, sizes, id, n)
    ensures Ended(After(s, run[..i]).disk, n) ==> Cursor.Publish in EndOf(s.disk, n) + ActsOf(s, run[..i], sizes[..i], id, n)
    decreases |run|
  {
    if i > 0 {
      EndIsTold(Apply(s, run[0]), run[1..], sizes[1..], i - 1, id, n);
      assert run[..i][1..] == run[1..][..i - 1] && sizes[..i][1..] == sizes[1..][..i - 1];
    }
  }

  // ---- The proviso is needed ---------------------------------------------------------------

  lemma {:induction false} VisibleNext(acts: seq<Cursor.Act>, act: Cursor.Act)
    ensures Cursor.Visible(acts + [act]) == Cursor.Visible(acts) + if act.Append? then act.bytes else 0
  {
    assert (acts + [act])[..|acts|] == acts;
  }

  lemma AppendAfterEnd(already: nat)
    ensures var story := [Cursor.Append(already), Cursor.Publish, Cursor.Append(1), Cursor.Publish];
            !Cursor.Lawful(story, Cursor.Visible(story))
  {
    var one := [Cursor.Append(already)];
    VisibleNext([], one[0]);
    VisibleNext(one, Cursor.Publish);
    VisibleNext(one + [Cursor.Publish], Cursor.Append(1));
    VisibleNext(one + [Cursor.Publish] + [Cursor.Append(1)], Cursor.Publish);
    var story := [Cursor.Append(already), Cursor.Publish, Cursor.Append(1), Cursor.Publish];
    assert [] + [one[0]] == one;
    assert story == one + [Cursor.Publish] + [Cursor.Append(1)] + [Cursor.Publish];
    assert story[1].Publish? && story[..1] == one;
  }

  lemma OneAppend(s: State, q: nat)
    requires Enabled(s, Working(Append(q))) && Ended(s.disk, s.workers[q].node)
    ensures var run, w := [Working(Append(q))], s.workers[q];
            Possible(s, run) && ActsOf(s, run, [1], w.id, w.node) == [Cursor.Append(1), Cursor.Publish]
  {
    var run, w, after := [Working(Append(q))], s.workers[q], Apply(s, Working(Append(q)));
    assert run[1..] == [] && Possible(after, run[1..]);
    assert ActsOf(after, run[1..], [1][1..], w.id, w.node) == [];
  }

  /** A stale reader's report in a directory whose worker goes on appending: the client that polls then stops early. */
  lemma StaleEndsEarly(already: nat) returns (s: State, run: seq<Step>, sizes: seq<nat>, id: Id, n: nat)
    ensures Reachable(s) && Possible(s, run) && NoCrash(run) && |run| == |sizes| && Ended(s.disk, n)
    ensures var story := Story(s, already, run, sizes, id, n); !Cursor.Lawful(story, Cursor.Visible(story))
  {
    var q;
    s, q := SessionWitness.StaleReport();
    id, n := s.workers[q].id, s.workers[q].node;
    run, sizes := [Working(Append(q))], [1];
    OneAppend(s, q);
    AppendAfterEnd(already);
    assert Story(s, already, run, sizes, id, n)
        == [Cursor.Append(already), Cursor.Publish, Cursor.Append(1), Cursor.Publish];
  }
}
