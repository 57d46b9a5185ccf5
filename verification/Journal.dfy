/** The caller's journal of submitted checks: one row for each stage, written in transactions. */
module Journal {
  import opened Common

  type Key = string
  type Bytes = seq<octet>

  datatype Phase = Prepared | Requested | Identified | Collected

  function Rank(p: Phase): nat {
    match p
    case Prepared => 0
    case Requested => 1
    case Identified => 2
    case Collected => 3
  }

  /** What a stage submits. `digest` is the specification digest named in the submission. */
  datatype Frozen = Frozen(submission: Bytes, digest: string, source: Bytes, acceptance: Bytes, retention: string)

  datatype Row = Row(
    frozen: Frozen, phase: Phase, jobId: Option<string>, sessionId: Option<string>, replayed: Option<bool>,
    evidence: Option<Bytes>)

  type Rows = map<Key, Row>

  /** What the server says about an accepted submission. */
  datatype Receipt = Receipt(specificationDigest: string, id: string, sessionId: Option<string>, replayed: Option<bool>)

  const MAX_ROWS := 64
  const MAX_SUBMISSION := 64 * 1024
  const MAX_BUNDLE := 32 * 1024 * 1024
  const MAX_EVIDENCE := 256 * 1024

  datatype Refusal = Unacceptable | Conflict | Unavailable

  // ---- The transactions --------------------------------------------------------------------

  /** Bounded, and matching the digests the submission names (`matches`). */
  predicate Acceptable(frozen: Frozen, matches: bool) {
    matches && |frozen.submission| <= MAX_SUBMISSION && |frozen.source| <= MAX_BUNDLE && |frozen.acceptance| <= MAX_BUNDLE
  }

  function Prepare(rows: Rows, key: Key, frozen: Frozen, matches: bool): Result<Rows, Refusal> {
    if !Acceptable(frozen, matches) then Failure(Unacceptable)
    else if key in rows then Failure(Conflict)
    else if |rows.Keys| >= MAX_ROWS then Failure(Unavailable)
    else Success(rows[key := Row(frozen, Prepared, None, None, None, None)])
  }

  function Request(rows: Rows, key: Key): Rows {
    if key in rows && rows[key].phase == Prepared then rows[key := rows[key].(phase := Requested)] else rows
  }

  /** The receipt is for what the row froze and for the execution it already names, if any. */
  predicate Fits(row: Row, receipt: Receipt) {
    && receipt.specificationDigest == row.frozen.digest
    && (row.jobId.Some? ==> row.jobId.value == receipt.id)
    && (row.sessionId.Some? ==> row.sessionId == receipt.sessionId)
  }

  function Bind(rows: Rows, key: Key, receipt: Receipt): Result<Rows, Refusal> {
    if key !in rows then Failure(Unavailable)
    else if !Fits(rows[key], receipt) then Failure(Conflict)
    else
      var row := rows[key];
      Success(rows[key := row.(jobId := Some(receipt.id), sessionId := receipt.sessionId,
                               replayed := if row.replayed.Some? then row.replayed else receipt.replayed,
                               phase := if row.phase == Collected then Collected else Identified)])
  }

  function Collect(rows: Rows, key: Key, evidence: Bytes): Result<Rows, Refusal> {
    if |evidence| > MAX_EVIDENCE then Failure(Unavailable)
    else if key in rows then Success(rows[key := rows[key].(phase := Collected, evidence := Some(evidence))])
    else Success(rows)
  }

  // ---- What no transaction undoes ----------------------------------------------------------

  predicate Settled<T(==)>(before: Option<T>, after: Option<T>) { before.Some? ==> after == before }

  /** A row keeps what it froze and every identity it has learnt, and does not go back a phase. */
  predicate Later(before: Row, after: Row) {
    && after.frozen == before.frozen && Rank(before.phase) <= Rank(after.phase)
    && Settled(before.jobId, after.jobId) && Settled(before.sessionId, after.sessionId)
    && Settled(before.replayed, after.replayed)
  }

  ghost predicate Advances(before: Rows, after: Rows) {
    forall key :: key in before ==> key in after && Later(before[key], after[key])
  }

  lemma AdvancesOn(a: Rows, b: Rows, c: Rows)
    requires Advances(a, b) && Advances(b, c)
    ensures Advances(a, c)
  {
    forall key | key in a ensures key in c && Later(a[key], c[key]) { assert Later(a[key], b[key]) && Later(b[key], c[key]); }
  }

  /** The journal as an object: each method is one transaction, committed whole or not at all. */
  class Store {
    var rows: Rows

    constructor ()
      ensures rows == map[]
    {
      rows := map[];
    }

    ghost predicate Valid()
      reads this
    {
      |rows.Keys| <= MAX_ROWS
    }

    method PrepareStage(key: Key, frozen: Frozen, matches: bool) returns (r: Result<(), Refusal>)
      requires Valid()
      modifies this
      ensures Valid() && Advances(old(rows), rows)
      ensures r == Failure(Unacceptable) <==>
              !matches || |frozen.submission| > 65536 || |frozen.source| > 33554432 || |frozen.acceptance| > 33554432
      ensures r == Failure(Conflict) <==> r != Failure(Unacceptable) && key in old(rows)
      ensures r == Failure(Unavailable) <==> r != Failure(Unacceptable) && key !in old(rows) && |old(rows).Keys| == 64
      ensures r.Success? ==> rows == old(rows)[key := Row(frozen, Prepared, None, None, None, None)]
      ensures r.Success? ==> Prepare(old(rows), key, frozen, matches) == Success(rows)
      ensures r.Failure? ==> rows == old(rows) && Prepare(old(rows), key, frozen, matches) == Failure(r.error)
    {
      if !Acceptable(frozen, matches) { return Failure(Unacceptable); }
      if key in rows { return Failure(Conflict); }
      if |rows.Keys| >= MAX_ROWS { return Failure(Unavailable); }
      ghost var before := rows;
      rows := rows[key := Row(frozen, Prepared, None, None, None, None)];
      assert rows.Keys == before.Keys + {key};
      return Success(());
    }

    method MarkRequested(key: Key)
      requires Valid()
      modifies this
      ensures Valid() && rows == Request(old(rows), key) && Advances(old(rows), rows)
    {
      if key in rows && rows[key].phase == Prepared {
        ghost var before := rows;
        rows := rows[key := rows[key].(phase := Requested)];
        assert rows.Keys == before.Keys;
      }
    }

    method BindReceipt(key: Key, receipt: Receipt) returns (r: Result<(), Refusal>)
      requires Valid()
      modifies this
      ensures Valid() && Advances(old(rows), rows)
      ensures r.Success? ==> Bind(old(rows), key, receipt) == Success(rows)
      ensures r.Failure? ==> rows == old(rows) && Bind(old(rows), key, receipt) == Failure(r.error)
    {
      if key !in rows { return Failure(Unavailable); }
      var row := rows[key];
      if receipt.specificationDigest != row.frozen.digest { return Failure(Conflict); }
      if row.jobId.Some? && row.jobId.value != receipt.id { return Failure(Conflict); }
      if row.sessionId.Some? && row.sessionId != receipt.sessionId { return Failure(Conflict); }
      var replayed := if row.replayed.Some? then row.replayed else receipt.replayed;
      var phase := if row.phase == Collected then Collected else Identified;
      ghost var before := rows;
      rows := rows[key := row.(jobId := Some(receipt.id), sessionId := receipt.sessionId, replayed := replayed, phase := phase)];
      assert rows.Keys == before.Keys;
      return Success(());
    }

    method RetainEvidence(key: Key, evidence: Bytes) returns (r: Result<(), Refusal>)
      requires Valid()
      modifies this
      ensures Valid() && Advances(old(rows), rows)
      ensures r.Success? <==> |evidence| <= 262144
      ensures r.Success? ==> Collect(old(rows), key, evidence) == Success(rows)
      ensures r.Failure? ==> rows == old(rows) && Collect(old(rows), key, evidence) == Failure(r.error)
    {
      if |evidence| > MAX_EVIDENCE { return Failure(Unavailable); }
      if key in rows {
        ghost var before := rows;
        rows := rows[key := rows[key].(phase := Collected, evidence := Some(evidence))];
        assert rows.Keys == before.Keys;
      }
      return Success(());
    }
  }

  // ---- Callers -----------------------------------------------------------------------------

  /** How far one call of `run_checks` has come. */
  datatype Call = Idle | ToRequest(key: Key) | ToRead(key: Key) | ToSubmit(key: Key, frozen: Frozen)

  /** The journal, every caller, and every submission sent so far. */
  datatype State = State(rows: Rows, calls: map<nat, Call>, sent: seq<(Key, Frozen)>)

  const START := State(map[], map[], [])

  datatype Step =
    | Begin(caller: nat, key: Key, frozen: Frozen, matches: bool)  // prepare
    | Mark(caller: nat)                                            // requested
    | Read(caller: nat)                                            // get
    | Send(caller: nat)                                            // submit_job
    | Learn(key: Key, receipt: Receipt)                            // bind, by run_checks, inspect, collect or cancel
    | Retain(key: Key, evidence: Bytes)                            // collected
    | Die(caller: nat)                                             // the process ends at any point

  function CallOf(s: State, caller: nat): Call { if caller in s.calls then s.calls[caller] else Idle }

  predicate Possible(s: State, step: Step) {
    match step
    case Begin(c, _, _, _) => CallOf(s, c).Idle?
    case Mark(c) => CallOf(s, c).ToRequest?
    case Read(c) => CallOf(s, c).ToRead?
    case Send(c) => CallOf(s, c).ToSubmit?
    case _ => true
  }

  function Keep(rows: Rows, r: Result<Rows, Refusal>): Rows { if r.Success? then r.result else rows }

  function Next(s: State, step: Step): State
    requires Possible(s, step)
  {
    match step
    case Begin(c, key, frozen, matches) =>
      var r := Prepare(s.rows, key, frozen, matches);
      if r.Success? then s.(rows := r.result, calls := s.calls[c := ToRequest(key)]) else s
    case Mark(c) =>
      var key := CallOf(s, c).key;
      s.(rows := Request(s.rows, key), calls := s.calls[c := ToRead(key)])
    case Read(c) =>
      var key := CallOf(s, c).key;
      s.(calls := s.calls[c := if key in s.rows then ToSubmit(key, s.rows[key].frozen) else Idle])
    case Send(c) => s.(sent := s.sent + [(CallOf(s, c).key, CallOf(s, c).frozen)], calls := s.calls[c := Idle])
    case Learn(key, receipt) => s.(rows := Keep(s.rows, Bind(s.rows, key, receipt)))
    case Retain(key, evidence) => s.(rows := Keep(s.rows, Collect(s.rows, key, evidence)))
    case Die(c) => s.(calls := s.calls[c := Idle])
  }

  predicate Runs(s: State, steps: seq<Step>)
    decreases |steps|
  {
    steps == [] || (Possible(s, steps[0]) && Runs(Next(s, steps[0]), steps[1..]))
  }

  function Reached(s: State, steps: seq<Step>): State
    requires Runs(s, steps)
    decreases |steps|
  {
    if steps == [] then s else Reached(Next(s, steps[0]), steps[1..])
  }

  lemma StepAdvances(s: State, step: Step)
    requires Possible(s, step)
    ensures Advances(s.rows, Next(s, step).rows)
  {}

  /** Over every run, nothing a row holds is undone. */
  lemma {:induction false} RunAdvances(s: State, steps: seq<Step>)
    requires Runs(s, steps)
    ensures Advances(s.rows, Reached(s, steps).rows)
    decreases |steps|
  {
    if steps != [] {
      StepAdvances(s, steps[0]);
      RunAdvances(Next(s, steps[0]), steps[1..]);
      AdvancesOn(s.rows, Next(s, steps[0]).rows, Reached(s, steps).rows);
    }
  }

  lemma StepBounded(s: State, step: Step)
    requires Possible(s, step) && |s.rows.Keys| <= MAX_ROWS
    ensures |Next(s, step).rows.Keys| <= MAX_ROWS
  {
    if step.Begin? {
      assert s.rows[step.key := Row(step.frozen, Prepared, None, None, None, None)].Keys == s.rows.Keys + {step.key};
    } else {
      assert Next(s, step).rows.Keys == s.rows.Keys;
    }
  }

  /** Over every run the journal holds at most 64 rows. */
  lemma {:induction false} RunBounded(s: State, steps: seq<Step>)
    requires Runs(s, steps) && |s.rows.Keys| <= MAX_ROWS
    ensures |Reached(s, steps).rows.Keys| <= 64
    decreases |steps|
  {
    if steps != [] {
      StepBounded(s, steps[0]);
      RunBounded(Next(s, steps[0]), steps[1..]);
    }
  }

  // ---- Sent at most once -------------------------------------------------------------------

  /** A call that is still going to send. */
  predicate Pending(call: Call, key: Key) { !call.Idle? && call.key == key }

  ghost predicate OnePending(s: State) {
    forall c, d, key :: c in s.calls && d in s.calls && Pending(s.calls[c], key) && Pending(s.calls[d], key) ==> c == d
  }

  ghost predicate NonePendingOnceSent(s: State) {
    forall i, c :: 0 <= i < |s.sent| && c in s.calls ==> !Pending(s.calls[c], s.sent[i].0)
  }

  ghost predicate SentOnce(s: State) {
    forall i, j :: 0 <= i < j < |s.sent| ==> s.sent[i].0 != s.sent[j].0
  }

  /** What was sent, or is about to be, is what the journal froze. */
  ghost predicate SentAsFrozen(s: State) {
    && (forall i :: 0 <= i < |s.sent| ==> s.sent[i].0 in s.rows && s.sent[i].1 == s.rows[s.sent[i].0].frozen)
    && (forall c :: c in s.calls && !s.calls[c].Idle? ==> s.calls[c].key in s.rows)
    && (forall c :: c in s.calls && s.calls[c].ToSubmit? ==> s.calls[c].frozen == s.rows[s.calls[c].key].frozen)
  }

  ghost predicate Once(s: State) { OnePending(s) && NonePendingOnceSent(s) && SentOnce(s) && SentAsFrozen(s) }

  lemma FrozenLasts(s: State, rows: Rows)
    requires SentAsFrozen(s) && Advances(s.rows, rows)
    ensures SentAsFrozen(s.(rows := rows))
  {}

  lemma BeginKeepsOnce(s: State, step: Step)
    requires Once(s) && step.Begin? && Possible(s, step)
    ensures Once(Next(s, step))
  {
    StepAdvances(s, step);
    FrozenLasts(s, Next(s, step).rows);
  }

  lemma MoveKeepsOnce(s: State, step: Step)
    requires Once(s) && (step.Mark? || step.Read?) && Possible(s, step)
    ensures Once(Next(s, step))
  {
    StepAdvances(s, step);
    FrozenLasts(s, Next(s, step).rows);
  }

  lemma SendKeepsOnce(s: State, step: Step)
    requires Once(s) && step.Send? && Possible(s, step)
    ensures Once(Next(s, step))
  {}

  lemma StepKeepsOnce(s: State, step: Step)
    requires Once(s) && Possible(s, step)
    ensures Once(Next(s, step))
  {
    StepAdvances(s, step);
    match step
    case Begin(_, _, _, _) => BeginKeepsOnce(s, step);
    case Mark(_) => MoveKeepsOnce(s, step);
    case Read(_) => MoveKeepsOnce(s, step);
    case Send(_) => SendKeepsOnce(s, step);
    case Learn(_, _) => FrozenLasts(s, Next(s, step).rows);
    case Retain(_, _) => FrozenLasts(s, Next(s, step).rows);
    case Die(_) =>
  }

  lemma {:induction false} RunKeepsOnce(s: State, steps: seq<Step>)
    requires Runs(s, steps) && Once(s)
    ensures Once(Reached(s, steps))
    decreases |steps|
  {
    if steps != [] {
      StepKeepsOnce(s, steps[0]);
      RunKeepsOnce(Next(s, steps[0]), steps[1..]);
    }
  }

  /** Over every run of callers that may die anywhere, each stage is submitted at most once, and with exactly what
      was frozen for it. */
  lemma SubmittedAtMostOnce(steps: seq<Step>)
    requires Runs(START, steps)
    ensures var s := Reached(START, steps);
            && (forall i, j :: 0 <= i < j < |s.sent| ==> s.sent[i].0 != s.sent[j].0)
            && (forall i :: 0 <= i < |s.sent| ==> s.sent[i].0 in s.rows && s.sent[i].1 == s.rows[s.sent[i].0].frozen)
  {
    RunKeepsOnce(START, steps);
  }
}
