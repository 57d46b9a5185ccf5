/** Where everything in the journal comes from, and what it says about the sending. */
module JournalHistory {
  import opened Common
  import opened Journal

  // ---- Every field has its origin ----------------------------------------------------------

  /** A row was prepared by a caller with what it holds, whose digests matched. */
  ghost predicate WasPrepared(happened: set<Step>, key: Key, frozen: Frozen) {
    exists c :: Begin(c, key, frozen, true) in happened
  }

  /** Job and session are those of one receipt for what was frozen. */
  ghost predicate WasLearnt(happened: set<Step>, key: Key, row: Row) {
    exists receipt :: Learn(key, receipt) in happened && receipt.specificationDigest == row.frozen.digest
                      && row.jobId == Some(receipt.id) && row.sessionId == receipt.sessionId
  }

  ghost predicate WasReplayed(happened: set<Step>, key: Key, replayed: Option<bool>) {
    exists receipt :: Learn(key, receipt) in happened && receipt.replayed == replayed
  }

  ghost predicate Identities(happened: set<Step>, key: Key, row: Row) {
    && (if row.jobId.Some? then WasLearnt(happened, key, row) else row.sessionId.None?)
    && (row.replayed.Some? ==> WasReplayed(happened, key, row.replayed) && row.jobId.Some?)
  }

  /** The phase says what the row holds. */
  ghost predicate PhaseTells(row: Row) {
    match row.phase
    case Prepared => row.jobId.None? && row.evidence.None?
    case Requested => row.jobId.None? && row.evidence.None?
    case Identified => row.jobId.Some? && row.evidence.None?
    case Collected => row.evidence.Some?
  }

  ghost predicate Bounded(row: Row) {
    && |row.frozen.submission| <= 65536 && |row.frozen.source| <= 33554432 && |row.frozen.acceptance| <= 33554432
    && (row.evidence.Some? ==> |row.evidence.value| <= 262144)
  }

  ghost predicate RowTold(happened: set<Step>, key: Key, row: Row) {
    && WasPrepared(happened, key, row.frozen) && Identities(happened, key, row) && PhaseTells(row) && Bounded(row)
    && (row.evidence.Some? ==> Retain(key, row.evidence.value) in happened)
  }

  ghost predicate Told(happened: set<Step>, rows: Rows) { forall key :: key in rows ==> RowTold(happened, key, rows[key]) }

  lemma IdentitiesLast(happened: set<Step>, step: Step, key: Key, row: Row)
    requires Identities(happened, key, row)
    ensures Identities(happened + {step}, key, row)
  {
    if row.jobId.Some? {
      var receipt :| Learn(key, receipt) in happened && receipt.specificationDigest == row.frozen.digest
                     && row.jobId == Some(receipt.id) && row.sessionId == receipt.sessionId;
      assert Learn(key, receipt) in happened + {step};
    }
    if row.replayed.Some? {
      var receipt :| Learn(key, receipt) in happened && receipt.replayed == row.replayed;
      assert Learn(key, receipt) in happened + {step};
    }
  }

  lemma RowLasts(happened: set<Step>, step: Step, key: Key, row: Row)
    requires RowTold(happened, key, row)
    ensures RowTold(happened + {step}, key, row)
  {
    var c :| Begin(c, key, row.frozen, true) in happened;
    assert Begin(c, key, row.frozen, true) in happened + {step};
    IdentitiesLast(happened, step, key, row);
  }

  lemma PreparedTold(happened: set<Step>, rows: Rows, step: Step)
    requires step.Begin? && Prepare(rows, step.key, step.frozen, step.matches).Success?
    ensures RowTold(happened + {step}, step.key, Row(step.frozen, Prepared, None, None, None, None))
  {
    assert Begin(step.caller, step.key, step.frozen, true) == step;
  }

  lemma BoundTold(happened: set<Step>, rows: Rows, key: Key, receipt: Receipt)
    requires key in rows && RowTold(happened, key, rows[key]) && Bind(rows, key, receipt).Success?
    ensures RowTold(happened + {Learn(key, receipt)}, key, Bind(rows, key, receipt).result[key])
  {
    RowLasts(happened, Learn(key, receipt), key, rows[key]);
    assert Learn(key, receipt) in happened + {Learn(key, receipt)};
  }

  /** A step changes at most the row of one key. */
  lemma OthersStay(s: State, step: Step, key: Key)
    requires Possible(s, step) && key in Next(s, step).rows
    ensures || (key in s.rows && Next(s, step).rows[key] == s.rows[key])
            || (step.Begin? && key == step.key && key !in s.rows && Prepare(s.rows, key, step.frozen, step.matches).Success?)
            || (step.Mark? && key == CallOf(s, step.caller).key && key in s.rows)
            || ((step.Learn? || step.Retain?) && key == step.key && key in s.rows)
  {}

  lemma StepTold(happened: set<Step>, s: State, step: Step)
    requires Possible(s, step) && Told(happened, s.rows)
    ensures Told(happened + {step}, Next(s, step).rows)
  {
    var rows := Next(s, step).rows;
    forall key | key in rows ensures RowTold(happened + {step}, key, rows[key]) {
      OthersStay(s, step, key);
      if key in s.rows { RowLasts(happened, step, key, s.rows[key]); }
      if step.Begin? && key !in s.rows { PreparedTold(happened, s.rows, step); }
      if step.Learn? && key == step.key && Bind(s.rows, key, step.receipt).Success? {
        BoundTold(happened, s.rows, key, step.receipt);
      }
    }
  }

  // ---- Marked before it is sent ------------------------------------------------------------

  ghost predicate Marked(rows: Rows, key: Key) { key in rows && rows[key].phase != Prepared }

  /** Whoever has marked its row as requested finds it so, and nothing is sent before. */
  ghost predicate MarkedFirst(s: State) {
    && (forall c :: c in s.calls && !s.calls[c].Idle? ==> s.calls[c].key in s.rows)
    && (forall c :: c in s.calls && (s.calls[c].ToRead? || s.calls[c].ToSubmit?) ==> Marked(s.rows, s.calls[c].key))
    && (forall i :: 0 <= i < |s.sent| ==> Marked(s.rows, s.sent[i].0))
  }

  lemma StepMarked(s: State, step: Step)
    requires Possible(s, step) && MarkedFirst(s)
    ensures MarkedFirst(Next(s, step))
  {
    StepAdvances(s, step);
    assert forall key :: Marked(s.rows, key) ==> Marked(Next(s, step).rows, key);
  }

  // ---- Every run ---------------------------------------------------------------------------

  ghost function Steps(steps: seq<Step>): set<Step> { set step | step in steps }

  lemma {:induction false} RunTold(happened: set<Step>, s: State, steps: seq<Step>)
    requires Runs(s, steps) && Told(happened, s.rows) && MarkedFirst(s)
    ensures Told(happened + Steps(steps), Reached(s, steps).rows) && MarkedFirst(Reached(s, steps))
    decreases |steps|
  {
    if steps == [] {
      assert happened + Steps([]) == happened;
    } else {
      StepTold(happened, s, steps[0]);
      StepMarked(s, steps[0]);
      RunTold(happened + {steps[0]}, Next(s, steps[0]), steps[1..]);
      assert steps == [steps[0]] + steps[1..];
      assert happened + {steps[0]} + Steps(steps[1..]) == happened + Steps(steps);
    }
  }

  /** Over every run every row is bounded, was prepared by a caller with exactly what it froze, has its identities from
      receipts for that and its evidence from a retention, and its phase says which of these it has. */
  lemma RowsAreTold(steps: seq<Step>, key: Key)
    requires Runs(START, steps) && key in Reached(START, steps).rows
    ensures RowTold(Steps(steps), key, Reached(START, steps).rows[key])
  {
    RunTold({}, START, steps);
    assert {} + Steps(steps) == Steps(steps);
  }

  /** Over every run nothing was submitted whose row is not marked as requested or further. */
  lemma MarkedBeforeSent(steps: seq<Step>, i: nat)
    requires Runs(START, steps) && i < |Reached(START, steps).sent|
    ensures var s := Reached(START, steps); s.sent[i].0 in s.rows && s.rows[s.sent[i].0].phase != Prepared
  {
    RunTold({}, START, steps);
  }

  // ---- A call that is left alone -----------------------------------------------------------

  ghost predicate Sends(s: State, c: nat, key: Key, frozen: Frozen) {
    var steps := [Mark(c), Read(c), Send(c)];
    Runs(s, steps) && Reached(s, steps).sent == s.sent + [(key, frozen)] && CallOf(Reached(s, steps), c).Idle?
  }

  lemma RestSends(s: State, c: nat, key: Key)
    requires CallOf(s, c) == ToRequest(key) && key in s.rows
    ensures Sends(s, c, key, s.rows[key].frozen)
  {
    var marked := Next(s, Mark(c));
    var read := Next(marked, Read(c));
    assert [Mark(c), Read(c), Send(c)][1..] == [Read(c), Send(c)] && [Read(c), Send(c)][1..] == [Send(c)] && [Send(c)][1..] == [];
    assert CallOf(marked, c) == ToRead(key) && CallOf(read, c) == ToSubmit(key, s.rows[key].frozen);
    var done := Next(read, Send(c));
    assert Runs(done, []) && Reached(done, []) == done;
    assert Runs(read, [Send(c)]) && Reached(read, [Send(c)]) == done;
    assert Runs(marked, [Read(c), Send(c)]) && Reached(marked, [Read(c), Send(c)]) == done;
  }

  /** A caller whose row is new, if it does not die and nothing comes between, submits what it froze. */
  lemma CallSends(s: State, c: nat, key: Key, frozen: Frozen)
    requires CallOf(s, c).Idle? && Prepare(s.rows, key, frozen, true).Success?
    ensures Sends(Next(s, Begin(c, key, frozen, true)), c, key, frozen)
  {
    RestSends(Next(s, Begin(c, key, frozen, true)), c, key);
  }
}
