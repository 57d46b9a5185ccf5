/** One command of a job: its two output streams, its end, and what is reported of them. */
module JobExecution {
  import opened Common
  import opened JobResult
  import Utf8

  const MAX_FORWARDED_OUTPUT := 4 * 1024 * 1024
  const TAIL := 256
  const MAX_ERROR_CHARS := 128

  // ---- What can happen ---------------------------------------------------------------------

  type Signal = s: int | 1 <= s witness 1

  datatype Status = Exited(code: nat) | Signaled(signal: Signal)

  /** How stopping everything the command started went. */
  datatype Confirmation = Confirmed | Unconfirmed(error: Text)

  /** How passing bytes on went; a write that fails or times out may have landed in part. */
  datatype Write = Written | Stuck(landed: nat, error: Text)

  datatype Event =
    | Read(fromError: bool, bytes: seq<octet>, write: Write)  // no bytes: the stream ended
    | ReadFailed(fromError: bool, error: Text)
    | Waited(status: Status, confirmation: Confirmation)
    | WaitFailed(error: Text)
    | DeadlinePassed(confirmation: Confirmation)
    | DrainPassed

  /** Everything that happens to one command, in the order it is noticed. An event whose source is no
      longer awaited is not noticed. */
  datatype Script = NotStarted(error: Text) | Started(events: seq<Event>, duration: nat)

  // ---- What a stretch of events amounts to -------------------------------------------------

  predicate Closes(e: Event, fromError: bool) { e.Read? && e.fromError == fromError && e.bytes == [] }

  predicate Open(events: seq<Event>, fromError: bool) {
    forall i :: 0 <= i < |events| ==> !Closes(events[i], fromError)
  }

  /** The output so far, both streams together in the order they were read. */
  function Heard(events: seq<Event>): seq<octet> {
    if events == [] then []
    else
      var front, e := events[..|events| - 1], events[|events| - 1];
      Heard(front) + if e.Read? && Open(front, e.fromError) then e.bytes else []
  }

  /** The event that ended the command. */
  function Ending(events: seq<Event>): (e: Option<Event>)
    ensures e.Some? ==> e.value.Waited? || e.value.DeadlinePassed?
  {
    if events == [] then None
    else
      var earlier, e := Ending(events[..|events| - 1]), events[|events| - 1];
      if earlier.Some? || !(e.Waited? || e.DeadlinePassed?) then earlier else Some(e)
  }

  /** Both streams have ended and so has the command. */
  predicate Drained(events: seq<Event>) { Ending(events).Some? && !Open(events, false) && !Open(events, true) }

  /** Nothing more is awaited after these events. */
  predicate Over(events: seq<Event>) {
    || Drained(events)
    || (events != [] && events[|events| - 1].DrainPassed? && Ending(events[..|events| - 1]).Some?)
  }

  function Last(s: seq<octet>, n: nat): seq<octet> { if |s| <= n then s else s[|s| - n..] }

  function BoundError(error: Text): (r: Text)
    ensures |r| <= 512
  {
    Utf8.TakeCharsBounds(error, MAX_ERROR_CHARS);
    Utf8.TakeChars(error, MAX_ERROR_CHARS)
  }

  function ExitCode(status: Status): int {
    match status
    case Exited(code) => code
    case Signaled(signal) => 128 + signal
  }

  function OutcomeOf(status: Status): Outcome { if status == Exited(0) then Completed else CommandFailed }

  /** How a command ended, and whether all it started did. */
  datatype End = End(code: Option<int>, outcome: Outcome, confirmed: bool, error: Option<Text>)

  function EndOf(e: Event): End
    requires e.Waited? || e.DeadlinePassed?
  {
    End(if e.Waited? then Some(ExitCode(e.status)) else None,
        if e.Waited? then OutcomeOf(e.status) else TimedOut,
        e.confirmation.Confirmed?,
        if e.confirmation.Confirmed? then None else Some(BoundError(e.confirmation.error)))
  }

  predicate EndsCommand(e: Event) { e.Waited? || e.DeadlinePassed? }

  /** The first event to end the command. */
  predicate EndsFirst(events: seq<Event>, k: nat) {
    k < |events| && EndsCommand(events[k]) && forall i :: 0 <= i < k ==> !EndsCommand(events[i])
  }

  /** What the report says about the way the command ended. */
  predicate TellsEnd(r: CommandResult, e: Event) {
    && EndsCommand(e)
    && (match e
        case Waited(Exited(code), _) => r.exitCode == Some(code)
        case Waited(Signaled(signal), _) => r.exitCode == Some(128 + signal)
        case _ => r.exitCode.None?)
    && (match e.confirmation
        case Unconfirmed(error) =>
          r.outcome == InfrastructureFailed && !r.terminationConfirmed && r.terminationError == Some(BoundError(error))
        case Confirmed =>
          && r.terminationConfirmed && r.terminationError.None?
          && (e.DeadlinePassed? ==> r.outcome == TimedOut)
          && (e.Waited? && e.status.Signaled? ==> r.outcome == CommandFailed)
          && (e.Waited? && e.status.Exited? && e.status.code != 0 ==> r.outcome == CommandFailed)
          && (e.Waited? && e.status.Exited? && e.status.code == 0 ==> r.outcome == Completed))
  }

  ghost predicate TellsFirstEnd(r: CommandResult, events: seq<Event>) {
    exists k: nat :: EndsFirst(events, k) && TellsEnd(r, events[k])
  }

  lemma {:induction false} EndingIsFirst(events: seq<Event>)
    ensures match Ending(events)
            case None => forall i :: 0 <= i < |events| ==> !EndsCommand(events[i])
            case Some(e) => exists k: nat :: EndsFirst(events, k) && events[k] == e
  {
    if events != [] {
      var front, e := events[..|events| - 1], events[|events| - 1];
      EndingIsFirst(front);
      assert forall i :: 0 <= i < |front| ==> front[i] == events[i];
      if Ending(front).Some? {
        var k: nat :| EndsFirst(front, k) && front[k] == Ending(front).value;
        assert EndsFirst(events, k);
      } else if EndsCommand(e) {
        assert forall i :: 0 <= i < |front| ==> !EndsCommand(front[i]);
        assert EndsFirst(events, |events| - 1);
      }
    }
  }

  lemma OneEndsFirst(events: seq<Event>, j: nat, k: nat)
    requires EndsFirst(events, j) && EndsFirst(events, k)
    ensures j == k
  {}

  /** What it says about the output, `before` bytes having been passed on by earlier commands. */
  predicate TellsOutput(r: CommandResult, events: seq<Event>, before: nat) {
    && r.output == Utf8.Lossy(Last(Heard(events), 256))
    && (r.outputTruncated <==> |Heard(events)| > 256)
    && (r.logsTruncated <==> before + |Heard(events)| > 4 * 1024 * 1024 || Open(events, false) || Open(events, true))
  }

  /** The events end here and no sooner, and `r` tells them. */
  ghost predicate Tells(r: CommandResult, events: seq<Event>, used: nat, index: nat, before: nat) {
    && used <= |events| && Over(events[..used]) && (forall k :: 0 <= k < used ==> !Over(events[..k]))
    && r.commandIndex == index
    && TellsFirstEnd(r, events[..used])
    && TellsOutput(r, events[..used], before)
  }

  // ---- One event more ----------------------------------------------------------------------

  /** All that matters of the events so far. */
  datatype Sum = Sum(outOpen: bool, errOpen: bool, heard: seq<octet>, end: Option<End>)

  function SumOf(events: seq<Event>): Sum {
    var ending := Ending(events);
    Sum(Open(events, false), Open(events, true), Heard(events), if ending.Some? then Some(EndOf(ending.value)) else None)
  }

  function Add(sum: Sum, e: Event): Sum {
    match e
    case Read(fromError, bytes, _) =>
      if fromError && sum.errOpen then sum.(errOpen := bytes != [], heard := sum.heard + bytes)
      else if !fromError && sum.outOpen then sum.(outOpen := bytes != [], heard := sum.heard + bytes)
      else sum
    case Waited(_, _) => if sum.end.None? then sum.(end := Some(EndOf(e))) else sum
    case DeadlinePassed(_) => if sum.end.None? then sum.(end := Some(EndOf(e))) else sum
    case _ => sum
  }

  lemma OpenNext(events: seq<Event>, e: Event, error: bool)
    ensures Open(events + [e], error) <==> Open(events, error) && !Closes(e, error)
  {
    assert forall i :: 0 <= i < |events| ==> (events + [e])[i] == events[i];
    assert (events + [e])[|events|] == e;
    assert Open(events + [e], error) ==> forall i :: 0 <= i < |events| ==> !Closes((events + [e])[i], error);
  }

  lemma SumNext(events: seq<Event>, e: Event)
    ensures SumOf(events + [e]) == Add(SumOf(events), e)
  {
    OpenNext(events, e, false);
    OpenNext(events, e, true);
    assert (events + [e])[..|events + [e]| - 1] == events;
    assert Heard(events) + [] == Heard(events);
  }

  lemma LastOfMore(s: seq<octet>, more: seq<octet>, n: nat)
    ensures Last(Last(s, n) + more, n) == Last(s + more, n)
  {}

  // ---- The capture loop --------------------------------------------------------------------

  datatype Capture = Capture(outOpen: bool, errOpen: bool, tail: seq<octet>, captured: nat, terminal: Option<End>)

  /** The variables agree with the events so far. */
  ghost predicate Keeps(c: Capture, sum: Sum) {
    && c.outOpen == sum.outOpen && c.errOpen == sum.errOpen && c.terminal == sum.end
    && c.captured == |sum.heard| && c.tail == Last(sum.heard, TAIL)
  }

  /** How much more output may be passed on. */
  function Room(before: nat): nat { if before < MAX_FORWARDED_OUTPUT then MAX_FORWARDED_OUTPUT - before else 0 }

  ghost predicate Passed(sink: seq<octet>, heard: seq<octet>, before: nat, forwarded: nat) {
    sink == heard[..Min(|heard|, Room(before))] && forwarded == before + |sink|
  }

  /** Read bytes: keep the tail, and pass on what the limit leaves. */
  method Absorb(c: Capture, bytes: seq<octet>, write: Write, forwarded: nat)
    returns (after: Capture, total: nat, landed: seq<octet>, failure: Option<Text>)
    ensures after == c.(captured := c.captured + |bytes|, tail := Last(c.tail + bytes, TAIL))
    ensures landed <= bytes && |landed| <= Room(forwarded)
    ensures failure.None? ==> total == forwarded + |landed| && landed == bytes[..Min(|bytes|, Room(forwarded))]
    ensures failure.Some? ==> total == forwarded && write.Stuck? && write.error == failure.value
    ensures failure.Some? <==> write.Stuck? && bytes != [] && Room(forwarded) > 0
    ensures failure.Some? ==> landed == bytes[..Min(write.landed, Min(|bytes|, Room(forwarded)))]
  {
    var tail := c.tail + bytes;
    if |tail| > TAIL { tail := tail[|tail| - TAIL..]; }
    after := c.(captured := c.captured + |bytes|, tail := tail);
    var retain := Min(|bytes|, Room(forwarded));
    total, landed, failure := forwarded, [], None;
    if retain > 0 {
      match write
      case Written =>
        landed := bytes[..retain];
        total := forwarded + retain;
      case Stuck(part, error) =>
        landed := bytes[..Min(part, retain)];
        failure := Some(error);
    }
  }

  lemma PassedOn(sink: seq<octet>, heard: seq<octet>, bytes: seq<octet>, before: nat, forwarded: nat)
    requires Passed(sink, heard, before, forwarded) && before <= MAX_FORWARDED_OUTPUT
    ensures sink + bytes[..Min(|bytes|, Room(forwarded))] == (heard + bytes)[..Min(|heard + bytes|, Room(before))]
  {}

  lemma PassedInPart(sink: seq<octet>, heard: seq<octet>, bytes: seq<octet>, before: nat, forwarded: nat, part: seq<octet>)
    requires Passed(sink, heard, before, forwarded) && before <= MAX_FORWARDED_OUTPUT
    requires part <= bytes && |part| <= Room(forwarded)
    ensures sink + part <= heard + bytes
  {
    if |part| > 0 { assert sink == heard; }
  }

  /** The event that made the runner give the command up, with the error it gave. */
  predicate Troubles(e: Event, error: Text) {
    || (e.ReadFailed? && e.error == error)
    || (e.WaitFailed? && e.error == error)
    || (e.Read? && e.write.Stuck? && e.write.error == error)
  }

  /** What noticing an event comes to. */
  ghost predicate Noticed(e: Event, sum: Sum, sink: seq<octet>, before: nat, forwarded: nat,
                          after: Capture, total: nat, more: seq<octet>, failure: Option<Text>)
  {
    match failure
    case None => Keeps(after, Add(sum, e)) && Passed(sink + more, Add(sum, e).heard, before, total)
    case Some(error) =>
      sink + more <= Add(sum, e).heard && |more| <= Room(forwarded) && total == forwarded && Troubles(e, error)
  }

  /** Bytes from a stream that is still open, or its end. */
  method NoticeRead(c: Capture, e: Event, forwarded: nat, ghost sum: Sum, ghost before: nat, ghost sink: seq<octet>)
    returns (after: Capture, total: nat, more: seq<octet>, failure: Option<Text>)
    requires Keeps(c, sum) && Passed(sink, sum.heard, before, forwarded) && before <= MAX_FORWARDED_OUTPUT
    requires e.Read? && if e.fromError then c.errOpen else c.outOpen
    ensures Noticed(e, sum, sink, before, forwarded, after, total, more, failure)
  {
    if e.bytes == [] {
      after := if e.fromError then c.(errOpen := false) else c.(outOpen := false);
      total, more, failure := forwarded, [], None;
      assert sink + [] == sink && sum.heard + [] == sum.heard;
    } else {
      LastOfMore(sum.heard, e.bytes, TAIL);
      PassedOn(sink, sum.heard, e.bytes, before, forwarded);
      after, total, more, failure := Absorb(c, e.bytes, e.write, forwarded);
      PassedInPart(sink, sum.heard, e.bytes, before, forwarded, more);
    }
  }

  /** One noticed event. */
  method Notice(c: Capture, e: Event, forwarded: nat, ghost sum: Sum, ghost before: nat, ghost sink: seq<octet>)
    returns (after: Capture, total: nat, more: seq<octet>, failure: Option<Text>)
    requires Keeps(c, sum) && Passed(sink, sum.heard, before, forwarded) && before <= MAX_FORWARDED_OUTPUT
    ensures Noticed(e, sum, sink, before, forwarded, after, total, more, failure)
  {
    assert sink + [] == sink;
    after, total, more, failure := c, forwarded, [], None;
    match e
    case Read(fromError, bytes, write) =>
      if if fromError then c.errOpen else c.outOpen {
        after, total, more, failure := NoticeRead(c, e, forwarded, sum, before, sink);
      }
    case ReadFailed(fromError, error) => if if fromError then c.errOpen else c.outOpen { failure := Some(error); }
    case Waited(status, confirmation) =>
      if c.terminal.None? {
        var stopped := if confirmation.Confirmed? then None else Some(BoundError(confirmation.error));
        after := c.(terminal := Some(End(Some(ExitCode(status)), OutcomeOf(status), confirmation.Confirmed?, stopped)));
      }
    case WaitFailed(error) => if c.terminal.None? { failure := Some(error); }
    case DeadlinePassed(confirmation) =>
      if c.terminal.None? {
        var stopped := if confirmation.Confirmed? then None else Some(BoundError(confirmation.error));
        after := c.(terminal := Some(End(None, TimedOut, confirmation.Confirmed?, stopped)));
      }
    case DrainPassed =>
  }

  datatype Executed = Finished(result: CommandResult) | Broke(error: Text) | Running

  /** The first `used` events have been noticed, and none before left the command over. */
  ghost predicate Going(events: seq<Event>, used: nat, c: Capture, sink: seq<octet>, before: nat, forwarded: nat) {
    && used <= |events|
    && Keeps(c, SumOf(events[..used])) && Passed(sink, Heard(events[..used]), before, forwarded)
    && (forall k :: 0 <= k < used ==> !Over(events[..k]))
  }

  lemma OverNext(events: seq<Event>, e: Event)
    requires !Drained(events)
    ensures Over(events + [e]) <==> Drained(events + [e]) || (e.DrainPassed? && SumOf(events + [e]).end.Some?)
  {
    SumNext(events, e);
    assert (events + [e])[..|events + [e]| - 1] == events;
  }

  /** One turn of the loop that is not its last. */
  method Turn(events: seq<Event>, used: nat, c: Capture, ghost sink: seq<octet>, ghost before: nat, forwarded: nat)
    returns (after: Capture, more: seq<octet>, total: nat, failure: Option<Text>, drained: bool)
    requires Going(events, used, c, sink, before, forwarded) && used < |events| && before <= MAX_FORWARDED_OUTPUT
    requires !Over(events[..used])
    ensures failure.None? ==> Going(events, used + 1, after, sink + more, before, total)
    ensures failure.None? ==> (Over(events[..used + 1]) <==> drained || (after.terminal.Some? && !after.outOpen && !after.errOpen))
    ensures failure.Some? ==>
              && sink + more <= Heard(events[..used + 1]) && |more| <= Room(forwarded) && total == forwarded
              && Troubles(events[used], failure.value)
  {
    var e := events[used];
    assert events[..used + 1] == events[..used] + [e];
    SumNext(events[..used], e);
    OverNext(events[..used], e);
    after, total, more, failure := Notice(c, e, forwarded, SumOf(events[..used]), before, sink);
    drained := e.DrainPassed? && after.terminal.Some?;
  }

  /** The report as the variables stand. */
  function Report(c: Capture, index: nat, duration: nat, cut: bool): CommandResult
    requires c.terminal.Some?
  {
    Utf8.LossyIsText(c.tail);
    var end := c.terminal.value;
    CommandResult(index, end.code, if end.confirmed then end.outcome else InfrastructureFailed, duration,
                  Utf8.Lossy(c.tail), c.captured > |c.tail|, cut, end.confirmed, end.error)
  }

  lemma ReportTellsEnd(c: Capture, index: nat, duration: nat, cut: bool, e: Event)
    requires EndsCommand(e) && c.terminal == Some(EndOf(e))
    ensures TellsEnd(Report(c, index, duration, cut), e)
  {}

  lemma ReportTells(events: seq<Event>, used: nat, c: Capture, sink: seq<octet>, before: nat, forwarded: nat, index: nat, duration: nat)
    requires Going(events, used, c, sink, before, forwarded) && Over(events[..used]) && before <= MAX_FORWARDED_OUTPUT
    ensures c.terminal.Some?
    ensures Tells(Report(c, index, duration, c.captured > forwarded - before || c.outOpen || c.errOpen),
                  events, used, index, before)
  {
    OverEnded(events[..used]);
    EndingIsFirst(events[..used]);
    var k: nat :| EndsFirst(events[..used], k) && events[..used][k] == Ending(events[..used]).value;
    ReportTellsEnd(c, index, duration, c.captured > forwarded - before || c.outOpen || c.errOpen, events[..used][k]);
  }

  lemma OverEnded(events: seq<Event>)
    requires Over(events)
    ensures Ending(events).Some?
  {}

  /** `execute`: run the events until the command is over. The report is that of the events up to there, and
      what was passed on is a prefix of the output within the limit on all commands together. */
  method Execute(script: Script, index: nat, before: nat)
    returns (r: Executed, forwarded: nat, sink: seq<octet>, used: nat)
    requires before <= MAX_FORWARDED_OUTPUT
    ensures script.Started? ==> used <= |script.events|
    ensures r.Finished? ==> script.Started? && Tells(r.result, script.events, used, index, before)
    ensures r.Finished? ==> Passed(sink, Heard(script.events[..used]), before, forwarded)
    ensures before <= forwarded <= 4 * 1024 * 1024 && |sink| <= Room(before)
    ensures sink <= if script.Started? then Heard(script.events[..used]) else []
    ensures r.Broke? ==>
              if script.NotStarted? then r.error == script.error else 0 < used && Troubles(script.events[used - 1], r.error)
    ensures r.Running? ==> script.Started? && used == |script.events| && !Over(script.events)
  {
    forwarded, sink, used := before, [], 0;
    if script.NotStarted? { return Broke(script.error), forwarded, sink, used; }
    var events := script.events;
    var c := Capture(true, true, [], 0, None);
    var drained := false;
    while !drained && !(c.terminal.Some? && !c.outOpen && !c.errOpen)
      invariant Going(events, used, c, sink, before, forwarded)
      invariant Over(events[..used]) <==> drained || (c.terminal.Some? && !c.outOpen && !c.errOpen)
      decreases |events| - used
    {
      if used == |events| {
        assert events[..used] == events;
        return Running, forwarded, sink, used;
      }
      var after, more, total, failure, last := Turn(events, used, c, sink, before, forwarded);
      sink, used := sink + more, used + 1;
      if failure.Some? { return Broke(failure.value), total, sink, used; }
      c, forwarded, drained := after, total, last;
    }
    ReportTells(events, used, c, sink, before, forwarded, index, script.duration);
    r := Finished(Report(c, index, script.duration, c.captured > forwarded - before || c.outOpen || c.errOpen));
  }

  lemma EndStands(r: CommandResult, e: Event)
    requires TellsEnd(r, e)
    ensures r.terminationConfirmed ==> r.terminationError.None?
    ensures r.outcome == Completed ==> r.terminationConfirmed && r.exitCode == Some(0)
    ensures r.outcome == CommandFailed ==> r.terminationConfirmed && r.exitCode.Some? && r.exitCode.value != 0
    ensures r.terminationError.Some? ==> |r.terminationError.value| <= 512
  {}

  /** Every report passes the host's check of one command. */
  lemma ReportStands(r: CommandResult, events: seq<Event>, used: nat, index: nat, before: nat)
    requires Tells(r, events, used, index, before)
    ensures CommandStands(index, r)
  {
    var k: nat :| EndsFirst(events[..used], k) && TellsEnd(r, events[..used][k]);
    EndStands(r, events[..used][k]);
    Utf8.LossyIsText(Last(Heard(events[..used]), TAIL));
  }

  /** A report without truncated logs leaves nothing out: every byte read was passed on, and both streams
      were read to their end. */
  lemma NothingLost(r: CommandResult, events: seq<Event>, used: nat, index: nat, before: nat, sink: seq<octet>, forwarded: nat)
    requires Tells(r, events, used, index, before) && before <= MAX_FORWARDED_OUTPUT
    requires Passed(sink, Heard(events[..used]), before, forwarded)
    ensures !r.logsTruncated <==> sink == Heard(events[..used]) && Drained(events[..used])
  {
    var heard := Heard(events[..used]);
    assert heard[..|heard|] == heard;
    assert sink == heard ==> |sink| == |heard|;
  }
}
