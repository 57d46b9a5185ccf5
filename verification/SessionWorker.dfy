/** The loop that supervises one command and retains its output. */
module SessionWorker {
  import opened Common
  import opened Base64
  import opened SessionLog

  datatype State = Running | Completed | Cancelled | TimedOut

  /** What becomes of the line a read leads to: it is written and flushed, or that fails when so many of its
      bytes are in the file. */
  datatype Sink = Takes | Fails(bytes: nat)

  /** What the loop's `select` may hand it next. An empty chunk is the end of that stream. */
  datatype Input =
    | Out(chunk: seq<octet>, sink: Sink) | Err(chunk: seq<octet>, sink: Sink)
    | Exited(code: int) | CancelSent | DeadlinePassed | DrainPassed | Broken

  datatype Ending = Waiting | Finished | Failed

  type Tagged = (bool, octet)

  function Tag(stderr: bool, bytes: seq<octet>): (t: seq<Tagged>)
    ensures |t| == |bytes|
  {
    seq(|bytes|, i requires 0 <= i < |bytes| => (stderr, bytes[i]))
  }

  function Retained(chunks: seq<Chunk>): seq<Tagged> {
    if chunks == [] then []
    else Retained(chunks[..|chunks| - 1]) + Tag(chunks[|chunks| - 1].stderr, chunks[|chunks| - 1].bytes)
  }

  /** Where the command stands: which pipes are open, and its exit once there is one. */
  datatype Standing = Standing(outOpen: bool, errOpen: bool, exit: Option<int>, state: State)

  const FRESH := Standing(true, true, None, Running)

  predicate Done(s: Standing) { s.exit.Some? && !s.outOpen && !s.errOpen }

  /** What an input is to a command standing thus: output, a change, or not selectable. */
  function Output(s: Standing, i: Input): seq<Tagged> {
    match i
    case Out(c, _) => if s.outOpen then Tag(false, c) else []
    case Err(c, _) => if s.errOpen then Tag(true, c) else []
    case _ => []
  }

  function Next(s: Standing, i: Input): Standing {
    match i
    case Out(c, _) => if c == [] then s.(outOpen := false) else s
    case Err(c, _) => if c == [] then s.(errOpen := false) else s
    case Exited(code) => if s.exit.None? then s.(exit := Some(code), state := Completed) else s
    case CancelSent => if s.exit.None? then s.(exit := Some(130), state := Cancelled) else s
    case DeadlinePassed => if s.exit.None? then s.(exit := Some(124), state := TimedOut) else s
    case _ => s
  }

  predicate Ends(s: Standing, i: Input) { i.Broken? || (i.DrainPassed? && s.exit.Some?) }

  datatype Course = Course(delivered: seq<Tagged>, last: Standing, ending: Ending)

  /** The whole course of a command under these inputs, output retained or not. */
  function CourseOf(s: Standing, inputs: seq<Input>): Course
    decreases |inputs|
  {
    if Done(s) then Course([], s, Finished)
    else if inputs == [] then Course([], s, Waiting)
    else if Ends(s, inputs[0]) then Course([], s, if inputs[0].Broken? then Failed else Finished)
    else
      var rest := CourseOf(Next(s, inputs[0]), inputs[1..]);
      rest.(delivered := Output(s, inputs[0]) + rest.delivered)
  }

  /** `course` is what was `seen` and then the course from input `i` on. */
  ghost predicate OnCourse(course: Course, s: Standing, inputs: seq<Input>, i: nat, seen: seq<Tagged>)
    requires i <= |inputs|
  {
    var rest := CourseOf(s, inputs[i..]);
    course.last == rest.last && course.ending == rest.ending && course.delivered == seen + rest.delivered
  }

  lemma CourseStep(course: Course, s: Standing, inputs: seq<Input>, i: nat, seen: seq<Tagged>)
    requires i < |inputs| && OnCourse(course, s, inputs, i, seen) && !Done(s) && !Ends(s, inputs[i])
    ensures OnCourse(course, Next(s, inputs[i]), inputs, i + 1, seen + Output(s, inputs[i]))
  {
    assert inputs[i..][1..] == inputs[i + 1..];
    var rest := CourseOf(Next(s, inputs[i]), inputs[i + 1..]);
    assert seen + (Output(s, inputs[i]) + rest.delivered) == seen + Output(s, inputs[i]) + rest.delivered;
  }

  lemma CourseEnds(course: Course, s: Standing, inputs: seq<Input>, i: nat, seen: seq<Tagged>)
    requires i <= |inputs| && OnCourse(course, s, inputs, i, seen) && (Done(s) || i == |inputs| || Ends(s, inputs[i]))
    ensures course == Course(seen, s, if Done(s) then Finished else if i == |inputs| then Waiting
                                      else if inputs[i].Broken? then Failed else Finished)
  {
    assert seen + [] == seen;
  }

  lemma RetainedNext(chunks: seq<Chunk>, c: Chunk)
    ensures Retained(chunks + [c]) == Retained(chunks) + Tag(c.stderr, c.bytes)
    ensures Total(chunks + [c]) == Total(chunks) + |c.bytes|
  {
    assert (chunks + [c])[..|chunks|] == chunks;
  }

  lemma {:induction false} RetainedSize(chunks: seq<Chunk>)
    ensures |Retained(chunks)| == Total(chunks)
  {
    if chunks != [] { RetainedSize(chunks[..|chunks| - 1]); }
  }

  /** An event carries its chunk's bytes. */
  lemma EventsCarryBytes(chunks: seq<Chunk>, i: nat)
    requires i < |chunks|
    ensures Decoded(EventsOf(chunks)[i].data) == Some(chunks[i].bytes) && EventsOf(chunks)[i].sequence == i + 1
  {
    RoundTrip(chunks[i].bytes);
  }

  /** The log so far against the output so far. */
  ghost predicate Kept(chunks: seq<Chunk>, seen: seq<Tagged>, truncated: bool) {
    && Legal(chunks)
    && Retained(chunks) <= seen
    && (truncated <==> Retained(chunks) != seen)
    && (truncated ==> Total(chunks) == 4 * 1024 * 1024 || |chunks| == 4096)
  }

  lemma KeptDropped(chunks: seq<Chunk>, seen: seq<Tagged>, truncated: bool, more: seq<Tagged>)
    requires Kept(chunks, seen, truncated) && more != []
    requires Total(chunks) == MAX_OUTPUT_BYTES || |chunks| == MAX_EVENTS
    ensures Kept(chunks, seen + more, true)
  {}

  lemma LegalAppended(chunks: seq<Chunk>, c: Chunk)
    requires Legal(chunks) && |chunks| < MAX_EVENTS && 0 < |c.bytes| <= READ_BUFFER
    requires Total(chunks) + |c.bytes| <= MAX_OUTPUT_BYTES
    ensures Legal(chunks + [c])
  {
    RetainedNext(chunks, c);
  }

  lemma TagPrefix(stderr: bool, bytes: seq<octet>, n: nat)
    requires n <= |bytes|
    ensures Tag(stderr, bytes[..n]) == Tag(stderr, bytes)[..n]
  {}

  lemma PartIsPrefix(seen: seq<Tagged>, more: seq<Tagged>, n: nat)
    requires n <= |more|
    ensures seen + more[..n] <= seen + more && (seen + more[..n] != seen + more <==> n < |more|)
  {
    assert (seen + more)[..|seen| + n] == seen + more[..n];
    if n == |more| { assert more[..n] == more; } else { assert |seen + more[..n]| < |seen + more|; }
  }

  lemma KeptWhole(chunks: seq<Chunk>, seen: seq<Tagged>, truncated: bool)
    requires Kept(chunks, seen, truncated) && |chunks| < MAX_EVENTS && Total(chunks) < MAX_OUTPUT_BYTES
    ensures Retained(chunks) == seen && !truncated
  {}

  lemma RetainedAppended(chunks: seq<Chunk>, stderr: bool, bytes: seq<octet>, n: nat)
    requires n <= |bytes|
    ensures var more, all := Retained(chunks + [Chunk(stderr, bytes[..n])]), Retained(chunks) + Tag(stderr, bytes);
            more <= all && (more != all <==> n < |bytes|)
  {
    RetainedNext(chunks, Chunk(stderr, bytes[..n]));
    TagPrefix(stderr, bytes, n);
    PartIsPrefix(Retained(chunks), Tag(stderr, bytes), n);
  }

  lemma KeptAppended(chunks: seq<Chunk>, seen: seq<Tagged>, truncated: bool, stderr: bool, bytes: seq<octet>, n: nat)
    requires Kept(chunks, seen, truncated) && |bytes| <= READ_BUFFER && 0 < n <= |bytes|
    requires |chunks| < MAX_EVENTS && n == Min(|bytes|, MAX_OUTPUT_BYTES - Total(chunks))
    ensures Kept(chunks + [Chunk(stderr, bytes[..n])], seen + Tag(stderr, bytes), n < |bytes|) && !truncated
  {
    var c := Chunk(stderr, bytes[..n]);
    KeptWhole(chunks, seen, truncated);
    LegalAppended(chunks, c);
    RetainedNext(chunks, c);
    RetainedAppended(chunks, stderr, bytes, n);
  }

  lemma WrittenAppended(codec: Codec, chunks: seq<Chunk>, c: Chunk)
    ensures Written(codec, chunks + [c]) == Written(codec, chunks) + Line(codec, |chunks| + 1, c)
  {
    assert (chunks + [c])[..|chunks|] == chunks;
  }

  /** The loop's own variables. */
  datatype Book = Book(log: string, captured: nat, sequence: nat, truncated: bool)

  /** They account for these appends against this output. */
  ghost predicate Accounts(codec: Codec, book: Book, chunks: seq<Chunk>, seen: seq<Tagged>) {
    && book.log == Written(codec, chunks) && book.captured == Total(chunks) && book.sequence == |chunks|
    && Kept(chunks, seen, book.truncated)
  }

  // ---- The log as it would be written ------------------------------------------------------

  /** The input is output to be logged. */
  predicate Reads(s: Standing, i: Input) {
    (i.Out? && s.outOpen && i.chunk != []) || (i.Err? && s.errOpen && i.chunk != [])
  }

  /** How much of a read there is room for. */
  function Room(chunks: seq<Chunk>, bytes: nat): nat {
    if |chunks| < MAX_EVENTS && Total(chunks) <= MAX_OUTPUT_BYTES then Min(bytes, MAX_OUTPUT_BYTES - Total(chunks)) else 0
  }

  /** The log with as much of a read as there is room for. */
  function With(chunks: seq<Chunk>, stderr: bool, bytes: seq<octet>): seq<Chunk> {
    var n := Room(chunks, |bytes|);
    if n > 0 then chunks + [Chunk(stderr, bytes[..n])] else chunks
  }

  function Grown(chunks: seq<Chunk>, s: Standing, i: Input): seq<Chunk> {
    if Reads(s, i) then With(chunks, i.Err?, i.chunk) else chunks
  }

  /** The chunks these inputs get logged after those already there, if no write fails. */
  function Logged(s: Standing, inputs: seq<Input>, chunks: seq<Chunk>): seq<Chunk>
    decreases |inputs|
  {
    if Done(s) || inputs == [] || Ends(s, inputs[0]) then chunks
    else Logged(Next(s, inputs[0]), inputs[1..], Grown(chunks, s, inputs[0]))
  }

  /** The write this input leads to fails. */
  predicate Fails(chunks: seq<Chunk>, s: Standing, i: Input) {
    Reads(s, i) && Room(chunks, |i.chunk|) > 0 && i.sink.Fails?
  }

  /** Some write before the command's end fails. */
  predicate WriteFails(s: Standing, inputs: seq<Input>, chunks: seq<Chunk>)
    decreases |inputs|
  {
    !Done(s) && inputs != [] && !Ends(s, inputs[0])
    && (Fails(chunks, s, inputs[0]) || WriteFails(Next(s, inputs[0]), inputs[1..], Grown(chunks, s, inputs[0])))
  }

  lemma {:induction false} LoggedGrows(s: Standing, inputs: seq<Input>, chunks: seq<Chunk>)
    ensures chunks <= Logged(s, inputs, chunks)
    decreases |inputs|
  {
    if !(Done(s) || inputs == [] || Ends(s, inputs[0])) {
      LoggedGrows(Next(s, inputs[0]), inputs[1..], Grown(chunks, s, inputs[0]));
    }
  }

  /** `all` is what these inputs get logged, and `broken` whether a write fails, seen from input `i` on. */
  ghost predicate OnRecord(all: seq<Chunk>, broken: bool, s: Standing, inputs: seq<Input>, i: nat, chunks: seq<Chunk>)
    requires i <= |inputs|
  {
    all == Logged(s, inputs[i..], chunks) && broken == WriteFails(s, inputs[i..], chunks)
  }

  lemma RecordStep(all: seq<Chunk>, broken: bool, s: Standing, inputs: seq<Input>, i: nat, chunks: seq<Chunk>)
    requires i < |inputs| && OnRecord(all, broken, s, inputs, i, chunks) && !Done(s) && !Ends(s, inputs[i])
    ensures if Fails(chunks, s, inputs[i]) then broken
            else OnRecord(all, broken, Next(s, inputs[i]), inputs, i + 1, Grown(chunks, s, inputs[i]))
    ensures Grown(chunks, s, inputs[i]) <= all
  {
    assert inputs[i..][1..] == inputs[i + 1..];
    LoggedGrows(Next(s, inputs[i]), inputs[i + 1..], Grown(chunks, s, inputs[i]));
  }

  lemma WrittenWithin(codec: Codec, chunks: seq<Chunk>, all: seq<Chunk>, file: string)
    requires chunks <= all && file <= Written(codec, chunks)
    ensures file <= Written(codec, all)
  {
    WrittenPrefix(codec, all, |chunks|);
    assert all[..|chunks|] == chunks;
  }

  ghost predicate Bounded(inputs: seq<Input>) {
    forall i :: 0 <= i < |inputs| && (inputs[i].Out? || inputs[i].Err?) ==> |inputs[i].chunk| <= READ_BUFFER
  }

  lemma KeptWith(chunks: seq<Chunk>, seen: seq<Tagged>, truncated: bool, stderr: bool, bytes: seq<octet>) returns (now: bool)
    requires Kept(chunks, seen, truncated) && 0 < |bytes| <= READ_BUFFER
    ensures Kept(With(chunks, stderr, bytes), seen + Tag(stderr, bytes), now)
  {
    var n := Room(chunks, |bytes|);
    if n > 0 {
      KeptAppended(chunks, seen, truncated, stderr, bytes, n);
      now := n < |bytes|;
    } else {
      KeptDropped(chunks, seen, truncated, Tag(stderr, bytes));
      now := true;
    }
  }

  lemma KeptGrown(chunks: seq<Chunk>, seen: seq<Tagged>, truncated: bool, s: Standing, i: Input) returns (now: bool)
    requires Kept(chunks, seen, truncated) && (i.Out? || i.Err? ==> |i.chunk| <= READ_BUFFER)
    ensures Kept(Grown(chunks, s, i), seen + Output(s, i), now)
  {
    if Reads(s, i) {
      now := KeptWith(chunks, seen, truncated, i.Err?, i.chunk);
    } else {
      assert seen + Output(s, i) == seen;
      now := truncated;
    }
  }

  lemma CourseNext(s: Standing, inputs: seq<Input>, seen: seq<Tagged>)
    requires inputs != [] && !Done(s) && !Ends(s, inputs[0])
    ensures seen + CourseOf(s, inputs).delivered == seen + Output(s, inputs[0]) + CourseOf(Next(s, inputs[0]), inputs[1..]).delivered
  {
    var out, rest := Output(s, inputs[0]), CourseOf(Next(s, inputs[0]), inputs[1..]).delivered;
    assert seen + out + rest == seen + (out + rest);
  }

  /** The log that would be written holds a prefix of the output, all of it unless a limit is reached. */
  lemma {:induction false} LoggedIsKept(s: Standing, inputs: seq<Input>, chunks: seq<Chunk>, seen: seq<Tagged>, truncated: bool)
    returns (now: bool)
    requires Kept(chunks, seen, truncated) && Bounded(inputs)
    ensures Kept(Logged(s, inputs, chunks), seen + CourseOf(s, inputs).delivered, now)
    decreases |inputs|
  {
    if Done(s) || inputs == [] || Ends(s, inputs[0]) {
      assert seen + [] == seen;
      now := truncated;
    } else {
      now := KeptGrown(chunks, seen, truncated, s, inputs[0]);
      now := LoggedIsKept(Next(s, inputs[0]), inputs[1..], Grown(chunks, s, inputs[0]), seen + Output(s, inputs[0]), now);
      CourseNext(s, inputs, seen);
    }
  }

  lemma NothingKept()
    ensures Kept([], [], false)
  {}

  lemma LoggedIsLegal(inputs: seq<Input>)
    requires Bounded(inputs)
    ensures Legal(Logged(FRESH, inputs, []))
  {
    NothingKept();
    var truncated := LoggedIsKept(FRESH, inputs, [], [], false);
  }

  // ---- The loop ----------------------------------------------------------------------------

  /** `write_all` and `flush` of one line: what is in the file then, and whether that went well. */
  method Append(file: string, line: string, sink: Sink) returns (after: string, ok: bool)
    ensures ok <==> sink.Takes?
    ensures if ok then after == file + line else file <= after <= file + line
  {
    if sink.Takes? { return file + line, true; }
    return file + line[..Min(sink.bytes, |line|)], false;
  }

  /** The books after a line for `n` bytes of a read has been written. */
  function Entered(codec: Codec, book: Book, stderr: bool, chunk: seq<octet>, n: nat): Book
    requires n <= |chunk|
  {
    Book(book.log + Line(codec, book.sequence + 1, Chunk(stderr, chunk[..n])), book.captured + n, book.sequence + 1,
         book.truncated || n < |chunk|)
  }

  lemma AccountsAppended(codec: Codec, book: Book, stderr: bool, chunk: seq<octet>, n: nat, chunks: seq<Chunk>, seen: seq<Tagged>)
    requires Accounts(codec, book, chunks, seen) && 0 < |chunk| <= READ_BUFFER && n == Room(chunks, |chunk|) > 0
    ensures Accounts(codec, Entered(codec, book, stderr, chunk, n), With(chunks, stderr, chunk), seen + Tag(stderr, chunk))
    ensures Written(codec, With(chunks, stderr, chunk)) == Entered(codec, book, stderr, chunk, n).log
  {
    KeptAppended(chunks, seen, book.truncated, stderr, chunk, n);
    RetainedNext(chunks, Chunk(stderr, chunk[..n]));
    WrittenAppended(codec, chunks, Chunk(stderr, chunk[..n]));
  }

  lemma AccountsDropped(codec: Codec, book: Book, stderr: bool, chunk: seq<octet>, chunks: seq<Chunk>, seen: seq<Tagged>)
    requires Accounts(codec, book, chunks, seen) && 0 < |chunk| && Room(chunks, |chunk|) == 0
    ensures Accounts(codec, book.(truncated := true), With(chunks, stderr, chunk), seen + Tag(stderr, chunk))
  {
    KeptDropped(chunks, seen, book.truncated, Tag(stderr, chunk));
  }

  lemma RoomCounted(codec: Codec, book: Book, chunks: seq<Chunk>, seen: seq<Tagged>, bytes: nat)
    requires Accounts(codec, book, chunks, seen)
    ensures book.captured <= MAX_OUTPUT_BYTES
    ensures Room(chunks, bytes) == if book.sequence < MAX_EVENTS then Min(bytes, MAX_OUTPUT_BYTES - book.captured) else 0
  {}

  /** Appends as much of one read as the limits leave room for. */
  method Retain(codec: Codec, book: Book, stderr: bool, chunk: seq<octet>, sink: Sink, ghost chunks: seq<Chunk>, ghost seen: seq<Tagged>)
    returns (after: Book, ok: bool)
    requires Accounts(codec, book, chunks, seen) && 0 < |chunk| <= READ_BUFFER
    ensures ok <==> !(Room(chunks, |chunk|) > 0 && sink.Fails?)
    ensures ok ==> Accounts(codec, after, With(chunks, stderr, chunk), seen + Tag(stderr, chunk))
    ensures !ok ==> after.log <= Written(codec, With(chunks, stderr, chunk))
  {
    RoomCounted(codec, book, chunks, seen, |chunk|);
    var retained := if book.sequence < MAX_EVENTS then Min(|chunk|, MAX_OUTPUT_BYTES - book.captured) else 0;
    after := book.(truncated := book.truncated || retained < |chunk|);
    ok := true;
    if retained > 0 {
      AccountsAppended(codec, book, stderr, chunk, retained, chunks, seen);
      var log;
      log, ok := Append(book.log, Line(codec, book.sequence + 1, Chunk(stderr, chunk[..retained])), sink);
      after := Book(log, book.captured + retained, book.sequence + 1, after.truncated);
      assert ok ==> after == Entered(codec, book, stderr, chunk, retained);
    } else {
      AccountsDropped(codec, book, stderr, chunk, chunks, seen);
    }
  }

  /** One turn of the loop as far as the log goes. */
  method Take(codec: Codec, book: Book, standing: Standing, input: Input, ghost chunks: seq<Chunk>, ghost seen: seq<Tagged>)
    returns (after: Book, ok: bool)
    requires Accounts(codec, book, chunks, seen) && (input.Out? || input.Err? ==> |input.chunk| <= READ_BUFFER)
    ensures ok <==> !Fails(chunks, standing, input)
    ensures ok ==> Accounts(codec, after, Grown(chunks, standing, input), seen + Output(standing, input))
    ensures !ok ==> after.log <= Written(codec, Grown(chunks, standing, input))
  {
    if Reads(standing, input) {
      after, ok := Retain(codec, book, input.Err?, input.chunk, input.sink, chunks, seen);
    } else {
      assert Output(standing, input) == [] && seen + [] == seen;
      after, ok := book, true;
    }
  }

  // ---- What the inputs come to -------------------------------------------------------------

  predicate Decides(i: Input) { i.Exited? || i.CancelSent? || i.DeadlinePassed? }

  /** What a session is reported as once this has decided its end. */
  predicate Reported(s: Standing, i: Input) {
    match i
    case Exited(code) => s.state == Completed && s.exit == Some(code)
    case CancelSent => s.state == Cancelled && s.exit == Some(130)
    case DeadlinePassed => s.state == TimedOut && s.exit == Some(124)
    case _ => false
  }

  predicate Unbroken(inputs: seq<Input>) { forall k :: 0 <= k < |inputs| ==> !inputs[k].Broken? }

  predicate Undecided(inputs: seq<Input>) { forall k :: 0 <= k < |inputs| ==> !Decides(inputs[k]) }

  predicate EndsStream(i: Input, stderr: bool) { (if stderr then i.Err? else i.Out?) && i.chunk == [] }

  /** The stream has been read to its end. */
  predicate Closed(inputs: seq<Input>, stderr: bool) { exists k :: 0 <= k < |inputs| && EndsStream(inputs[k], stderr) }

  /** The first of the three to come decides, and whatever comes later changes nothing of it. */
  ghost predicate Stands(s: Standing, inputs: seq<Input>) {
    && (s.outOpen <==> !Closed(inputs, false)) && (s.errOpen <==> !Closed(inputs, true))
    && (Undecided(inputs) ==> s.state == Running && s.exit.None?)
    && (forall k :: 0 <= k < |inputs| && Decides(inputs[k]) && Undecided(inputs[..k]) ==> Reported(s, inputs[k]))
  }

  /** The output of both streams in the order it came, each up to its end. */
  function OutputOf(inputs: seq<Input>): seq<Tagged> {
    if inputs == [] then []
    else
      var front, i := inputs[..|inputs| - 1], inputs[|inputs| - 1];
      OutputOf(front) + if i.Out? && !Closed(front, false) then Tag(false, i.chunk)
                        else if i.Err? && !Closed(front, true) then Tag(true, i.chunk) else []
  }

  predicate ReadOut(inputs: seq<Input>) { !Undecided(inputs) && Closed(inputs, false) && Closed(inputs, true) }

  /** The loop is over before input `i`: decided and both streams read out, or nothing more to come, or broken, or
      the time to drain has passed. */
  predicate OverAt(inputs: seq<Input>, i: nat)
    requires i <= |inputs|
  {
    || ReadOut(inputs[..i])
    || i == |inputs| || inputs[i].Broken? || (inputs[i].DrainPassed? && !Undecided(inputs[..i]))
  }

  lemma ClosedNext(inputs: seq<Input>, i: Input, stderr: bool)
    ensures Closed(inputs + [i], stderr) <==> Closed(inputs, stderr) || EndsStream(i, stderr)
  {
    var more := inputs + [i];
    if Closed(inputs, stderr) {
      var k :| 0 <= k < |inputs| && EndsStream(inputs[k], stderr);
      assert more[k] == inputs[k];
    }
    if EndsStream(i, stderr) { assert more[|inputs|] == i; }
  }

  lemma UndecidedNext(inputs: seq<Input>, i: Input)
    ensures Undecided(inputs + [i]) <==> Undecided(inputs) && !Decides(i)
  {
    var more := inputs + [i];
    assert forall k :: 0 <= k < |inputs| ==> more[k] == inputs[k];
    assert more[|inputs|] == i;
    if Undecided(more) { assert forall k :: 0 <= k < |inputs| ==> !Decides(more[k]); }
  }

  /** Some input is the first to decide. */
  lemma {:induction false} FirstToDecide(inputs: seq<Input>) returns (k: nat)
    requires !Undecided(inputs)
    ensures k < |inputs| && Decides(inputs[k]) && Undecided(inputs[..k])
  {
    var front := inputs[..|inputs| - 1];
    if Undecided(front) {
      k := |inputs| - 1;
    } else {
      k := FirstToDecide(front);
      assert front[..k] == inputs[..k];
    }
  }

  lemma StandsDecided(s: Standing, inputs: seq<Input>)
    requires Stands(s, inputs)
    ensures s.exit.Some? <==> !Undecided(inputs)
  {
    if !Undecided(inputs) { var k := FirstToDecide(inputs); }
  }

  lemma ReportedNext(s: Standing, inputs: seq<Input>, i: Input, k: nat)
    requires Stands(s, inputs) && k <= |inputs| && Decides((inputs + [i])[k]) && Undecided((inputs + [i])[..k])
    ensures Reported(Next(s, i), (inputs + [i])[k])
  {
    var more := inputs + [i];
    assert more[..k] == inputs[..k];
    if k < |inputs| {
      assert more[k] == inputs[k];
    } else {
      assert inputs[..k] == inputs;
    }
  }

  lemma StandsNext(s: Standing, inputs: seq<Input>, i: Input)
    requires Stands(s, inputs)
    ensures Stands(Next(s, i), inputs + [i])
  {
    ClosedNext(inputs, i, false);
    ClosedNext(inputs, i, true);
    UndecidedNext(inputs, i);
    StandsDecided(s, inputs);
    forall k | 0 <= k < |inputs + [i]| && Decides((inputs + [i])[k]) && Undecided((inputs + [i])[..k])
      ensures Reported(Next(s, i), (inputs + [i])[k])
    {
      ReportedNext(s, inputs, i, k);
    }
  }

  lemma OutputNext(s: Standing, inputs: seq<Input>, i: Input)
    requires Stands(s, inputs)
    ensures OutputOf(inputs + [i]) == OutputOf(inputs) + Output(s, i)
  {
    assert (inputs + [i])[..|inputs|] == inputs;
  }

  lemma OverExactly(s: Standing, inputs: seq<Input>, i: nat)
    requires i <= |inputs| && Stands(s, inputs[..i])
    ensures OverAt(inputs, i) <==> Done(s) || i == |inputs| || Ends(s, inputs[i])
  {
    StandsDecided(s, inputs[..i]);
  }

  /** The input that decides counts, if nothing breaks before it. */
  lemma DeciderIsReached(inputs: seq<Input>, i: nat, used: nat)
    requires used <= |inputs| && OverAt(inputs, used)
    requires i < |inputs| && Decides(inputs[i]) && Undecided(inputs[..i]) && Unbroken(inputs[..i])
    ensures i < used
  {
    assert forall k :: 0 <= k < i ==> inputs[..i][k] == inputs[k];
    assert forall k :: 0 <= k < used ==> inputs[..used][k] == inputs[k];
    assert forall k :: 0 <= k < i ==> !Decides(inputs[..i][k]) && !inputs[..i][k].Broken?;
  }

  /** So the session is reported as that input says. */
  lemma Settled(inputs: seq<Input>, used: nat, s: Standing)
    requires used <= |inputs| && OverAt(inputs, used) && Stands(s, inputs[..used])
    ensures forall i :: 0 <= i < |inputs| && Decides(inputs[i]) && Undecided(inputs[..i]) && Unbroken(inputs[..i]) ==>
              Reported(s, inputs[i])
  {
    forall i | 0 <= i < |inputs| && Decides(inputs[i]) && Undecided(inputs[..i]) && Unbroken(inputs[..i])
      ensures Reported(s, inputs[i])
    {
      DeciderIsReached(inputs, i, used);
      assert inputs[..used][i] == inputs[i] && inputs[..used][..i] == inputs[..i];
    }
  }

  /** The loop has taken the inputs before `i`, and was over before none of them. */
  ghost predicate Taken(inputs: seq<Input>, i: nat, s: Standing, seen: seq<Tagged>) {
    && i <= |inputs| && Stands(s, inputs[..i]) && seen == OutputOf(inputs[..i])
    && forall k :: 0 <= k < i ==> !OverAt(inputs, k)
  }

  lemma TakenFirst(inputs: seq<Input>)
    ensures Taken(inputs, 0, FRESH, [])
  {}

  lemma TakenNext(inputs: seq<Input>, i: nat, s: Standing, seen: seq<Tagged>)
    requires i < |inputs| && Taken(inputs, i, s, seen) && !Done(s) && !Ends(s, inputs[i])
    ensures Taken(inputs, i + 1, Next(s, inputs[i]), seen + Output(s, inputs[i]))
  {
    StandsNext(s, inputs[..i], inputs[i]);
    OutputNext(s, inputs[..i], inputs[i]);
    OverExactly(s, inputs, i);
    assert inputs[..i + 1] == inputs[..i] + [inputs[i]];
  }

  /** The loop stands before input `i`. */
  ghost predicate Going(codec: Codec, inputs: seq<Input>, i: nat, book: Book, s: Standing, chunks: seq<Chunk>, seen: seq<Tagged>) {
    && i <= |inputs| && Accounts(codec, book, chunks, seen)
    && OnCourse(CourseOf(FRESH, inputs), s, inputs, i, seen)
    && OnRecord(Logged(FRESH, inputs, []), WriteFails(FRESH, inputs, []), s, inputs, i, chunks)
  }

  lemma GoingFirst(codec: Codec, inputs: seq<Input>)
    ensures Going(codec, inputs, 0, Book("", 0, 0, false), FRESH, [], [])
  {
    assert inputs[0..] == inputs;
    assert [] + CourseOf(FRESH, inputs).delivered == CourseOf(FRESH, inputs).delivered;
  }

  lemma GoingNext(codec: Codec, inputs: seq<Input>, i: nat, book: Book, s: Standing, chunks: seq<Chunk>, seen: seq<Tagged>, after: Book)
    requires Going(codec, inputs, i, book, s, chunks, seen) && i < |inputs| && !Done(s) && !Ends(s, inputs[i])
    ensures !Fails(chunks, s, inputs[i]) && Accounts(codec, after, Grown(chunks, s, inputs[i]), seen + Output(s, inputs[i])) ==>
              Going(codec, inputs, i + 1, after, Next(s, inputs[i]), Grown(chunks, s, inputs[i]), seen + Output(s, inputs[i]))
    ensures Fails(chunks, s, inputs[i]) && after.log <= Written(codec, Grown(chunks, s, inputs[i])) ==>
              WriteFails(FRESH, inputs, []) && after.log <= Written(codec, Logged(FRESH, inputs, []))
  {
    CourseStep(CourseOf(FRESH, inputs), s, inputs, i, seen);
    RecordStep(Logged(FRESH, inputs, []), WriteFails(FRESH, inputs, []), s, inputs, i, chunks);
    if after.log <= Written(codec, Grown(chunks, s, inputs[i])) {
      WrittenWithin(codec, Grown(chunks, s, inputs[i]), Logged(FRESH, inputs, []), after.log);
    }
  }

  function EndingAt(s: Standing, inputs: seq<Input>, i: nat): Ending
    requires i <= |inputs|
  {
    if Done(s) then Finished else if i == |inputs| then Waiting else if inputs[i].Broken? then Failed else Finished
  }

  lemma GoingEnds(codec: Codec, inputs: seq<Input>, i: nat, book: Book, s: Standing, chunks: seq<Chunk>, seen: seq<Tagged>)
    requires Going(codec, inputs, i, book, s, chunks, seen) && (Done(s) || i == |inputs| || Ends(s, inputs[i]))
    ensures CourseOf(FRESH, inputs) == Course(seen, s, EndingAt(s, inputs, i))
    ensures Logged(FRESH, inputs, []) == chunks && !WriteFails(FRESH, inputs, [])
  {
    CourseEnds(CourseOf(FRESH, inputs), s, inputs, i, seen);
  }

  /** The command runs its course, and the log holds a prefix of its output, all of it unless a limit was reached,
      and says so. If a write fails the run fails there, and the log is a piece of the one that would have been
      written. */
  method Run(codec: Codec, inputs: seq<Input>, syncs: bool)
    returns (book: Book, standing: Standing, ending: Ending, used: nat)
    requires Bounded(inputs)
    ensures used <= |inputs| && Stands(standing, inputs[..used]) && forall k :: 0 <= k < used ==> !OverAt(inputs, k)
    ensures !WriteFails(FRESH, inputs, []) ==>
              && OverAt(inputs, used) && Accounts(codec, book, Logged(FRESH, inputs, []), OutputOf(inputs[..used]))
              && (forall i :: 0 <= i < |inputs| && Decides(inputs[i]) && Undecided(inputs[..i]) && Unbroken(inputs[..i]) ==>
                    Reported(standing, inputs[i]))
              && (ending == Waiting <==> used == |inputs| && !ReadOut(inputs))
              && (ending == Finished <==> syncs && (ReadOut(inputs[..used]) || (used < |inputs| && inputs[used].DrainPassed?)))
    ensures !WriteFails(FRESH, inputs, []) ==>
              && Accounts(codec, book, Logged(FRESH, inputs, []), CourseOf(FRESH, inputs).delivered)
              && standing == CourseOf(FRESH, inputs).last
              && ending == if CourseOf(FRESH, inputs).ending == Finished && !syncs then Failed else CourseOf(FRESH, inputs).ending
    ensures WriteFails(FRESH, inputs, []) ==> ending == Failed && book.log <= Written(codec, Logged(FRESH, inputs, []))
  {
    book, standing, used := Book("", 0, 0, false), FRESH, 0;
    ghost var chunks: seq<Chunk>, seen: seq<Tagged> := [], [];
    GoingFirst(codec, inputs);
    TakenFirst(inputs);
    while !Done(standing) && used < |inputs| && !Ends(standing, inputs[used])
      invariant used <= |inputs| && Going(codec, inputs, used, book, standing, chunks, seen)
      invariant Taken(inputs, used, standing, seen)
    {
      var after, ok := Take(codec, book, standing, inputs[used], chunks, seen);
      GoingNext(codec, inputs, used, book, standing, chunks, seen, after);
      book := after;
      if !ok { return book, standing, Failed, used; }
      TakenNext(inputs, used, standing, seen);
      chunks, seen := Grown(chunks, standing, inputs[used]), seen + Output(standing, inputs[used]);
      standing := Next(standing, inputs[used]);
      used := used + 1;
    }
    OverExactly(standing, inputs, used);
    StandsDecided(standing, inputs[..used]);
    assert used == |inputs| ==> inputs[..used] == inputs;
    Settled(inputs, used, standing);
    GoingEnds(codec, inputs, used, book, standing, chunks, seen);
    ending := EndingAt(standing, inputs, used);
    if ending == Finished && !syncs { ending := Failed; }
  }
}
