/** The output log of a session: the lines the worker appends and the pages a reader makes of them. */
module SessionLog {
  import opened Common
  import opened Base64

  const MAX_OUTPUT_BYTES := 4 * 1024 * 1024
  const MAX_EVENTS := 4096
  const EVENT_PAGE_SIZE := 128
  const MAX_LOG_BYTES := 8 * 1024 * 1024
  const MAX_RECORD_BYTES := 16 * 1024
  const READ_BUFFER := 8192

  datatype Event = Event(sequence: nat, stream: string, data: string)

  // ---- One line ----------------------------------------------------------------------------

  function Digit(n: nat): char
    requires n < 10
  {
    (n + '0' as int) as char
  }

  function Digits(n: nat): string {
    if n < 10 then [Digit(n)] else Digits(n / 10) + [Digit(n % 10)]
  }

  predicate IsDigit(c: char) { '0' <= c <= '9' }

  function Number(s: string): Option<nat> {
    if s == "" then None
    else if !IsDigit(s[|s| - 1]) then None
    else if |s| == 1 then Some(s[0] as int - '0' as int)
    else match Number(s[..|s| - 1])
      case None => None
      case Some(n) => Some(n * 10 + (s[|s| - 1] as int - '0' as int))
  }

  const HEAD := "{\"sequence\":"
  const STREAM := ",\"stream\":\""
  const DATA := "\",\"data\":\""
  const CLOSE := "\"}"

  /** The JSON object of one event, without its newline. */
  function Render(e: Event): string { HEAD + Digits(e.sequence) + STREAM + e.stream + DATA + e.data + CLOSE }

  /** The part of `s` before the first `c`. */
  function Until(s: string, c: char): (p: string)
    ensures |p| <= |s| && p == s[..|p|]
  {
    if s == "" || s[0] == c then "" else [s[0]] + Until(s[1..], c)
  }

  /** A value up to `lead`, whose first sign ends the value, and what follows. */
  function Field(s: string, lead: string): Option<(string, string)>
    requires lead != ""
  {
    var v := Until(s, lead[0]);
    if lead <= s[|v|..] then Some((v, s[|v| + |lead|..])) else None
  }

  /** Reads the objects `Render` makes. */
  function Parse(line: string): Option<Event> {
    if !(HEAD <= line) then None
    else match Field(line[|HEAD|..], STREAM)
      case None => None
      case Some((digits, r)) =>
        match Field(r, DATA)
        case None => None
        case Some((stream, r)) =>
          match Field(r, CLOSE)
          case None => None
          case Some((data, r)) =>
            if r != "" || Number(digits).None? then None else Some(Event(Number(digits).value, stream, data))
  }

  lemma {:induction false} NumberOfDigits(n: nat)
    ensures Digits(n) != "" && Number(Digits(n)) == Some(n) && forall c :: c in Digits(n) ==> IsDigit(c)
  {
    if n >= 10 {
      NumberOfDigits(n / 10);
      assert Digits(n)[..|Digits(n)| - 1] == Digits(n / 10);
    }
  }

  lemma {:induction false} UntilMeets(p: string, c: char, rest: string)
    requires c !in p
    ensures Until(p + [c] + rest, c) == p
  {
    if p != "" {
      assert (p + [c] + rest)[1..] == p[1..] + [c] + rest;
      UntilMeets(p[1..], c, rest);
    }
  }

  lemma FieldReads(v: string, lead: string, rest: string)
    requires lead != "" && lead[0] !in v
    ensures Field(v + (lead + rest), lead) == Some((v, rest))
  {
    var s := v + (lead + rest);
    assert s == v + [lead[0]] + (lead[1..] + rest);
    UntilMeets(v, lead[0], lead[1..] + rest);
    assert s[|v|..] == lead + rest;
    assert lead <= lead + rest;
    assert s[|v| + |lead|..] == rest;
  }

  lemma RenderNested(e: Event)
    ensures Render(e) == HEAD + (Digits(e.sequence) + (STREAM + (e.stream + (DATA + (e.data + (CLOSE + ""))))))
  {}

  lemma ParseRendered(e: Event)
    requires '"' !in e.stream && '"' !in e.data
    ensures Parse(Render(e)) == Some(e)
  {
    NumberOfDigits(e.sequence);
    RenderNested(e);
    var r3 := e.data + (CLOSE + "");
    var r2 := e.stream + (DATA + r3);
    var r1 := Digits(e.sequence) + (STREAM + r2);
    FieldReads(Digits(e.sequence), STREAM, r2);
    FieldReads(e.stream, DATA, r3);
    FieldReads(e.data, CLOSE, "");
    assert HEAD <= HEAD + r1 && (HEAD + r1)[|HEAD|..] == r1;
  }

  // ---- The log -----------------------------------------------------------------------------

  /** What one read from a pipe retained. */
  datatype Chunk = Chunk(stderr: bool, bytes: seq<octet>)

  function EventOf(k: nat, c: Chunk): Event { Event(k, if c.stderr then "stderr" else "stdout", Encoded(c.bytes)) }

  function EventsOf(chunks: seq<Chunk>): seq<Event> {
    seq(|chunks|, i requires 0 <= i < |chunks| => EventOf(i + 1, chunks[i]))
  }

  /** How events become lines and lines events. */
  datatype Codec = Codec(render: Event -> string, parse: string -> Option<Event>)

  /** The line of a retained chunk is read back as its event, holds no newline of its own, and is as
      short as base64 and a four-digit sequence number allow. */
  ghost predicate Faithful(codec: Codec) {
    forall k: nat, c: Chunk :: k <= MAX_EVENTS ==>
      var line := codec.render(EventOf(k, c));
      && codec.parse(line) == Some(EventOf(k, c))
      && '\n' !in line
      && |line| < 46 + 4 * ((|c.bytes| + 2) / 3)
  }

  function Line(codec: Codec, k: nat, c: Chunk): string { codec.render(EventOf(k, c)) + "\n" }

  /** The file after these appends. */
  function Written(codec: Codec, chunks: seq<Chunk>): string {
    if chunks == [] then ""
    else Written(codec, chunks[..|chunks| - 1]) + Line(codec, |chunks|, chunks[|chunks| - 1])
  }

  function Total(chunks: seq<Chunk>): nat {
    if chunks == [] then 0 else Total(chunks[..|chunks| - 1]) + |chunks[|chunks| - 1].bytes|
  }

  /** What the worker's limits let into a log. */
  predicate Legal(chunks: seq<Chunk>) {
    && |chunks| <= 4096
    && Total(chunks) <= 4 * 1024 * 1024
    && forall i :: 0 <= i < |chunks| ==> 0 < |chunks[i].bytes| <= 8192
  }

  // ---- The JSON codec ----------------------------------------------------------------------

  const JSON := Codec(Render, Parse)

  lemma EncodedClean(d: seq<octet>)
    ensures '"' !in Encoded(d) && '\n' !in Encoded(d)
  {
    RoundTrip(d);
    DecodesWhen(Encoded(d));
    assert !Readable('"') && !Readable('\n');
  }

  lemma PiecesClean()
    ensures '\n' !in HEAD && '\n' !in STREAM && '\n' !in DATA && '\n' !in CLOSE
  {}

  lemma RenderClean(e: Event)
    requires '\n' !in e.stream && '\n' !in e.data
    ensures '\n' !in Render(e)
  {
    PiecesClean();
    NumberOfDigits(e.sequence);
    assert '\n' !in Digits(e.sequence);
    var front := HEAD + Digits(e.sequence) + STREAM;
    assert '\n' !in front;
    assert '\n' !in front + e.stream + DATA;
  }

  lemma RenderLength(k: nat, c: Chunk)
    requires k <= MAX_EVENTS
    ensures |Render(EventOf(k, c))| < 46 + 4 * ((|c.bytes| + 2) / 3)
  {
    EncodedLength(c.bytes);
    assert |Digits(k)| <= 4 by {
      if k >= 10 { assert Digits(k) == Digits(k / 10) + [Digit(k % 10)]; }
      if k >= 100 { assert Digits(k / 10) == Digits(k / 100) + [Digit(k / 10 % 10)]; }
      if k >= 1000 { assert Digits(k / 100) == Digits(k / 1000) + [Digit(k / 100 % 10)]; }
    }
  }

  lemma JsonIsFaithful()
    ensures Faithful(JSON)
  {
    forall k: nat, c: Chunk | k <= MAX_EVENTS
      ensures var line := JSON.render(EventOf(k, c));
              && JSON.parse(line) == Some(EventOf(k, c)) && '\n' !in line && |line| < 46 + 4 * ((|c.bytes| + 2) / 3)
    {
      EncodedClean(c.bytes);
      RenderClean(EventOf(k, c));
      ParseRendered(EventOf(k, c));
      RenderLength(k, c);
    }
  }

  // ---- Sizes -------------------------------------------------------------------------------

  lemma {:induction false} WrittenLength(codec: Codec, chunks: seq<Chunk>)
    requires Faithful(codec) && |chunks| <= MAX_EVENTS
    ensures 3 * |Written(codec, chunks)| <= 146 * |chunks| + 4 * Total(chunks)
  {
    if chunks != [] {
      var last := chunks[|chunks| - 1];
      WrittenLength(codec, chunks[..|chunks| - 1]);
      assert |Line(codec, |chunks|, last)| <= 46 + 4 * ((|last.bytes| + 2) / 3);
      assert 3 * (4 * ((|last.bytes| + 2) / 3)) <= 4 * (|last.bytes| + 2);
    }
  }

  /** No log the worker can write is too long for a reader. */
  lemma LogFits(codec: Codec, chunks: seq<Chunk>)
    requires Faithful(codec) && Legal(chunks)
    ensures |Written(codec, chunks)| <= 8 * 1024 * 1024
  {
    WrittenLength(codec, chunks);
  }

  /** Nor is any of its lines. */
  lemma RecordFits(codec: Codec, k: nat, c: Chunk)
    requires Faithful(codec) && k <= MAX_EVENTS && |c.bytes| <= READ_BUFFER
    ensures |Line(codec, k, c)| < 16 * 1024
  {
    assert codec.parse(codec.render(EventOf(k, c))).Some?;
  }

  lemma {:induction false} WrittenPrefix(codec: Codec, chunks: seq<Chunk>, k: nat)
    requires k <= |chunks|
    ensures Written(codec, chunks[..k]) <= Written(codec, chunks)
  {
    if k < |chunks| {
      var front := chunks[..|chunks| - 1];
      WrittenPrefix(codec, front, k);
      assert front[..k] == chunks[..k];
    } else {
      assert chunks[..k] == chunks;
    }
  }

  lemma WrittenNext(codec: Codec, chunks: seq<Chunk>, k: nat)
    requires k < |chunks|
    ensures Written(codec, chunks[..k + 1]) == Written(codec, chunks[..k]) + Line(codec, k + 1, chunks[k])
  {
    assert chunks[..k + 1][..k] == chunks[..k];
  }

  // ---- Reading -----------------------------------------------------------------------------

  datatype Page = Page(events: seq<Event>, nextCursor: nat, hasMore: bool)

  datatype Reading = Ok(page: Page) | LogTooLong | RecordTooLong | Malformed | BadSequence

  function PageOf(after: nat, got: seq<Event>, more: bool): Page {
    Page(got, if got == [] then after else got[|got| - 1].sequence, more)
  }

  /** How many bytes a limited read up to a newline takes. */
  function TakeLine(log: string, pos: nat, limit: nat): (n: nat)
    requires pos <= |log|
    ensures n <= limit && pos + n <= |log|
    decreases |log| - pos
  {
    if limit == 0 || pos == |log| then 0
    else if log[pos] == '\n' then 1
    else 1 + TakeLine(log, pos + 1, limit - 1)
  }

  datatype Next = TooLong | End | Bad | Got(event: Event, length: nat)

  /** The next complete line; an append in progress has no newline yet and is left for later. */
  function NextLine(codec: Codec, log: string, pos: nat): (next: Next)
    requires pos <= |log|
    ensures next.Got? ==> 0 < next.length && pos + next.length <= |log|
  {
    var n := TakeLine(log, pos, MAX_RECORD_BYTES);
    if n >= MAX_RECORD_BYTES then TooLong
    else if n == 0 || log[pos + n - 1] != '\n' then End
    else match codec.parse(log[pos..pos + n - 1])
      case None => Bad
      case Some(e) => Got(e, n)
  }

  function Scan(codec: Codec, log: string, pos: nat, previous: nat, after: nat, got: seq<Event>): Reading
    requires pos <= |log|
    decreases |log| - pos
  {
    match NextLine(codec, log, pos)
    case TooLong => RecordTooLong
    case End => Ok(PageOf(after, got, false))
    case Bad => Malformed
    case Got(e, n) =>
      if e.sequence != previous + 1 || e.sequence > MAX_EVENTS then BadSequence
      else if e.sequence <= after then Scan(codec, log, pos + n, e.sequence, after, got)
      else if |got| == EVENT_PAGE_SIZE then Ok(PageOf(after, got, true))
      else Scan(codec, log, pos + n, e.sequence, after, got + [e])
  }

  lemma ScanStep(codec: Codec, log: string, pos: nat, previous: nat, after: nat, got: seq<Event>, e: Event, n: nat)
    requires pos <= |log| && NextLine(codec, log, pos) == Got(e, n)
    requires e.sequence == previous + 1 <= MAX_EVENTS && (e.sequence <= after || |got| != EVENT_PAGE_SIZE)
    ensures Scan(codec, log, pos, previous, after, got)
         == Scan(codec, log, pos + n, e.sequence, after, if e.sequence <= after then got else got + [e])
  {}

  function Events(codec: Codec, log: string, after: nat): Reading {
    if |log| > MAX_LOG_BYTES then LogTooLong else Scan(codec, log, 0, 0, after, [])
  }

  method ReadEvents(codec: Codec, log: string, after: nat) returns (r: Reading)
    ensures r == Events(codec, log, after)
  {
    if |log| > MAX_LOG_BYTES { return LogTooLong; }
    var events: seq<Event> := [];
    var previous, pos := 0, 0;
    while true
      invariant 0 <= pos <= |log|
      invariant Events(codec, log, after) == Scan(codec, log, pos, previous, after, events)
      decreases |log| - pos
    {
      var next := NextLine(codec, log, pos);
      if next.TooLong? { return RecordTooLong; }
      if next.End? { break; }
      if next.Bad? { return Malformed; }
      var e := next.event;
      if e.sequence != previous + 1 || e.sequence > MAX_EVENTS { return BadSequence; }
      if e.sequence > after && |events| == EVENT_PAGE_SIZE { return Ok(PageOf(after, events, true)); }
      ScanStep(codec, log, pos, previous, after, events, e, next.length);
      previous := e.sequence;
      if e.sequence > after {
        events := events + [e];
      }
      pos := pos + next.length;
    }
    return Ok(PageOf(after, events, false));
  }

  // ---- What a reader makes of a log, torn anywhere ------------------------------------------

  lemma {:induction false} TakesToNewline(log: string, pos: nat, limit: nat, n: nat)
    requires pos + n < |log| && n < limit && log[pos + n] == '\n'
    requires forall i :: pos <= i < pos + n ==> log[i] != '\n'
    ensures TakeLine(log, pos, limit) == n + 1
    decreases n
  {
    if n > 0 { TakesToNewline(log, pos + 1, limit - 1, n - 1); }
  }

  lemma {:induction false} TakesToEnd(log: string, pos: nat, limit: nat)
    requires pos <= |log| && |log| - pos < limit
    requires forall i :: pos <= i < |log| ==> log[i] != '\n'
    ensures TakeLine(log, pos, limit) == |log| - pos
    decreases |log| - pos
  {
    if pos < |log| { TakesToEnd(log, pos + 1, limit - 1); }
  }

  lemma NextWhole(codec: Codec, log: string, pos: nat, line: string, e: Event)
    requires pos + |line| < |log| && log[pos..pos + |line|] == line && log[pos + |line|] == '\n'
    requires '\n' !in line && |line| + 1 < MAX_RECORD_BYTES && codec.parse(line) == Some(e)
    ensures NextLine(codec, log, pos) == Got(e, |line| + 1)
  {
    forall i | pos <= i < pos + |line| ensures log[i] != '\n' { assert log[i] == line[i - pos]; }
    TakesToNewline(log, pos, MAX_RECORD_BYTES, |line|);
  }

  lemma NextTorn(codec: Codec, log: string, pos: nat)
    requires pos <= |log| && |log| - pos < MAX_RECORD_BYTES && '\n' !in log[pos..]
    ensures NextLine(codec, log, pos) == End
  {
    forall i | pos <= i < |log| ensures log[i] != '\n' { assert log[i] == log[pos..][i - pos]; }
    TakesToEnd(log, pos, MAX_RECORD_BYTES);
  }

  /** The first `m` appends, and no more, are whole in the first `p` bytes. */
  ghost predicate AreWhole(codec: Codec, chunks: seq<Chunk>, m: nat, p: nat) {
    m <= |chunks| && |Written(codec, chunks[..m])| <= p && (m < |chunks| ==> p < |Written(codec, chunks[..m + 1])|)
  }

  lemma WholeInFront(codec: Codec, chunks: seq<Chunk>, m: nat, p: nat)
    requires chunks != [] && p < |Written(codec, chunks)| && AreWhole(codec, chunks[..|chunks| - 1], m, p)
    ensures AreWhole(codec, chunks, m, p)
  {
    var front := chunks[..|chunks| - 1];
    assert front[..m] == chunks[..m];
    assert m + 1 < |chunks| ==> front[..m + 1] == chunks[..m + 1];
    assert m + 1 == |chunks| ==> chunks[..m + 1] == chunks;
  }

  /** How many appends are whole in the first `p` bytes. */
  function Whole(codec: Codec, chunks: seq<Chunk>, p: nat): (m: nat)
    ensures AreWhole(codec, chunks, m, p)
  {
    if chunks == [] then 0
    else if |Written(codec, chunks)| <= p then assert chunks[..|chunks|] == chunks; |chunks|
    else
      var m := Whole(codec, chunks[..|chunks| - 1], p);
      WholeInFront(codec, chunks, m, p);
      m
  }

  /** The events after a cursor. */
  function Wanted(events: seq<Event>, after: nat): seq<Event> { if after <= |events| then events[after..] else [] }

  /** The page of a reader that sees exactly these events. */
  function PageFor(events: seq<Event>, after: nat): Page {
    var wanted := Wanted(events, after);
    PageOf(after, wanted[..Min(|wanted|, 128)], |wanted| > 128)
  }

  lemma WholeSlice(w: string, a: string, line: string, p: nat)
    requires a + (line + "\n") <= w && |a| + |line| + 1 <= p <= |w|
    ensures w[..p][|a|..|a| + |line|] == line && w[..p][|a| + |line|] == '\n'
  {
    var s := a + (line + "\n");
    assert w[..p][..|s|] == s;
    assert s[|a|..|a| + |line|] == line && s[|a| + |line|] == '\n';
  }

  lemma TornSlice(w: string, a: string, line: string, p: nat)
    requires a + (line + "\n") <= w && |a| <= p <= |a| + |line|
    ensures w[..p][|a|..] == line[..p - |a|]
  {
    var s := a + (line + "\n");
    assert w[..p] == s[..p];
  }

  lemma RecordAt(codec: Codec, chunks: seq<Chunk>, k: nat)
    requires k < |chunks|
    ensures Written(codec, chunks[..k]) + (codec.render(EventOf(k + 1, chunks[k])) + "\n") == Written(codec, chunks[..k + 1])
    ensures Written(codec, chunks[..k + 1]) <= Written(codec, chunks)
  {
    WrittenNext(codec, chunks, k);
    WrittenPrefix(codec, chunks, k + 1);
  }

  lemma WholeCovers(codec: Codec, chunks: seq<Chunk>, p: nat, k: nat)
    requires k < Whole(codec, chunks, p)
    ensures |Written(codec, chunks[..k + 1])| <= p
  {
    var m := Whole(codec, chunks, p);
    assert AreWhole(codec, chunks, m, p) && chunks[..m][..k + 1] == chunks[..k + 1];
    WrittenPrefix(codec, chunks[..m], k + 1);
  }

  /** The record of chunk `k` lies whole before `p`. */
  lemma RecordLies(codec: Codec, chunks: seq<Chunk>, p: nat, k: nat)
    requires k < Whole(codec, chunks, p)
    ensures |Written(codec, chunks[..k])| + |Line(codec, k + 1, chunks[k])| == |Written(codec, chunks[..k + 1])| <= p
  {
    RecordAt(codec, chunks, k);
    WholeCovers(codec, chunks, p, k);
  }

  lemma RecordIsNext(codec: Codec, w: string, a: string, p: nat, number: nat, c: Chunk)
    requires Faithful(codec) && number <= 4096 && |c.bytes| <= 8192
    requires p <= |w| && a + Line(codec, number, c) <= w && |a| + |Line(codec, number, c)| <= p
    ensures NextLine(codec, w[..p], |a|) == Got(EventOf(number, c), |Line(codec, number, c)|)
  {
    var line := codec.render(EventOf(number, c));
    RecordFits(codec, number, c);
    WholeSlice(w, a, line, p);
    NextWhole(codec, w[..p], |a|, line, EventOf(number, c));
  }

  lemma NextRecord(codec: Codec, chunks: seq<Chunk>, p: nat, k: nat)
    requires Faithful(codec) && Legal(chunks) && p <= |Written(codec, chunks)| && k < Whole(codec, chunks, p)
    ensures var log, pos := Written(codec, chunks)[..p], |Written(codec, chunks[..k])|;
            && pos + |Line(codec, k + 1, chunks[k])| == |Written(codec, chunks[..k + 1])| <= p
            && NextLine(codec, log, pos) == Got(EventOf(k + 1, chunks[k]), |Line(codec, k + 1, chunks[k])|)
  {
    RecordLies(codec, chunks, p, k);
    RecordAt(codec, chunks, k);
    RecordIsNext(codec, Written(codec, chunks), Written(codec, chunks[..k]), p, k + 1, chunks[k]);
  }

  lemma NoRecord(codec: Codec, chunks: seq<Chunk>, p: nat)
    requires Faithful(codec) && Legal(chunks) && p <= |Written(codec, chunks)|
    ensures NextLine(codec, Written(codec, chunks)[..p], |Written(codec, chunks[..Whole(codec, chunks, p)])|) == End
  {
    var m, w := Whole(codec, chunks, p), Written(codec, chunks);
    var a := Written(codec, chunks[..m]);
    if m < |chunks| {
      var line := codec.render(EventOf(m + 1, chunks[m]));
      RecordAt(codec, chunks, m);
      RecordFits(codec, m + 1, chunks[m]);
      TornSlice(w, a, line, p);
    } else {
      assert chunks[..m] == chunks;
    }
    NextTorn(codec, w[..p], |a|);
  }

  lemma WantedNext(chunks: seq<Chunk>, k: nat, after: nat)
    requires k < |chunks|
    ensures Wanted(EventsOf(chunks[..k + 1]), after)
         == Wanted(EventsOf(chunks[..k]), after) + if k + 1 <= after then [] else [EventOf(k + 1, chunks[k])]
  {
    assert EventsOf(chunks[..k + 1]) == EventsOf(chunks[..k]) + [EventOf(k + 1, chunks[k])];
  }

  lemma WantedPrefix(chunks: seq<Chunk>, k: nat, after: nat)
    requires k <= |chunks|
    ensures Wanted(EventsOf(chunks[..k]), after) <= Wanted(EventsOf(chunks), after)
  {
    assert EventsOf(chunks[..k]) == EventsOf(chunks)[..k];
  }

  /** A page is full and more is known to follow. */
  lemma FullPage(chunks: seq<Chunk>, m: nat, k: nat, after: nat)
    requires k < m <= |chunks| && after <= k && |Wanted(EventsOf(chunks[..k]), after)| == EVENT_PAGE_SIZE
    ensures PageFor(EventsOf(chunks[..m]), after) == PageOf(after, Wanted(EventsOf(chunks[..k]), after), true)
  {
    WantedNext(chunks, k, after);
    assert chunks[..m][..k + 1] == chunks[..k + 1];
    WantedPrefix(chunks[..m], k + 1, after);
  }

  lemma ScanEnds(codec: Codec, chunks: seq<Chunk>, p: nat, after: nat)
    requires Faithful(codec) && Legal(chunks) && p <= |Written(codec, chunks)|
    requires |Wanted(EventsOf(chunks[..Whole(codec, chunks, p)]), after)| <= EVENT_PAGE_SIZE
    ensures var m := Whole(codec, chunks, p);
            Scan(codec, Written(codec, chunks)[..p], |Written(codec, chunks[..m])|, m, after, Wanted(EventsOf(chunks[..m]), after))
            == Ok(PageFor(EventsOf(chunks[..m]), after))
  {
    NoRecord(codec, chunks, p);
    var got := Wanted(EventsOf(chunks[..Whole(codec, chunks, p)]), after);
    assert got[..|got|] == got;
  }

  lemma ScanFills(codec: Codec, chunks: seq<Chunk>, p: nat, after: nat, k: nat)
    requires Faithful(codec) && Legal(chunks) && p <= |Written(codec, chunks)| && after <= k < Whole(codec, chunks, p)
    requires |Wanted(EventsOf(chunks[..k]), after)| == EVENT_PAGE_SIZE && |Written(codec, chunks[..k])| <= p
    ensures Scan(codec, Written(codec, chunks)[..p], |Written(codec, chunks[..k])|, k, after, Wanted(EventsOf(chunks[..k]), after))
         == Ok(PageFor(EventsOf(chunks[..Whole(codec, chunks, p)]), after))
  {
    NextRecord(codec, chunks, p, k);
    FullPage(chunks, Whole(codec, chunks, p), k, after);
  }

  lemma ScanGoesOn(codec: Codec, chunks: seq<Chunk>, p: nat, after: nat, k: nat)
    requires Faithful(codec) && Legal(chunks) && p <= |Written(codec, chunks)| && k < Whole(codec, chunks, p)
    requires |Wanted(EventsOf(chunks[..k]), after)| < EVENT_PAGE_SIZE || k < after
    ensures |Written(codec, chunks[..k])| <= |Written(codec, chunks[..k + 1])| <= p
    ensures Scan(codec, Written(codec, chunks)[..p], |Written(codec, chunks[..k])|, k, after, Wanted(EventsOf(chunks[..k]), after))
         == Scan(codec, Written(codec, chunks)[..p], |Written(codec, chunks[..k + 1])|, k + 1, after,
                 Wanted(EventsOf(chunks[..k + 1]), after))
  {
    NextRecord(codec, chunks, p, k);
    WantedGrows(chunks, k, after);
    ScanTo(codec, Written(codec, chunks)[..p], |Written(codec, chunks[..k])|, k, after, Wanted(EventsOf(chunks[..k]), after),
           EventOf(k + 1, chunks[k]), |Written(codec, chunks[..k + 1])|, Wanted(EventsOf(chunks[..k + 1]), after));
  }

  lemma ScanTo(codec: Codec, log: string, pos: nat, k: nat, after: nat, got: seq<Event>, e: Event, next: nat, more: seq<Event>)
    requires pos <= next <= |log| && NextLine(codec, log, pos) == Got(e, next - pos)
    requires e.sequence == k + 1 <= MAX_EVENTS && (k + 1 <= after || |got| != EVENT_PAGE_SIZE)
    requires more == if k + 1 <= after then got else got + [e]
    ensures Scan(codec, log, pos, k, after, got) == Scan(codec, log, next, k + 1, after, more)
  {
    ScanStep(codec, log, pos, k, after, got, e, next - pos);
  }

  lemma WantedGrows(chunks: seq<Chunk>, k: nat, after: nat)
    requires k < |chunks|
    ensures Wanted(EventsOf(chunks[..k + 1]), after)
         == if k + 1 <= after then Wanted(EventsOf(chunks[..k]), after)
            else Wanted(EventsOf(chunks[..k]), after) + [EventOf(k + 1, chunks[k])]
  {
    WantedNext(chunks, k, after);
    assert Wanted(EventsOf(chunks[..k]), after) + [] == Wanted(EventsOf(chunks[..k]), after);
  }

  lemma {:induction false} ScanFrom(codec: Codec, chunks: seq<Chunk>, p: nat, after: nat, k: nat)
    requires Faithful(codec) && Legal(chunks) && p <= |Written(codec, chunks)| && k <= Whole(codec, chunks, p)
    requires |Wanted(EventsOf(chunks[..k]), after)| <= EVENT_PAGE_SIZE && |Written(codec, chunks[..k])| <= p
    ensures Scan(codec, Written(codec, chunks)[..p], |Written(codec, chunks[..k])|, k, after, Wanted(EventsOf(chunks[..k]), after))
         == Ok(PageFor(EventsOf(chunks[..Whole(codec, chunks, p)]), after))
    decreases |chunks| - k
  {
    if k == Whole(codec, chunks, p) {
      ScanEnds(codec, chunks, p, after);
    } else if after <= k && |Wanted(EventsOf(chunks[..k]), after)| == EVENT_PAGE_SIZE {
      ScanFills(codec, chunks, p, after, k);
    } else {
      ScanGoesOn(codec, chunks, p, after, k);
      WantedNext(chunks, k, after);
      ScanFrom(codec, chunks, p, after, k + 1);
    }
  }

  /** Cut a worker's log anywhere, and a reader accepts it and sees exactly the events whose lines are
      whole, a page at a time. */
  lemma TornLogReads(codec: Codec, chunks: seq<Chunk>, p: nat, after: nat)
    requires Faithful(codec) && Legal(chunks) && p <= |Written(codec, chunks)|
    ensures Events(codec, Written(codec, chunks)[..p], after) == Ok(PageFor(EventsOf(chunks[..Whole(codec, chunks, p)]), after))
  {
    LogFits(codec, chunks);
    assert chunks[..0] == [] && EventsOf([]) == [];
    ScanFrom(codec, chunks, p, after, 0);
  }

  lemma WholeLogReads(codec: Codec, chunks: seq<Chunk>, after: nat)
    requires Faithful(codec) && Legal(chunks)
    ensures Events(codec, Written(codec, chunks), after) == Ok(PageFor(EventsOf(chunks), after))
  {
    var p := |Written(codec, chunks)|;
    TornLogReads(codec, chunks, p, after);
    assert Written(codec, chunks)[..p] == Written(codec, chunks);
    assert chunks == [] || Whole(codec, chunks, p) == |chunks|;
    assert chunks[..|chunks|] == chunks;
  }
}
