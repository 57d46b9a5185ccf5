/** What a reader makes of a log file, whatever is in it. */
module SessionReading {
  import opened Common
  import opened SessionLog

  /** From `pos` on, `n` bytes up to and including a newline. */
  ghost predicate LineAt(log: string, pos: nat, n: nat) {
    && 0 < n && pos + n <= |log| && log[pos + n - 1] == '\n'
    && forall i :: pos <= i < pos + n - 1 ==> log[i] != '\n'
  }

  /** The file begins with these events, one on each line of less than 16 KiB, numbered from 1. */
  ghost predicate Begins(codec: Codec, log: string, ends: seq<nat>, events: seq<Event>) {
    && |ends| == |events| + 1 && ends[0] == 0 && ends[|events|] <= |log|
    && forall k :: 0 <= k < |events| ==> Good(codec, log, ends[k], ends[k + 1], k + 1, events[k])
  }

  ghost predicate Good(codec: Codec, log: string, from: nat, to: nat, number: nat, e: Event) {
    && from < to && LineAt(log, from, to - from) && to - from < 16 * 1024
    && codec.parse(log[from..to - 1]) == Some(e) && e.sequence == number <= 4096
  }

  /** What stops a reader after a good beginning. */
  ghost predicate Stops(codec: Codec, log: string, pos: nat, number: nat, after: nat, r: Reading) {
    match r
    case LogTooLong => false
    case RecordTooLong => pos + 16 * 1024 <= |log| && forall i :: pos <= i < pos + 16 * 1024 - 1 ==> log[i] != '\n'
    case Malformed => exists n :: LineAt(log, pos, n) && n < 16 * 1024 && codec.parse(log[pos..pos + n - 1]).None?
    case BadSequence =>
      exists n :: LineAt(log, pos, n) && n < 16 * 1024 && codec.parse(log[pos..pos + n - 1]).Some?
                  && !Good(codec, log, pos, pos + n, number, codec.parse(log[pos..pos + n - 1]).value)
    case Ok(page) =>
      if page.hasMore then number == after + 129 && exists to: nat, e :: Good(codec, log, pos, to, number, e)
      else pos <= |log| < pos + 16 * 1024 && forall i :: pos <= i < |log| ==> log[i] != '\n'
  }

  /** The reader has gone through these events, at most a page of them wanted; then this stopped it. */
  ghost predicate Explains(codec: Codec, log: string, after: nat, r: Reading, ends: seq<nat>, events: seq<Event>) {
    && Begins(codec, log, ends, events) && |events| <= after + 128
    && Stops(codec, log, ends[|events|], |events| + 1, after, r)
    && (r.Ok? ==> r.page.events == (if after <= |events| then events[after..] else [])
                  && r.page.nextCursor == if after <= |events| then |events| else after)
  }

  ghost predicate Explained(codec: Codec, log: string, after: nat, r: Reading) {
    exists ends, events :: Explains(codec, log, after, r, ends, events)
  }

  // ---- One line ----------------------------------------------------------------------------

  lemma {:induction false} TakeLineMeans(log: string, pos: nat, limit: nat)
    requires pos <= |log|
    ensures var n := TakeLine(log, pos, limit);
            && (forall i :: pos <= i < pos + n - 1 ==> log[i] != '\n')
            && (n < limit ==> pos + n == |log| || (n > 0 && log[pos + n - 1] == '\n'))
    decreases limit
  {
    if limit > 0 && pos < |log| && log[pos] != '\n' { TakeLineMeans(log, pos + 1, limit - 1); }
  }

  lemma NextLineMeans(codec: Codec, log: string, pos: nat)
    requires pos <= |log|
    ensures match NextLine(codec, log, pos)
            case TooLong => pos + 16 * 1024 <= |log| && forall i :: pos <= i < pos + 16 * 1024 - 1 ==> log[i] != '\n'
            case End => |log| < pos + 16 * 1024 && forall i :: pos <= i < |log| ==> log[i] != '\n'
            case Bad => exists n :: LineAt(log, pos, n) && n < 16 * 1024 && codec.parse(log[pos..pos + n - 1]).None?
            case Got(e, n) => LineAt(log, pos, n) && n < 16 * 1024 && codec.parse(log[pos..pos + n - 1]) == Some(e)
  {
    TakeLineMeans(log, pos, MAX_RECORD_BYTES);
    var n := TakeLine(log, pos, MAX_RECORD_BYTES);
    assert 0 < n < MAX_RECORD_BYTES && log[pos + n - 1] == '\n' ==> LineAt(log, pos, n);
  }

  // ---- The whole file ----------------------------------------------------------------------

  lemma BeginsNext(codec: Codec, log: string, ends: seq<nat>, events: seq<Event>, n: nat, e: Event)
    requires Begins(codec, log, ends, events)
    requires Good(codec, log, ends[|events|], ends[|events|] + n, |events| + 1, e)
    ensures Begins(codec, log, ends + [ends[|events|] + n], events + [e])
  {}

  lemma WantedNext(events: seq<Event>, e: Event, after: nat)
    ensures Wanted(events + [e], after) == if |events| < after then Wanted(events, after) else Wanted(events, after) + [e]
  {}

  lemma StopIs(codec: Codec, log: string, ends: seq<nat>, events: seq<Event>, after: nat, r: Reading)
    requires Begins(codec, log, ends, events) && |events| <= after + 128
    requires Stops(codec, log, ends[|events|], |events| + 1, after, r)
    requires r.Ok? ==> r.page == PageOf(after, Wanted(events, after), r.page.hasMore)
    ensures Explained(codec, log, after, r)
  {
    if r.Ok? && after < |events| {
      assert Good(codec, log, ends[|events| - 1], ends[|events|], |events|, events[|events| - 1]);
    }
    assert Explains(codec, log, after, r, ends, events);
  }

  /** Whatever is not another good event stops the reader, and so does one more than a page. */
  lemma ScanStops(codec: Codec, log: string, ends: seq<nat>, events: seq<Event>, after: nat, next: Next)
    requires Begins(codec, log, ends, events) && |events| <= after + 128
    requires next == NextLine(codec, log, ends[|events|])
    requires next.Got? && next.event.sequence == |events| + 1 <= 4096 ==> |events| == after + 128
    ensures Explained(codec, log, after, Scan(codec, log, ends[|events|], |events|, after, Wanted(events, after)))
  {
    var pos, number := ends[|events|], |events| + 1;
    NextLineMeans(codec, log, pos);
    assert next.Got? && next.event.sequence == number <= 4096 ==> Good(codec, log, pos, pos + next.length, number, next.event);
    StopIs(codec, log, ends, events, after, Scan(codec, log, pos, |events|, after, Wanted(events, after)));
  }

  lemma {:induction false} ScanMeans(codec: Codec, log: string, ends: seq<nat>, events: seq<Event>, after: nat)
    requires Begins(codec, log, ends, events) && |events| <= after + 128
    ensures Explained(codec, log, after, Scan(codec, log, ends[|events|], |events|, after, Wanted(events, after)))
    decreases |log| - ends[|events|]
  {
    var pos, next := ends[|events|], NextLine(codec, log, ends[|events|]);
    if next.Got? && next.event.sequence == |events| + 1 <= 4096 && |events| < after + 128 {
      var n, e := next.length, next.event;
      NextLineMeans(codec, log, pos);
      BeginsNext(codec, log, ends, events, n, e);
      WantedNext(events, e, after);
      ScanMeans(codec, log, ends + [pos + n], events + [e], after);
    } else {
      ScanStops(codec, log, ends, events, after, next);
    }
  }

  /** The answer to a reader of any file: too long exactly above 8 MiB; otherwise it is told by the file's good
      beginning, as far as the page goes, and by what comes there next. */
  lemma FileIsRead(codec: Codec, log: string, after: nat)
    ensures if |log| > 8 * 1024 * 1024 then Events(codec, log, after) == LogTooLong
            else Explained(codec, log, after, Events(codec, log, after))
  {
    if |log| <= MAX_LOG_BYTES { ScanMeans(codec, log, [0], [], after); }
  }
}
