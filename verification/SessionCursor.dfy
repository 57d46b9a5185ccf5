/** The client's polling loop over a session's log, against a worker that is still writing it. */
module SessionCursor {
  import opened Common
  import opened SessionLog
  import opened SessionWorker

  /** What happens to a session's directory: more bytes of its log become visible, and at last an outcome
      is published. */
  datatype Act = Append(bytes: nat) | Publish

  function Visible(acts: seq<Act>): nat {
    if acts == [] then 0
    else Visible(acts[..|acts| - 1]) + if acts[|acts| - 1].Append? then acts[|acts| - 1].bytes else 0
  }

  predicate Published(acts: seq<Act>) { Publish in acts }

  /** Bytes arrive in any pieces, torn anywhere, and the outcome only after the last of them. The log may end
      torn: after a failed write, or after a crash whose next reader reports the interruption. */
  ghost predicate Lawful(acts: seq<Act>, size: nat) {
    && Visible(acts) <= size
    && forall i :: 0 <= i < |acts| && acts[i].Publish? ==> Visible(acts[..i]) == size
  }

  lemma {:induction false} VisibleGrows(acts: seq<Act>, i: nat, j: nat)
    requires i <= j <= |acts|
    ensures Visible(acts[..i]) <= Visible(acts[..j]) && Visible(acts[..0]) == 0
    decreases j
  {
    if i < j {
      VisibleGrows(acts, i, j - 1);
      assert acts[..j][..j - 1] == acts[..j - 1];
    }
  }

  /** Whoever has seen the outcome published sees the whole log from then on. */
  lemma PublishedSeesAll(acts: seq<Act>, size: nat, status: nat, log: nat)
    requires Lawful(acts, size) && status <= log <= |acts| && Published(acts[..status])
    ensures Visible(acts[..log]) == size
  {
    var i :| 0 <= i < |acts[..status]| && acts[..status][i] == Publish;
    VisibleGrows(acts, i, log);
    VisibleGrows(acts, log, |acts|);
    assert acts[..|acts|] == acts;
  }

  // ---- One request -------------------------------------------------------------------------

  /** One request reads the status at one moment and the log at a later one. */
  datatype Poll = Poll(status: nat, log: nat)

  ghost predicate StatusFirst(polls: seq<Poll>, horizon: nat) {
    forall i :: 0 <= i < |polls| ==> polls[i].status <= polls[i].log <= horizon
  }

  /** More bytes, more whole events. */
  lemma WholeGrows(codec: Codec, chunks: seq<Chunk>, p: nat, q: nat)
    requires p <= q
    ensures Whole(codec, chunks, p) <= Whole(codec, chunks, q)
  {
    if Whole(codec, chunks, q) < Whole(codec, chunks, p) {
      WholeCovers(codec, chunks, p, Whole(codec, chunks, q));
    }
  }

  /** The events that can be read from the first `size` bytes of the log. */
  function Readable(codec: Codec, chunks: seq<Chunk>, size: nat): seq<Chunk> { chunks[..Whole(codec, chunks, size)] }

  /** A page carries the cursor over the events it holds. */
  lemma PageAdvances(chunks: seq<Chunk>, m: nat, after: nat)
    requires m <= |chunks|
    ensures var page := PageFor(EventsOf(chunks[..m]), after);
            if after <= m then
              && page.nextCursor == after + Min(m - after, EVENT_PAGE_SIZE)
              && page.events == EventsOf(chunks)[after..page.nextCursor]
              && (page.hasMore <==> m - after > EVENT_PAGE_SIZE)
            else page == Page([], after, false)
  {
    var all := EventsOf(chunks);
    assert EventsOf(chunks[..m]) == all[..m];
    if after <= m {
      var n := Min(m - after, EVENT_PAGE_SIZE);
      assert Wanted(all[..m], after) == all[after..m];
      assert all[after..m][..n] == all[after..after + n];
      assert n > 0 ==> all[after..after + n][n - 1] == all[after + n - 1];
    }
  }

  lemma PollFits(acts: seq<Act>, size: nat, poll: Poll)
    requires Visible(acts) <= size && poll.log <= |acts|
    ensures Visible(acts[..poll.log]) <= size
  {
    VisibleGrows(acts, poll.log, |acts|);
    assert acts[..|acts|] == acts;
  }

  /** The page a request brings back. */
  function Answer(codec: Codec, chunks: seq<Chunk>, acts: seq<Act>, poll: Poll, after: nat): Page
    requires poll.log <= |acts|
  {
    PageFor(EventsOf(Readable(codec, chunks, Visible(acts[..poll.log]))), after)
  }

  /** What a log of `size` bytes, torn or not, may look like to these polls. */
  ghost predicate Setting(codec: Codec, chunks: seq<Chunk>, size: nat, acts: seq<Act>) {
    Faithful(codec) && Legal(chunks) && Visible(acts) <= size <= |Written(codec, chunks)|
  }

  /** Whatever part of the log is visible, torn or not, the agent answers with that page. */
  lemma AgentAnswers(codec: Codec, chunks: seq<Chunk>, size: nat, acts: seq<Act>, poll: Poll, after: nat)
    requires Setting(codec, chunks, size, acts) && poll.log <= |acts|
    ensures Visible(acts[..poll.log]) <= |Written(codec, chunks)|
    ensures Events(codec, Written(codec, chunks)[..Visible(acts[..poll.log])], after) == Ok(Answer(codec, chunks, acts, poll, after))
  {
    PollFits(acts, size, poll);
    TornLogReads(codec, chunks, Visible(acts[..poll.log]), after);
  }

  /** The client holds the events between where it started and its cursor. */
  ghost predicate Holds(chunks: seq<Chunk>, start: nat, after: nat, yielded: seq<Event>) {
    if start <= |chunks| then start <= after <= |chunks| && yielded == EventsOf(chunks)[start..after]
    else after == start && yielded == []
  }

  /** What one answer adds. */
  ghost predicate Advances(chunks: seq<Chunk>, start: nat, after: nat, yielded: seq<Event>, ended: bool, page: Page) {
    && Holds(chunks, start, page.nextCursor, yielded + page.events) && after <= page.nextCursor
    && (page.hasMore ==> page.nextCursor == after + EVENT_PAGE_SIZE)
    && (ended && !page.hasMore ==> yielded + page.events == Wanted(EventsOf(chunks), start))
  }

  lemma HoldsNext(chunks: seq<Chunk>, m: nat, start: nat, after: nat, yielded: seq<Event>)
    requires m <= |chunks| && Holds(chunks, start, after, yielded)
    ensures Advances(chunks, start, after, yielded, m == |chunks|, PageFor(EventsOf(chunks[..m]), after))
  {
    PageAdvances(chunks, m, after);
    var all, page := EventsOf(chunks), PageFor(EventsOf(chunks[..m]), after);
    if after <= m && start <= |chunks| {
      assert all[start..after] + all[after..page.nextCursor] == all[start..page.nextCursor];
      assert page.nextCursor == |all| ==> all[start..page.nextCursor] == all[start..];
    } else {
      assert yielded + [] == yielded;
    }
  }

  lemma AdvancesAtLeast(chunks: seq<Chunk>, start: nat, after: nat, yielded: seq<Event>, ended: bool, sooner: bool, page: Page)
    requires Advances(chunks, start, after, yielded, ended, page) && (sooner ==> ended)
    ensures Advances(chunks, start, after, yielded, sooner, page)
  {}

  /** After a lawful outcome everything readable is there. */
  lemma WholeAtEnd(codec: Codec, chunks: seq<Chunk>, size: nat, acts: seq<Act>, poll: Poll)
    requires Visible(acts) <= size && poll.status <= poll.log <= |acts|
    ensures var now := Visible(acts[..poll.log]); var m := Whole(codec, chunks, now);
            && m <= |Readable(codec, chunks, size)| && Readable(codec, chunks, size)[..m] == Readable(codec, chunks, now)
            && (Lawful(acts, size) && Published(acts[..poll.status]) ==> m == |Readable(codec, chunks, size)|)
  {
    var now := Visible(acts[..poll.log]);
    PollFits(acts, size, poll);
    WholeGrows(codec, chunks, now, size);
    if Lawful(acts, size) && Published(acts[..poll.status]) { PublishedSeesAll(acts, size, poll.status, poll.log); }
  }

  lemma PollStep(codec: Codec, chunks: seq<Chunk>, size: nat, acts: seq<Act>, poll: Poll, start: nat, after: nat, yielded: seq<Event>)
    requires Visible(acts) <= size && poll.status <= poll.log <= |acts|
    requires Holds(Readable(codec, chunks, size), start, after, yielded)
    ensures Advances(Readable(codec, chunks, size), start, after, yielded, Lawful(acts, size) && Published(acts[..poll.status]),
                     Answer(codec, chunks, acts, poll, after))
  {
    var m, whole := Whole(codec, chunks, Visible(acts[..poll.log])), Readable(codec, chunks, size);
    WholeAtEnd(codec, chunks, size, acts, poll);
    HoldsNext(whole, m, start, after, yielded);
    AdvancesAtLeast(whole, start, after, yielded, m == |whole|, Lawful(acts, size) && Published(acts[..poll.status]),
                    Answer(codec, chunks, acts, poll, after));
  }

  /** One request: is the session over, and a page of its log. */
  method Fetch(codec: Codec, chunks: seq<Chunk>, ghost size: nat, acts: seq<Act>, poll: Poll, after: nat)
    returns (ended: bool, page: Page)
    requires Setting(codec, chunks, size, acts) && poll.status <= poll.log <= |acts|
    ensures ended == Published(acts[..poll.status]) && page == Answer(codec, chunks, acts, poll, after)
  {
    AgentAnswers(codec, chunks, size, acts, poll, after);
    var reading := ReadEvents(codec, Written(codec, chunks)[..Visible(acts[..poll.log])], after);
    return Published(acts[..poll.status]), reading.page;
  }

  // ---- The loop ----------------------------------------------------------------------------

  /** How many of these polls found the session ended. */
  ghost function Terminal(acts: seq<Act>, polls: seq<Poll>): nat
    requires StatusFirst(polls, |acts|)
  {
    if polls == [] then 0
    else Terminal(acts, polls[..|polls| - 1]) + if Published(acts[..polls[|polls| - 1].status]) then 1 else 0
  }

  lemma TerminalNext(acts: seq<Act>, polls: seq<Poll>, i: nat)
    requires i < |polls| && StatusFirst(polls, |acts|)
    ensures Terminal(acts, polls[..i + 1]) == Terminal(acts, polls[..i]) + if Published(acts[..polls[i].status]) then 1 else 0
  {
    assert polls[..i + 1][..i] == polls[..i];
  }

  lemma HoldsPrefix(chunks: seq<Chunk>, start: nat, after: nat, yielded: seq<Event>)
    requires Holds(chunks, start, after, yielded)
    ensures yielded <= Wanted(EventsOf(chunks), start) && (start <= after <= |chunks| || after == start)
  {}

  lemma WholeLogIsReadable(codec: Codec, chunks: seq<Chunk>)
    ensures Readable(codec, chunks, |Written(codec, chunks)|) == chunks
  {
    assert chunks[..|chunks|] == chunks;
  }

  /** Whatever happens to the directory, the client's loop has a prefix of the readable events after its cursor,
      each once and in order, and it ends once enough polls find the session ended. If nothing is appended after
      an outcome it ends with exactly those events, which are all of an untorn log's. */
  method IterEvents(codec: Codec, chunks: seq<Chunk>, ghost size: nat, acts: seq<Act>, polls: seq<Poll>, start: nat)
    returns (yielded: seq<Event>, finished: bool)
    requires Setting(codec, chunks, size, acts) && StatusFirst(polls, |acts|)
    ensures yielded <= Wanted(EventsOf(Readable(codec, chunks, size)), start)
    ensures finished && Lawful(acts, size) ==> yielded == Wanted(EventsOf(Readable(codec, chunks, size)), start)
    ensures finished && Lawful(acts, size) && size == |Written(codec, chunks)| ==> yielded == Wanted(EventsOf(chunks), start)
    ensures EVENT_PAGE_SIZE * Terminal(acts, polls) > |Readable(codec, chunks, size)| ==> finished
  {
    yielded, finished := [], false;
    var after: nat := start;
    var i := 0;
    ghost var whole := Readable(codec, chunks, size);
    while i < |polls|
      invariant 0 <= i <= |polls|
      invariant Holds(whole, start, after, yielded)
      invariant EVENT_PAGE_SIZE * Terminal(acts, polls[..i]) <= after - start
    {
      TerminalNext(acts, polls, i);
      PollStep(codec, chunks, size, acts, polls[i], start, after, yielded);
      var ended, page := Fetch(codec, chunks, size, acts, polls[i], after);
      yielded := yielded + page.events;
      after := page.nextCursor;
      if ended && !page.hasMore {
        HoldsPrefix(whole, start, after, yielded);
        WholeLogIsReadable(codec, chunks);
        finished := true;
        return;
      }
      i := i + 1;
    }
    HoldsPrefix(whole, start, after, yielded);
    assert polls[..i] == polls;
  }

  /** Whatever a run of the worker leaves in the file, a failed write included, is a setting for that loop. */
  lemma RunIsReadable(codec: Codec, inputs: seq<Input>, file: string, acts: seq<Act>)
    requires Faithful(codec) && Bounded(inputs) && file <= Written(codec, Logged(FRESH, inputs, [])) && Visible(acts) <= |file|
    ensures Setting(codec, Logged(FRESH, inputs, []), |file|, acts)
  {
    LoggedIsLegal(inputs);
  }
}
