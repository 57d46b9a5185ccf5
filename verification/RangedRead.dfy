/** Chunked file transfer: the agent's clamped ranges, and the client's loop that puts them together. */
module RangedRead {
  import opened Common
  import opened Base64

  /** A guest file at one moment. */
  datatype File = File(data: seq<octet>, modified: Option<nat>)

  type Identity = (nat, Option<nat>)

  function IdentityOf(f: File): Identity { (|f.data|, f.modified) }

  // ---- The agent ---------------------------------------------------------------------------

  datatype Response = Read(data: string, size: nat, totalSize: nat, modified: Option<nat>) | TooLarge

  /** At most `n` bytes from `offset`; past the end there are none. */
  function Take(data: seq<octet>, offset: nat, n: nat): (r: seq<octet>)
    ensures |r| <= n
  {
    if offset >= |data| then [] else data[offset..Min(|data|, offset + n)]
  }

  /** `ReadFile`: the size and time are those of `meta`, the bytes those of `body`, the same file a
      moment later. A range is clamped to the ceiling; only a whole read of an oversized file errs. */
  method ReadFile(meta: File, body: File, offset: nat, len: Option<nat>, max: nat) returns (r: Response)
    ensures r == Answer(meta, body, offset, len, max)
  {
    var want := Min(if len.Some? then len.value else max, max);
    var ranged := len.Some? || offset > 0;
    var data := Take(body.data, offset, want + 1);
    if |data| > want {
      if !ranged { return TooLarge; }
      data := data[..want];
    }
    TakeShorter(body.data, offset, want);
    var text := Encode(data);
    return Read(text, |data|, |meta.data|, meta.modified);
  }

  lemma TakeShorter(data: seq<octet>, offset: nat, n: nat)
    ensures if |Take(data, offset, n + 1)| > n then Take(data, offset, n + 1)[..n] == Take(data, offset, n)
            else Take(data, offset, n + 1) == Take(data, offset, n)
  {}

  /** What the agent answers. */
  function Answer(meta: File, body: File, offset: nat, len: Option<nat>, max: nat): Response {
    var want := Min(if len.Some? then len.value else max, max);
    if len.None? && offset == 0 && |body.data| > want then TooLarge
    else Read(Encoded(Take(body.data, offset, want)), |Take(body.data, offset, want)|, |meta.data|, meta.modified)
  }

  // ---- The client --------------------------------------------------------------------------

  datatype Transfer = Complete | FileChanged | Unsupported | BadRange | BadChunkSize | Unfinished

  function Joined(chunks: seq<seq<octet>>): seq<octet> {
    if chunks == [] then [] else Joined(chunks[..|chunks| - 1]) + chunks[|chunks| - 1]
  }

  lemma JoinedNext(chunks: seq<seq<octet>>, c: seq<octet>)
    ensures Joined(chunks + [c]) == Joined(chunks) + c
  {
    assert (chunks + [c])[..|chunks|] == chunks;
  }

  /** The file as one request finds it, and as that request's read finds it. */
  datatype Moment = Moment(meta: File, body: File)

  ghost predicate SameIdentity(moments: seq<Moment>, n: nat, id: Identity)
    requires n <= |moments|
  {
    forall i :: 0 <= i < n ==> IdentityOf(moments[i].meta) == id
  }

  /** The file does not change within a request, nor while its size and time stay as in `f`. */
  ghost predicate Stamped(moments: seq<Moment>, f: File) {
    forall i :: 0 <= i < |moments| ==>
      && moments[i].body == moments[i].meta
      && (IdentityOf(moments[i].meta) == IdentityOf(f) ==> moments[i].meta == f)
  }

  /** The chunks with one more, unless it is empty. */
  function With(chunks: seq<seq<octet>>, data: seq<octet>): seq<seq<octet>> { if data != [] then chunks + [data] else chunks }

  lemma WithJoined(chunks: seq<seq<octet>>, data: seq<octet>)
    ensures Joined(With(chunks, data)) == Joined(chunks) + data
  {
    JoinedNext(chunks, data);
    assert Joined(chunks) + [] == Joined(chunks);
  }

  /** What `n` answered requests that all found `f` have brought over. */
  ghost predicate Progress(f: File, chunks: seq<seq<octet>>, n: nat, step: nat) {
    && |Joined(chunks)| <= |f.data| && Joined(chunks) == f.data[..|Joined(chunks)|]
    && n * step <= |Joined(chunks)|
  }

  lemma TakeContinues(data: seq<octet>, offset: nat, step: nat)
    requires offset <= |data|
    ensures data[..offset] + Take(data, offset, step) == data[..Min(|data|, offset + step)]
  {}

  lemma ProgressNext(f: File, chunks: seq<seq<octet>>, n: nat, step: nat)
    requires Progress(f, chunks, n, step)
    ensures var data := Take(f.data, |Joined(chunks)|, step);
            var more := With(chunks, data);
            && Joined(more) <= f.data
            && (|Joined(more)| < |f.data| ==> Progress(f, more, n + 1, step))
            && (step > 0 && |Joined(chunks)| < |f.data| ==> data != [])
  {
    var data := Take(f.data, |Joined(chunks)|, step);
    TakeContinues(f.data, |Joined(chunks)|, step);
    WithJoined(chunks, data);
    assert (n + 1) * step == n * step + step;
  }

  /** Each chunk is what its own request found at the offset reached by those before it. */
  ghost predicate Pieces(moments: seq<Moment>, chunks: seq<seq<octet>>, step: nat) {
    if chunks == [] then true
    else
      var front, k := chunks[..|chunks| - 1], |chunks| - 1;
      k < |moments| && Pieces(moments, front, step) && chunks[k] == Take(moments[k].body.data, |Joined(front)|, step)
  }

  lemma PiecesNext(moments: seq<Moment>, chunks: seq<seq<octet>>, step: nat)
    requires Pieces(moments, chunks, step) && |chunks| < |moments|
    ensures Pieces(moments, chunks + [Take(moments[|chunks|].body.data, |Joined(chunks)|, step)], step)
  {
    assert (chunks + [Take(moments[|chunks|].body.data, |Joined(chunks)|, step)])[..|chunks|] == chunks;
  }

  lemma {:induction false} PieceAt(moments: seq<Moment>, chunks: seq<seq<octet>>, step: nat, k: nat)
    requires Pieces(moments, chunks, step) && k < |chunks|
    ensures k < |moments| && chunks[k] == Take(moments[k].body.data, |Joined(chunks[..k])|, step)
    decreases |chunks|
  {
    if k < |chunks| - 1 {
      PieceAt(moments, chunks[..|chunks| - 1], step, k);
      assert chunks[..|chunks| - 1][..k] == chunks[..k];
    }
  }

  /** The request after these chunks brought more than the announced size leaves room for, or nothing too early. */
  ghost predicate OutOfRange(now: Moment, chunks: seq<seq<octet>>, step: nat) {
    var offset, data := |Joined(chunks)|, Take(now.body.data, |Joined(chunks)|, step);
    offset + |data| > |now.meta.data| || (data == [] && offset < |now.meta.data|)
  }

  /** What a finished transfer promises whatever happened to the file meanwhile. */
  ghost predicate Sound(moments: seq<Moment>, outcome: Transfer, chunks: seq<seq<octet>>, used: nat, step: nat) {
    && used <= |moments| && Pieces(moments, chunks, step)
    && (outcome.Complete? ==>
          && 0 < used && SameIdentity(moments, used, IdentityOf(moments[0].meta))
          && |Joined(chunks)| == |moments[0].meta.data| && |chunks| <= used)
    && (outcome.FileChanged? ==>
          && 1 < used && SameIdentity(moments, used - 1, IdentityOf(moments[0].meta))
          && IdentityOf(moments[used - 1].meta) != IdentityOf(moments[0].meta))
    && (outcome.Unsupported? ==> 0 < used && moments[used - 1].meta.modified.None?)
    && (outcome.BadRange? ==> 0 < used && OutOfRange(moments[used - 1], chunks, step))
    && (outcome.FileChanged? || outcome.Unsupported? || outcome.BadRange? ==> |chunks| == used - 1)
    && (outcome.Unfinished? ==>
          used == |moments| == |chunks| && (0 < used ==> |Joined(chunks)| < |moments[0].meta.data|))
    && (outcome.BadChunkSize? ==> chunks == [] && used == 0)
  }

  /** What it promises when a change always shows in the size or the time. */
  ghost predicate Whole(f: File, outcome: Transfer, chunks: seq<seq<octet>>, used: nat, step: nat) {
    && Joined(chunks) <= f.data
    && (outcome.Complete? ==> Joined(chunks) == f.data)
    && (outcome.BadRange? ==> step == 0)
    && (outcome.Unfinished? ==> used * step <= |f.data|)
  }

  /** Every request so far found the same size and time, and there is more to come. */
  ghost predicate Underway(moments: seq<Moment>, chunks: seq<seq<octet>>, used: nat, identity: Option<Identity>, step: nat) {
    && used <= |moments| && |chunks| == used && Pieces(moments, chunks, step)
    && (used == 0 ==> identity.None?)
    && (used > 0 ==>
          && identity == Some(IdentityOf(moments[0].meta)) && |Joined(chunks)| < |moments[0].meta.data|
          && SameIdentity(moments, used, IdentityOf(moments[0].meta)))
  }

  lemma StopIsSound(moments: seq<Moment>, chunks: seq<seq<octet>>, used: nat, identity: Option<Identity>, step: nat, outcome: Transfer)
    requires Underway(moments, chunks, used, identity, step) && used < |moments|
    requires || (outcome.Unsupported? && moments[used].meta.modified.None?)
             || (outcome.FileChanged? && identity.Some? && IdentityOf(moments[used].meta) != identity.value)
             || (outcome.BadRange? && OutOfRange(moments[used], chunks, step))
    ensures Sound(moments, outcome, chunks, used + 1, step)
  {}

  lemma UnderwayNext(moments: seq<Moment>, chunks: seq<seq<octet>>, used: nat, identity: Option<Identity>, step: nat)
    requires Underway(moments, chunks, used, identity, step) && used < |moments|
    requires identity.None? || IdentityOf(moments[used].meta) == identity.value
    requires !OutOfRange(moments[used], chunks, step)
    ensures var now, data := moments[used], Take(moments[used].body.data, |Joined(chunks)|, step);
            var more := With(chunks, data);
            && |Joined(more)| == |Joined(chunks)| + |data|
            && (if |Joined(more)| == |now.meta.data| then Sound(moments, Complete, more, used + 1, step)
                else Underway(moments, more, used + 1, Some(IdentityOf(now.meta)), step))
  {
    WithJoined(chunks, Take(moments[used].body.data, |Joined(chunks)|, step));
    PiecesNext(moments, chunks, step);
  }

  /** If changes show, the chunks are the front of the file first found. */
  ghost predicate OnTrack(moments: seq<Moment>, chunks: seq<seq<octet>>, used: nat, step: nat) {
    moments != [] && Stamped(moments, moments[0].meta) ==> Progress(moments[0].meta, chunks, used, step)
  }

  /** What is then promised of a transfer that ends here. */
  ghost predicate Kept(moments: seq<Moment>, outcome: Transfer, chunks: seq<seq<octet>>, used: nat, step: nat) {
    moments != [] && Stamped(moments, moments[0].meta) ==> Whole(moments[0].meta, outcome, chunks, used, step)
  }

  lemma TrackStops(moments: seq<Moment>, chunks: seq<seq<octet>>, used: nat, step: nat, outcome: Transfer)
    requires OnTrack(moments, chunks, used, step) && (outcome.Unsupported? || outcome.FileChanged? || outcome.Unfinished?)
    ensures Kept(moments, outcome, chunks, if outcome.Unfinished? then used else used + 1, step)
  {}

  lemma TrackNext(moments: seq<Moment>, chunks: seq<seq<octet>>, used: nat, step: nat)
    requires OnTrack(moments, chunks, used, step) && used < |moments|
    requires IdentityOf(moments[used].meta) == IdentityOf(moments[0].meta)
    ensures var now := moments[used];
            var more := With(chunks, Take(now.body.data, |Joined(chunks)|, step));
            && (OutOfRange(now, chunks, step) ==> Kept(moments, BadRange, chunks, used + 1, step))
            && (if |Joined(more)| == |now.meta.data| then Kept(moments, Complete, more, used + 1, step)
                else |Joined(more)| < |now.meta.data| ==> OnTrack(moments, more, used + 1, step))
  {
    if Stamped(moments, moments[0].meta) {
      ProgressNext(moments[0].meta, chunks, used, step);
      WithJoined(chunks, Take(moments[used].body.data, |Joined(chunks)|, step));
    }
  }

  /** One request and its answer, decoded. */
  method Fetch(now: Moment, offset: nat, chunkSize: nat, max: nat) returns (data: seq<octet>, current: Identity)
    ensures data == Take(now.body.data, offset, Min(chunkSize, max)) && current == IdentityOf(now.meta)
  {
    var value := ReadFile(now.meta, now.body, offset, Some(chunkSize), max);
    var decoded := Decode(value.data);
    RoundTrip(Take(now.body.data, offset, Min(chunkSize, max)));
    return decoded.value, (value.totalSize, value.modified);
  }

  /** The loop's variables before a request. */
  ghost predicate Before(moments: seq<Moment>, chunks: seq<seq<octet>>, used: nat, offset: nat, identity: Option<Identity>, step: nat) {
    Underway(moments, chunks, used, identity, step) && offset == |Joined(chunks)| && OnTrack(moments, chunks, used, step)
  }

  ghost predicate Ends(moments: seq<Moment>, outcome: Transfer, chunks: seq<seq<octet>>, used: nat, step: nat) {
    Sound(moments, outcome, chunks, used, step) && Kept(moments, outcome, chunks, used, step) && !outcome.BadChunkSize?
  }

  lemma EndsEarly(moments: seq<Moment>, chunks: seq<seq<octet>>, used: nat, offset: nat, identity: Option<Identity>, step: nat,
                  outcome: Transfer)
    requires Before(moments, chunks, used, offset, identity, step) && used < |moments|
    requires || (outcome.Unsupported? && moments[used].meta.modified.None?)
             || (outcome.FileChanged? && identity.Some? && IdentityOf(moments[used].meta) != identity.value)
    ensures Ends(moments, outcome, chunks, used + 1, step)
  {
    StopIsSound(moments, chunks, used, identity, step, outcome);
    TrackStops(moments, chunks, used, step, outcome);
  }

  lemma EndsBadly(moments: seq<Moment>, chunks: seq<seq<octet>>, used: nat, offset: nat, identity: Option<Identity>, step: nat)
    requires Before(moments, chunks, used, offset, identity, step) && used < |moments|
    requires (identity.None? || IdentityOf(moments[used].meta) == identity.value) && OutOfRange(moments[used], chunks, step)
    ensures Ends(moments, BadRange, chunks, used + 1, step)
  {
    StopIsSound(moments, chunks, used, identity, step, BadRange);
    TrackNext(moments, chunks, used, step);
  }

  lemma GoesOn(moments: seq<Moment>, chunks: seq<seq<octet>>, used: nat, offset: nat, identity: Option<Identity>, step: nat)
    requires Before(moments, chunks, used, offset, identity, step) && used < |moments|
    requires (identity.None? || IdentityOf(moments[used].meta) == identity.value) && !OutOfRange(moments[used], chunks, step)
    ensures var now, data := moments[used], Take(moments[used].body.data, offset, step);
            if offset + |data| == |now.meta.data| then Ends(moments, Complete, With(chunks, data), used + 1, step)
            else Before(moments, With(chunks, data), used + 1, offset + |data|, Some(IdentityOf(now.meta)), step)
  {
    UnderwayNext(moments, chunks, used, identity, step);
    TrackNext(moments, chunks, used, step);
  }

  /** One turn of the loop: how the transfer ends, or the variables for the next request. */
  method Turn(moments: seq<Moment>, chunks: seq<seq<octet>>, used: nat, offset: nat, identity: Option<Identity>,
              chunkSize: nat, max: nat)
    returns (outcome: Option<Transfer>, more: seq<seq<octet>>, next: nat, current: Identity)
    requires Before(moments, chunks, used, offset, identity, Min(chunkSize, max)) && used < |moments|
    ensures outcome.Some? ==> Ends(moments, outcome.value, more, used + 1, Min(chunkSize, max))
    ensures outcome.None? ==> Before(moments, more, used + 1, next, Some(current), Min(chunkSize, max))
  {
    ghost var step := Min(chunkSize, max);
    var data;
    data, current := Fetch(moments[used], offset, chunkSize, max);
    more, next := chunks, offset;
    if current.1.None? {
      EndsEarly(moments, chunks, used, offset, identity, step, Unsupported);
      return Some(Unsupported), more, next, current;
    }
    if identity.Some? && current != identity.value {
      EndsEarly(moments, chunks, used, offset, identity, step, FileChanged);
      return Some(FileChanged), more, next, current;
    }
    if |data| > chunkSize || offset + |data| > current.0 || (data == [] && offset < current.0) {
      EndsBadly(moments, chunks, used, offset, identity, step);
      return Some(BadRange), more, next, current;
    }
    GoesOn(moments, chunks, used, offset, identity, step);
    if data != [] {
      more := chunks + [data];
      next := offset + |data|;
    }
    outcome := if next == current.0 then Some(Complete) else None;
  }

  /** `iter_file`: each chunk is what its request found, a transfer completes only if every request found the same
      size and time, and reports a change otherwise; unless the ceiling is zero, enough requests always settle it. */
  method IterFile(moments: seq<Moment>, chunkSize: nat, max: nat)
    returns (outcome: Transfer, chunks: seq<seq<octet>>, used: nat)
    ensures outcome.BadChunkSize? <==> !(1 <= chunkSize <= 1048576)
    ensures Sound(moments, outcome, chunks, used, Min(chunkSize, max))
    ensures Kept(moments, outcome, chunks, used, Min(chunkSize, max))
  {
    chunks, used := [], 0;
    if !(1 <= chunkSize <= 1048576) { return BadChunkSize, chunks, used; }
    var offset := 0;
    var identity: Option<Identity> := None;
    while used < |moments|
      invariant Before(moments, chunks, used, offset, identity, Min(chunkSize, max))
    {
      var end, more, next, current := Turn(moments, chunks, used, offset, identity, chunkSize, max);
      chunks, used, offset, identity := more, used + 1, next, Some(current);
      if end.Some? { return end.value, chunks, used; }
    }
    TrackStops(moments, chunks, used, Min(chunkSize, max), Unfinished);
    return Unfinished, chunks, used;
  }

  // ---- Changes that do not show ------------------------------------------------------------

  lemma OneJoined(chunks: seq<seq<octet>>)
    requires |chunks| == 1
    ensures Joined(chunks) == chunks[0]
  {
    JoinedNext([], chunks[0]);
    assert chunks == [] + [chunks[0]];
  }

  lemma TwoJoined(chunks: seq<seq<octet>>)
    requires |chunks| == 2
    ensures Joined(chunks[..1]) == chunks[0] && Joined(chunks) == chunks[0] + chunks[1]
  {
    OneJoined(chunks[..1]);
    JoinedNext(chunks[..1], chunks[1]);
    assert chunks == chunks[..1] + [chunks[1]];
  }

  ghost predicate Twins(a: File, b: File, step: nat) {
    IdentityOf(a) == IdentityOf(b) && a.modified.Some? && 0 < step && |a.data| == 2 * step
  }

  lemma FirstPiece(a: File, b: File, step: nat, chunks: seq<seq<octet>>)
    requires Twins(a, b, step) && Pieces([Moment(a, a), Moment(b, b)], chunks, step) && chunks != []
    ensures chunks[0] == a.data[..step]
  {
    PieceAt([Moment(a, a), Moment(b, b)], chunks, step, 0);
    assert |Joined(chunks[..0])| == 0;
  }

  lemma SecondPiece(a: File, b: File, step: nat, chunks: seq<seq<octet>>)
    requires Twins(a, b, step) && Pieces([Moment(a, a), Moment(b, b)], chunks, step) && |chunks| == 2
    requires Joined(chunks[..1]) == a.data[..step]
    ensures chunks[1] == b.data[step..]
  {
    PieceAt([Moment(a, a), Moment(b, b)], chunks, step, 1);
  }

  lemma {:induction false} NoMorePieces(moments: seq<Moment>, chunks: seq<seq<octet>>, step: nat)
    requires Pieces(moments, chunks, step)
    ensures |chunks| <= |moments|
  {}

  lemma SplicePieces(a: File, b: File, step: nat, chunks: seq<seq<octet>>)
    requires Twins(a, b, step) && Pieces([Moment(a, a), Moment(b, b)], chunks, step)
    ensures chunks == [] ==> Joined(chunks) == []
    ensures |chunks| == 1 ==> Joined(chunks) == a.data[..step]
    ensures |chunks| == 2 ==> Joined(chunks) == a.data[..step] + b.data[step..]
  {
    if chunks != [] { FirstPiece(a, b, step, chunks); }
    if |chunks| == 1 { OneJoined(chunks); }
    if |chunks| == 2 {
      TwoJoined(chunks);
      SecondPiece(a, b, step, chunks);
    }
  }

  /** A change that keeps size and time is not noticed: the transfer completes with the front of one file and the
      back of the other. */
  lemma UnseenChangeSplices(a: File, b: File, step: nat, outcome: Transfer, chunks: seq<seq<octet>>, used: nat)
    requires Twins(a, b, step) && Sound([Moment(a, a), Moment(b, b)], outcome, chunks, used, step) && !outcome.BadChunkSize?
    ensures outcome.Complete? && Joined(chunks) == a.data[..step] + b.data[step..]
  {
    SplicePieces(a, b, step, chunks);
    NoMorePieces([Moment(a, a), Moment(b, b)], chunks, step);
  }
}
