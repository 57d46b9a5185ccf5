/** The netlink messages the agent sends and the address dump it reads back (section 2.3.2 of RFC 3549
    for the message header, 3.1 for the address message). Words are little-endian, as on the guest. */
module Netlink {
  import opened Common

  type half = x: int | 0 <= x < 0x1_0000
  type word = x: int | 0 <= x < 0x1_0000_0000

  const NLMSG_ERROR := 2
  const NLMSG_DONE := 3
  const RTM_NEWADDR := 20
  const ADD_FLAGS := 0x001 + 0x004 + 0x400 + 0x100
  const AF_INET := 2
  const IFA_ADDRESS := 1
  const IFA_LOCAL := 2

  // ---- Words -------------------------------------------------------------------------------

  function Half(v: half): (b: seq<octet>)
    ensures |b| == 2
  {
    [v % 0x100, v / 0x100]
  }

  function Word(v: word): (b: seq<octet>)
    ensures |b| == 4
  {
    var q := v / 0x100;
    var p := q / 0x100;
    [v % 0x100, q % 0x100, p % 0x100, p / 0x100]
  }

  function HalfAt(b: seq<octet>, i: nat): half
    requires i + 2 <= |b|
  {
    b[i] as int + 0x100 * b[i + 1] as int
  }

  function WordAt(b: seq<octet>, i: nat): word
    requires i + 4 <= |b|
  {
    b[i] as int + 0x100 * b[i + 1] as int + 0x1_0000 * b[i + 2] as int + 0x100_0000 * b[i + 3] as int
  }

  lemma WordReturns(v: word)
    ensures WordAt(Word(v), 0) == v
  {}

  lemma HalfReturns(v: half)
    ensures HalfAt(Half(v), 0) == v
  {}

  function Align4(n: nat): (m: nat)
    ensures n <= m < n + 4 && m % 4 == 0
  {
    (n + 3) / 4 * 4
  }

  // ---- Encoders ----------------------------------------------------------------------------

  type octets = o: seq<octet> | |o| == 4 witness [0, 0, 0, 0]

  datatype Address = Address(ifindex: word, octets: octets, prefix: octet)

  function Pad(b: seq<octet>): seq<octet> { b + seq(Align4(|b|) - |b|, _ => 0) }

  /** `push_attr`, on what has been pushed so far. */
  function WithAttr(buf: seq<octet>, kind: half, payload: seq<octet>): seq<octet>
    requires 4 + |payload| < 0x1_0000
  {
    Pad(buf + Half(4 + |payload|) + Half(kind) + payload)
  }

  method PushAttr(buf: seq<octet>, kind: half, payload: seq<octet>) returns (out: seq<octet>)
    requires 4 + |payload| < 0x1_0000
    ensures out == WithAttr(buf, kind, payload)
  {
    out := buf;
    out := out + Half(4 + |payload|);
    out := out + Half(kind);
    out := out + payload;
    out := out + seq(Align4(|out|) - |out|, _ => 0);
  }

  /** The message header after its length. */
  function Head(kind: half, flags: half, sequence: word): (b: seq<octet>)
    ensures |b| == 12
  {
    Half(kind) + Half(flags) + Word(sequence) + Word(0)
  }

  function Attr(kind: half, o: octets): (b: seq<octet>)
    ensures |b| == 8
  {
    Half(8) + Half(kind) + o
  }

  function Body(a: Address): (b: seq<octet>)
    ensures |b| == 8
  {
    [AF_INET, a.prefix, 0, 0] + Word(a.ifindex)
  }

  /** The message as it goes out, its own length in front. */
  function AddressMessage(sequence: word, a: Address): (b: seq<octet>)
    ensures |b| == 40
  {
    Word(40) + Head(RTM_NEWADDR, ADD_FLAGS, sequence) + Body(a) + Attr(IFA_LOCAL, a.octets) + Attr(IFA_ADDRESS, a.octets)
  }

  /** Every byte of it: length 40, RTM_NEWADDR, the flags for a request that is acknowledged, creates and replaces, the
      sequence number, no port; an IPv4 address of the interface; the address twice, as the local one first. */
  lemma MessageBytes(sequence: word, a: Address)
    ensures AddressMessage(sequence, a) ==
            [40, 0, 0, 0, 20, 0, 0x05, 0x05, sequence % 0x100, sequence / 0x100 % 0x100, sequence / 0x1_0000 % 0x100,
             sequence / 0x100_0000, 0, 0, 0, 0, 2, a.prefix, 0, 0, a.ifindex % 0x100, a.ifindex / 0x100 % 0x100,
             a.ifindex / 0x1_0000 % 0x100, a.ifindex / 0x100_0000] + [8, 0, 2, 0] + a.octets + [8, 0, 1, 0] + a.octets
  {
    WordBytes(sequence);
    WordBytes(a.ifindex);
    WordBytes(40);
    WordBytes(0);
  }

  lemma WordBytes(v: word)
    ensures Word(v) == [v % 0x100, v / 0x100 % 0x100, v / 0x1_0000 % 0x100, v / 0x100_0000]
  {}

  lemma AttrNeedsNoPadding(buf: seq<octet>, kind: half, o: octets)
    requires |buf| % 4 == 0
    ensures WithAttr(buf, kind, o) == buf + Attr(kind, o)
  {
    assert buf + Half(4 + |o|) + Half(kind) + o == buf + Attr(kind, o);
    assert Align4(|buf + Attr(kind, o)|) == |buf + Attr(kind, o)|;
  }

  /** `finalize`: the total length goes over the placeholder. */
  method Finalize(buf: seq<octet>) returns (out: seq<octet>)
    requires 4 <= |buf| < 0x1_0000_0000
    ensures out == Word(|buf|) + buf[4..]
  {
    out := Word(|buf|) + buf[4..];
  }

  /** `add_addr_msg`: pushed field by field, the length patched in last. */
  method AddAddrMsg(sequence: word, a: Address) returns (buf: seq<octet>)
    ensures buf == AddressMessage(sequence, a)
  {
    var head := Head(RTM_NEWADDR, ADD_FLAGS, sequence);
    buf := Word(0) + head;
    buf := buf + [AF_INET];
    buf := buf + [a.prefix];
    buf := buf + [0];
    buf := buf + [0];
    buf := buf + Word(a.ifindex);
    assert buf == Word(0) + head + Body(a);
    AttrNeedsNoPadding(buf, IFA_LOCAL, a.octets);
    buf := PushAttr(buf, IFA_LOCAL, a.octets);
    AttrNeedsNoPadding(buf, IFA_ADDRESS, a.octets);
    buf := PushAttr(buf, IFA_ADDRESS, a.octets);
    assert buf[4..] == head + Body(a) + Attr(IFA_LOCAL, a.octets) + Attr(IFA_ADDRESS, a.octets);
    buf := Finalize(buf);
  }

  // ---- The dump parser ---------------------------------------------------------------------

  datatype Entry = Entry(octets: octets, prefix: octet)

  /** Reading past the end of the buffer stops the process. */
  datatype Found = Found(entries: seq<Entry>) | Panic

  /** The address attribute of one message, looked for from `a` on. */
  function AttrFrom(m: seq<octet>, a: nat): Option<octets>
    decreases |m| - a
  {
    if a + 4 > |m| then None
    else
      var n, kind := HalfAt(m, a), HalfAt(m, a + 2);
      if n < 4 || a + n > |m| then None
      else if (kind == IFA_LOCAL || kind == IFA_ADDRESS) && n >= 8 then Some(m[a + 4..a + 8])
      else AttrFrom(m, a + Align4(n))
  }

  function Drop(b: seq<octet>, n: nat): seq<octet> { if n <= |b| then b[n..] else [] }

  /** The buffer starts with a message that fits in it. */
  predicate Starts(b: seq<octet>) { |b| >= 16 && 16 <= WordAt(b, 0) <= |b| }

  function KindOf(b: seq<octet>): half requires Starts(b) { HalfAt(b, 4) }

  function LengthOf(b: seq<octet>): (n: word)
    requires Starts(b)
    ensures 16 <= n <= |b|
  {
    WordAt(b, 0)
  }

  /** What is left after the first message. */
  function After(b: seq<octet>): (rest: seq<octet>)
    requires Starts(b)
    ensures |rest| < |b|
  {
    Drop(b, Align4(LengthOf(b)))
  }

  predicate Stops(b: seq<octet>) { !Starts(b) || KindOf(b) == NLMSG_DONE || KindOf(b) == NLMSG_ERROR }

  /** The entry the first message contributes. */
  function FirstEntry(b: seq<octet>, ifindex: word): seq<Entry>
    requires Starts(b) && (KindOf(b) == RTM_NEWADDR ==> |b| >= 24)
  {
    if KindOf(b) == RTM_NEWADDR && b[16] == AF_INET && WordAt(b, 20) == ifindex then
      match AttrFrom(b[..LengthOf(b)], 24)
      case None => []
      case Some(o) => [Entry(o, b[17])]
    else []
  }

  function Prepend(es: seq<Entry>, f: Found): Found {
    match f
    case Panic => Panic
    case Found(more) => Found(es + more)
  }

  function ParseFrom(b: seq<octet>, ifindex: word): Found
    decreases |b|
  {
    if Stops(b) then Found([])
    else if KindOf(b) == RTM_NEWADDR && |b| < 24 then Panic
    else Prepend(FirstEntry(b, ifindex), ParseFrom(After(b), ifindex))
  }

  function HasDoneFrom(b: seq<octet>): bool
    decreases |b|
  {
    Starts(b) && (KindOf(b) == NLMSG_DONE || HasDoneFrom(After(b)))
  }

  lemma SliceReads(buf: seq<octet>, off: nat, len: nat, i: nat)
    requires off + len <= |buf| && i + 2 <= len
    ensures HalfAt(buf[off..off + len], i) == HalfAt(buf, off + i)
  {}

  lemma SliceOfSlice(buf: seq<octet>, off: nat, len: nat, i: nat)
    requires off + len <= |buf| && i + 4 <= len
    ensures buf[off..off + len][i..i + 4] == buf[off + i..off + i + 4]
  {
    var x, y := buf[off..off + len][i..i + 4], buf[off + i..off + i + 4];
    assert forall k :: 0 <= k < 4 ==> x[k] == buf[off + (i + k)] && y[k] == buf[off + i + k];
  }

  lemma DropReads(buf: seq<octet>, off: nat, i: nat)
    requires off + i + 4 <= |buf|
    ensures WordAt(Drop(buf, off), i) == WordAt(buf, off + i) && HalfAt(Drop(buf, off), i) == HalfAt(buf, off + i)
    ensures Drop(buf, off)[i] == buf[off + i] && Drop(buf, off)[i + 1] == buf[off + i + 1]
  {}

  lemma DropStep(buf: seq<octet>, off: nat, n: nat)
    ensures Drop(Drop(buf, off), n) == Drop(buf, off + n)
  {}

  /** The inner loop: the attributes of the message at `off`. */
  method FindAttr(buf: seq<octet>, off: nat, len: nat) returns (r: Option<octets>)
    requires off + len <= |buf|
    ensures r == AttrFrom(buf[off..off + len], 24)
  {
    ghost var m := buf[off..off + len];
    var a := off + 24;
    while a + 4 <= off + len
      invariant off + 24 <= a
      invariant AttrFrom(m, 24) == AttrFrom(m, a - off)
      decreases off + len - a
    {
      var n, kind := HalfAt(buf, a), HalfAt(buf, a + 2);
      SliceReads(buf, off, len, a - off);
      SliceReads(buf, off, len, a - off + 2);
      if n < 4 || a + n > off + len { return None; }
      if (kind == IFA_LOCAL || kind == IFA_ADDRESS) && n >= 8 {
        SliceOfSlice(buf, off, len, a - off + 4);
        return Some(buf[a + 4..a + 8]);
      }
      a := a + Align4(n);
    }
    return None;
  }

  /** The entry of the message at `off`, which fits in the buffer. */
  method EntryAt(buf: seq<octet>, off: nat, ifindex: word) returns (es: seq<Entry>)
    requires Starts(Drop(buf, off)) && (KindOf(Drop(buf, off)) == RTM_NEWADDR ==> off + 24 <= |buf|)
    ensures es == FirstEntry(Drop(buf, off), ifindex)
  {
    ghost var b := Drop(buf, off);
    var len, kind := WordAt(buf, off), HalfAt(buf, off + 4);
    DropReads(buf, off, 0);
    DropReads(buf, off, 4);
    es := [];
    if kind == RTM_NEWADDR {
      DropReads(buf, off, 16);
      DropReads(buf, off, 20);
      if buf[off + 16] == AF_INET && WordAt(buf, off + 20) == ifindex {
        var found := FindAttr(buf, off, len);
        assert b[..len] == buf[off..off + len];
        if found.Some? { es := [Entry(found.value, buf[off + 17])]; }
      }
    }
  }

  /** What one turn of either loop finds at `off`. */
  lemma TurnAt(buf: seq<octet>, off: nat)
    requires off + 16 <= |buf|
    ensures Starts(Drop(buf, off)) <==> 16 <= WordAt(buf, off) && off + WordAt(buf, off) <= |buf|
    ensures Starts(Drop(buf, off)) ==>
              && LengthOf(Drop(buf, off)) == WordAt(buf, off) && KindOf(Drop(buf, off)) == HalfAt(buf, off + 4)
              && Drop(Drop(buf, off), Align4(WordAt(buf, off))) == Drop(buf, off + Align4(WordAt(buf, off)))
  {
    DropReads(buf, off, 0);
    DropReads(buf, off, 4);
    DropStep(buf, off, Align4(WordAt(buf, off)));
  }

  /** The header at `off`: whether a message fits there, its kind, and where the next one starts. */
  method ReadHeader(buf: seq<octet>, off: nat) returns (fits: bool, kind: half, next: nat)
    requires off + 16 <= |buf|
    ensures fits <==> Starts(Drop(buf, off))
    ensures fits ==> kind == KindOf(Drop(buf, off)) && next > off && Drop(buf, next) == After(Drop(buf, off))
  {
    TurnAt(buf, off);
    var len := WordAt(buf, off);
    kind := HalfAt(buf, off + 4);
    fits := len >= 16 && off + len <= |buf|;
    next := off + Align4(len);
  }

  /** `parse_dump_addrs`. */
  method ParseDumpAddrs(buf: seq<octet>, ifindex: word) returns (r: Found)
    ensures r == ParseFrom(buf, ifindex)
  {
    var out: seq<Entry> := [];
    var off := 0;
    ghost var rest, answer := buf, ParseFrom(buf, ifindex);
    assert Prepend([], answer) == answer;
    while off + 16 <= |buf|
      invariant 0 <= off && rest == Drop(buf, off)
      invariant answer == Prepend(out, ParseFrom(rest, ifindex))
      decreases |buf| - off
    {
      var fits, kind, next := ReadHeader(buf, off);
      if !fits { break; }
      if kind == NLMSG_DONE || kind == NLMSG_ERROR { break; }
      if kind == RTM_NEWADDR && off + 24 > |buf| { return Panic; }
      ParseStep(rest, ifindex, out);
      var es := EntryAt(buf, off, ifindex);
      out := out + es;
      rest := After(rest);
      off := next;
    }
    assert Stops(rest) && out + [] == out;
    return Found(out);
  }

  lemma ParseStep(b: seq<octet>, ifindex: word, before: seq<Entry>)
    requires !Stops(b) && (KindOf(b) == RTM_NEWADDR ==> |b| >= 24)
    ensures Prepend(before, ParseFrom(b, ifindex)) == Prepend(before + FirstEntry(b, ifindex), ParseFrom(After(b), ifindex))
  {
    var rest := ParseFrom(After(b), ifindex);
    if rest.Found? {
      assert before + (FirstEntry(b, ifindex) + rest.entries) == before + FirstEntry(b, ifindex) + rest.entries;
    }
  }

  /** `dump_has_done`. */
  method DumpHasDone(buf: seq<octet>) returns (r: bool)
    ensures r == HasDoneFrom(buf)
  {
    var off := 0;
    ghost var rest, answer := buf, HasDoneFrom(buf);
    while off + 16 <= |buf|
      invariant 0 <= off && rest == Drop(buf, off)
      invariant answer == HasDoneFrom(rest)
      decreases |buf| - off
    {
      var fits, kind, next := ReadHeader(buf, off);
      if !fits { break; }
      if kind == NLMSG_DONE { return true; }
      rest := After(rest);
      off := next;
    }
    assert !Starts(rest);
    return false;
  }

  // ---- What a dump gives back --------------------------------------------------------------

  /** One complete message, padded as the kernel pads. */
  predicate Framed(m: seq<octet>) { Starts(m) && LengthOf(m) == |m| && |m| % 4 == 0 }

  /** A reply is address messages among messages of other kinds. */
  datatype Item = Sent(sequence: word, address: Address) | Other(message: seq<octet>)

  predicate Carried(i: Item) {
    i.Other? ==> Framed(i.message) && KindOf(i.message) !in [3, 2, 20]
  }

  function BytesOf(i: Item): seq<octet> {
    match i
    case Sent(sequence, a) => AddressMessage(sequence, a)
    case Other(m) => m
  }

  function Reply(items: seq<Item>): seq<octet> {
    if items == [] then [] else BytesOf(items[0]) + Reply(items[1..])
  }

  function EntryOf(i: Item, ifindex: word): seq<Entry> {
    if i.Sent? && i.address.ifindex == ifindex then [Entry(i.address.octets, i.address.prefix)] else []
  }

  function EntriesOn(items: seq<Item>, ifindex: word): seq<Entry> {
    if items == [] then [] else EntryOf(items[0], ifindex) + EntriesOn(items[1..], ifindex)
  }

  lemma WordInFront(v: word, rest: seq<octet>)
    ensures WordAt(Word(v) + rest, 0) == v
  {
    WordReturns(v);
  }

  lemma ReadInside(a: seq<octet>, b: seq<octet>, c: seq<octet>)
    requires |b| >= 4
    ensures WordAt(a + b + c, |a|) == WordAt(b, 0) && HalfAt(a + b + c, |a|) == HalfAt(b, 0)
  {
    var s := a + b + c;
    assert s[|a|] == b[0] && s[|a| + 1] == b[1] && s[|a| + 2] == b[2] && s[|a| + 3] == b[3];
  }

  /** The fields of an address message, where the parser looks for them. */
  lemma AddressFields(sequence: word, a: Address)
    ensures var m := AddressMessage(sequence, a);
            && WordAt(m, 0) == 40 && HalfAt(m, 4) == RTM_NEWADDR
            && m[16] == AF_INET && m[17] == a.prefix && WordAt(m, 20) == a.ifindex
            && HalfAt(m, 24) == 8 && HalfAt(m, 26) == IFA_LOCAL && m[28..32] == a.octets
  {
    var m, head, attr := AddressMessage(sequence, a), Head(RTM_NEWADDR, ADD_FLAGS, sequence), Attr(IFA_LOCAL, a.octets);
    var front := Word(40) + head + [AF_INET, a.prefix, 0, 0];
    var rest := Attr(IFA_ADDRESS, a.octets);
    WordReturns(40);
    WordReturns(a.ifindex);
    HalfReturns(RTM_NEWADDR);
    HalfReturns(8);
    HalfReturns(IFA_LOCAL);
    assert m == Word(40) + (head + Body(a) + attr + rest);
    WordInFront(40, head + Body(a) + attr + rest);
    assert m == Word(40) + head + (Body(a) + attr + rest);
    ReadInside(Word(40), head, Body(a) + attr + rest);
    assert head[0] == Half(RTM_NEWADDR)[0] && head[1] == Half(RTM_NEWADDR)[1];
    assert m == front + Word(a.ifindex) + (attr + rest);
    ReadInside(front, Word(a.ifindex), attr + rest);
    assert m == Word(40) + head + Body(a) + attr + rest;
    ReadInside(Word(40) + head + Body(a), attr, rest);
    assert attr[0] == Half(8)[0] && attr[1] == Half(8)[1];
    assert m[26] == Half(IFA_LOCAL)[0] && m[27] == Half(IFA_LOCAL)[1];
    assert m[28..32] == a.octets;
  }

  /** A framed message in front of more: it is read as it stands and the rest is left. */
  lemma FrontMessage(m: seq<octet>, rest: seq<octet>)
    requires Framed(m)
    ensures Starts(m + rest) && LengthOf(m + rest) == |m| && KindOf(m + rest) == KindOf(m) && After(m + rest) == rest
  {
    ReadInside([], m, rest);
    assert [] + m + rest == m + rest;
    assert HalfAt(m + rest, 4) == HalfAt(m, 4);
    assert Align4(|m|) == |m|;
  }

  lemma AddressIsFramed(sequence: word, a: Address)
    ensures var m := AddressMessage(sequence, a); Framed(m) && KindOf(m) == RTM_NEWADDR
  {
    AddressFields(sequence, a);
  }

  lemma AddressIsFound(sequence: word, a: Address, rest: seq<octet>, ifindex: word)
    ensures var b := AddressMessage(sequence, a) + rest;
            && Starts(b) && KindOf(b) == RTM_NEWADDR && |b| >= 24
            && FirstEntry(b, ifindex) == if a.ifindex == ifindex then [Entry(a.octets, a.prefix)] else []
  {
    var m := AddressMessage(sequence, a);
    AddressIsFramed(sequence, a);
    AddressFields(sequence, a);
    FrontMessage(m, rest);
    assert (m + rest)[..40] == m;
    assert (m + rest)[16] == m[16] && (m + rest)[17] == m[17];
    assert WordAt(m + rest, 20) == WordAt(m, 20);
  }

  lemma ItemParses(i: Item, rest: seq<octet>, ifindex: word)
    requires Carried(i)
    ensures ParseFrom(BytesOf(i) + rest, ifindex) == Prepend(EntryOf(i, ifindex), ParseFrom(rest, ifindex))
    ensures HasDoneFrom(BytesOf(i) + rest) == HasDoneFrom(rest)
  {
    if i.Sent? {
      AddressIsFramed(i.sequence, i.address);
      AddressIsFound(i.sequence, i.address, rest, ifindex);
    }
    FrontMessage(BytesOf(i), rest);
  }

  lemma DoneEnds(done: seq<octet>, more: seq<octet>, ifindex: word)
    requires Framed(done) && KindOf(done) == NLMSG_DONE
    ensures ParseFrom(done + more, ifindex) == Found([]) && HasDoneFrom(done + more)
  {
    FrontMessage(done, more);
  }

  lemma ReplyInFront(items: seq<Item>, tail: seq<octet>)
    requires items != []
    ensures Reply(items) + tail == BytesOf(items[0]) + (Reply(items[1..]) + tail)
  {}

  lemma PrependTwice(es: seq<Entry>, more: seq<Entry>, f: Found)
    ensures Prepend(es, Prepend(more, f)) == Prepend(es + more, f)
  {
    if f.Found? { assert es + (more + f.entries) == es + more + f.entries; }
  }

  lemma {:induction false} ReplyParses(items: seq<Item>, tail: seq<octet>, ifindex: word)
    requires forall i :: 0 <= i < |items| ==> Carried(items[i])
    ensures ParseFrom(Reply(items) + tail, ifindex) == Prepend(EntriesOn(items, ifindex), ParseFrom(tail, ifindex))
    ensures HasDoneFrom(Reply(items) + tail) == HasDoneFrom(tail)
  {
    if items == [] {
      assert Reply(items) + tail == tail;
    } else {
      ReplyParses(items[1..], tail, ifindex);
      ReplyInFront(items, tail);
      ItemParses(items[0], Reply(items[1..]) + tail, ifindex);
      PrependTwice(EntryOf(items[0], ifindex), EntriesOn(items[1..], ifindex), ParseFrom(tail, ifindex));
    }
  }

  /** Parsing a reply gives exactly the entries sent for the interface, in order, and the end of the
      reply is recognised, whatever follows it. */
  lemma ReplyReturns(items: seq<Item>, done: seq<octet>, more: seq<octet>, ifindex: word)
    requires forall i :: 0 <= i < |items| ==> Carried(items[i])
    requires Framed(done) && KindOf(done) == NLMSG_DONE
    ensures ParseFrom(Reply(items) + (done + more), ifindex) == Found(EntriesOn(items, ifindex))
    ensures HasDoneFrom(Reply(items) + (done + more))
  {
    ReplyParses(items, done + more, ifindex);
    DoneEnds(done, more, ifindex);
  }

  // ---- Buffers that are read past their end ------------------------------------------------

  /** A message that does not stop the parser, with its padding. */
  predicate Padded(m: seq<octet>) { Starts(m) && KindOf(m) !in [3, 2] && |m| == Align4(LengthOf(m)) }

  /** The beginning of an address message, too short for the fields the parser reads. */
  predicate Stub(tail: seq<octet>) { Starts(tail) && |tail| < 24 && KindOf(tail) == 20 }

  function Flat(frames: seq<seq<octet>>): seq<octet> { if frames == [] then [] else frames[0] + Flat(frames[1..]) }

  /** The buffer is these padded messages and then a stub. */
  ghost predicate Consists(b: seq<octet>, frames: seq<seq<octet>>, tail: seq<octet>) {
    b == Flat(frames) + tail && (forall i :: 0 <= i < |frames| ==> Padded(frames[i])) && Stub(tail)
  }

  ghost predicate CutShort(b: seq<octet>) { exists frames, tail :: Consists(b, frames, tail) }

  /** The first message, with its padding, is a message of its own. */
  lemma FirstFrame(b: seq<octet>)
    requires !Stops(b) && After(b) != []
    ensures var n := Align4(LengthOf(b)); n <= |b| && Padded(b[..n]) && b == b[..n] + After(b)
  {
    var n := Align4(LengthOf(b));
    assert b[..n][0] == b[0] && b[..n][1] == b[1] && b[..n][2] == b[2] && b[..n][3] == b[3];
    assert b[..n][4] == b[4] && b[..n][5] == b[5];
  }

  lemma FrameInFront(m: seq<octet>, rest: seq<octet>)
    requires Padded(m)
    ensures !Stops(m + rest) && KindOf(m + rest) == KindOf(m) && After(m + rest) == rest
  {
    var b := m + rest;
    assert b[0] == m[0] && b[1] == m[1] && b[2] == m[2] && b[3] == m[3] && b[4] == m[4] && b[5] == m[5];
    assert b[|m|..] == rest;
  }

  lemma ConsistsMore(b: seq<octet>, m: seq<octet>, rest: seq<octet>, frames: seq<seq<octet>>, tail: seq<octet>)
    requires b == m + rest && Padded(m) && Consists(rest, frames, tail)
    ensures Consists(b, [m] + frames, tail)
  {
    assert ([m] + frames)[1..] == frames;
    assert m + (Flat(frames) + tail) == m + Flat(frames) + tail;
  }

  lemma StubIsCutShort(b: seq<octet>)
    requires Stub(b)
    ensures CutShort(b)
  {
    assert Flat([]) + b == b;
    assert Consists(b, [], b);
  }

  lemma CutShortMore(b: seq<octet>)
    requires !Stops(b) && CutShort(After(b))
    ensures CutShort(b)
  {
    var frames, tail :| Consists(After(b), frames, tail);
    assert |Flat(frames) + tail| >= 16;
    FirstFrame(b);
    ConsistsMore(b, b[..Align4(LengthOf(b))], After(b), frames, tail);
  }

  lemma {:induction false} PanicIsCutShort(b: seq<octet>, ifindex: word)
    requires ParseFrom(b, ifindex) == Panic
    ensures CutShort(b)
    decreases |b|
  {
    if KindOf(b) == RTM_NEWADDR && |b| < 24 {
      StubIsCutShort(b);
    } else {
      PanicIsCutShort(After(b), ifindex);
      CutShortMore(b);
    }
  }

  lemma {:induction false} ConsistsPanics(frames: seq<seq<octet>>, tail: seq<octet>, ifindex: word)
    requires Consists(Flat(frames) + tail, frames, tail)
    ensures ParseFrom(Flat(frames) + tail, ifindex) == Panic
    decreases |frames|
  {
    if frames == [] {
      assert Flat(frames) + tail == tail;
    } else {
      var rest := Flat(frames[1..]) + tail;
      assert Flat(frames) + tail == frames[0] + rest;
      FrameInFront(frames[0], rest);
      assert Consists(rest, frames[1..], tail);
      ConsistsPanics(frames[1..], tail, ifindex);
    }
  }

  /** The parser reads past the end exactly on the buffers of whole padded messages, none of them DONE or ERROR,
      followed by 16 to 23 bytes that begin an address message. */
  lemma PanicsWhen(b: seq<octet>, ifindex: word)
    ensures ParseFrom(b, ifindex) == Panic <==> CutShort(b)
  {
    if ParseFrom(b, ifindex) == Panic { PanicIsCutShort(b, ifindex); }
    if frames, tail :| Consists(b, frames, tail) { ConsistsPanics(frames, tail, ifindex); }
  }

  /** Such a buffer: a bare address header that declares no body. */
  lemma BareHeaderPanics(sequence: word, ifindex: word)
    ensures ParseFrom(Word(16) + Head(RTM_NEWADDR, ADD_FLAGS, sequence), ifindex) == Panic
  {
    var head := Head(RTM_NEWADDR, ADD_FLAGS, sequence);
    var b := Word(16) + head;
    WordInFront(16, head);
    assert Word(16) + head + [] == b;
    ReadInside(Word(16), head, []);
    HalfReturns(RTM_NEWADDR);
    assert head[0] == Half(RTM_NEWADDR)[0] && head[1] == Half(RTM_NEWADDR)[1];
  }
}
