/** The hand-written base64 codec shared by agent and host (section 4 of RFC 4648). */
module Base64 {
  import opened Common

  type sextet = x: int | 0 <= x < 64

  const UPPER := "ABCDEFGHIJKLMNOPQRSTUVWXYZ"
  const LOWER := "abcdefghijklmnopqrstuvwxyz"
  const OTHER := "0123456789+/"
  const TABLE := UPPER + LOWER + OTHER

  /** The letter for a six-bit value. */
  function Letter(v: sextet): char {
    if v < 26 then (v + 'A' as int) as char
    else if v < 52 then (v - 26 + 'a' as int) as char
    else if v < 62 then (v - 52 + '0' as int) as char
    else if v == 62 then '+' else '/'
  }

  /** The letters are those of the table. */
  lemma TableAt(v: sextet)
    ensures |TABLE| == 64 && Letter(v) == TABLE[v]
  {
    assert TABLE[v] == if v < 26 then UPPER[v] else if v < 52 then LOWER[v - 26] else OTHER[v - 52];
  }

  /** `decode_char`: the padding sign counts as zero. */
  function ValueOf(c: char): Option<sextet> {
    if 'A' <= c <= 'Z' then Some(c as int - 'A' as int)
    else if 'a' <= c <= 'z' then Some(c as int - 'a' as int + 26)
    else if '0' <= c <= '9' then Some(c as int - '0' as int + 52)
    else if c == '+' then Some(62)
    else if c == '/' then Some(63)
    else if c == '=' then Some(0)
    else None
  }

  lemma LetterHasItsValue(v: sextet)
    ensures ValueOf(Letter(v)) == Some(v) && Letter(v) != '='
  {}

  // ---- Six bits at a time ------------------------------------------------------------------
  // As arithmetic.

  function First(x: octet): sextet { x / 4 }
  function Second(x: octet, y: octet): sextet { (x % 4) * 16 + y / 16 }
  function Third(y: octet, z: octet): sextet { (y % 16) * 4 + z / 64 }
  function Fourth(z: octet): sextet { z % 64 }

  function Byte0(a: sextet, b: sextet): octet { a * 4 + b / 16 }
  function Byte1(b: sextet, c: sextet): octet { (b % 16) * 16 + c / 4 }
  function Byte2(c: sextet, d: sextet): octet { (c % 4) * 64 + d }

  /** The four six-bit values of three bytes give the bytes again. */
  lemma BitsReturn(x: octet, y: octet, z: octet)
    ensures Byte0(First(x), Second(x, y)) == x
    ensures Byte1(Second(x, y), Third(y, z)) == y
    ensures Byte2(Third(y, z), Fourth(z)) == z
  {}

  // ---- The same on eight-bit words ---------------------------------------------------------

  lemma Shr2(x: bv8) ensures (x >> 2) as int == x as int / 4 {}
  lemma Shr4(x: bv8) ensures (x >> 4) as int == x as int / 16 {}
  lemma Shr6(x: bv8) ensures (x >> 6) as int == x as int / 64 {}
  lemma And3(x: bv8) ensures (x & 3) as int == x as int % 4 {}
  lemma And15(x: bv8) ensures (x & 15) as int == x as int % 16 {}
  lemma And63(x: bv8) ensures (x & 63) as int == x as int % 64 {}
  lemma JoinIsSum(p: bv8, q: bv8) requires p & q == 0 ensures (p | q) as int == p as int + q as int {}

  lemma SecondIsShift(x: bv8, y: bv8)
    ensures (((x & 0x03) << 4) | (y >> 4)) as int == (x as int % 4) * 16 + y as int / 16
  {
    And3(x); Shr4(y);
    JoinIsSum((x & 3) << 4, y >> 4);
  }

  lemma ThirdIsShift(y: bv8, z: bv8)
    ensures (((y & 0x0f) << 2) | (z >> 6)) as int == (y as int % 16) * 4 + z as int / 64
  {
    And15(y); Shr6(z);
    JoinIsSum((y & 15) << 2, z >> 6);
  }

  lemma Byte0IsShift(a: bv8, b: bv8)
    requires a < 64 && b < 64
    ensures ((a << 2) | (b >> 4)) as int == a as int * 4 + b as int / 16
  {
    Shr4(b);
    JoinIsSum(a << 2, b >> 4);
  }

  /** The bits shifted out of an eight-bit word are those the remainder leaves out. */
  lemma Byte1IsShift(b: bv8, c: bv8)
    requires b < 64 && c < 64
    ensures ((b << 4) | (c >> 2)) as int == (b as int % 16) * 16 + c as int / 4
  {
    And15(b); Shr2(c);
    JoinIsSum(b << 4, c >> 2);
    assert b << 4 == (b & 15) << 4;
  }

  lemma Byte2IsShift(c: bv8, d: bv8)
    requires c < 64 && d < 64
    ensures ((c << 6) | d) as int == (c as int % 4) * 64 + d as int
  {
    And3(c);
    JoinIsSum(c << 6, d);
    assert c << 6 == (c & 3) << 6;
  }

  lemma Successor(w: bv8)
    requires w as int < 255
    ensures (w + 1) as int == w as int + 1
  {}

  lemma {:induction false} WordFor(x: octet) returns (w: bv8)
    ensures w as int == x
  {
    w := 0;
    if x > 0 {
      w := WordFor(x - 1);
      Successor(w);
      w := w + 1;
    }
  }

  lemma There(w: bv8)
    ensures (w as int) as bv8 == w
  {}

  method Word(x: octet) returns (w: bv8)
    ensures w as int == x
  {
    ghost var v := WordFor(x);
    There(v);
    w := x as bv8;
  }

  /** A table lookup with a word as the index. */
  method Lookup(v: bv8) returns (c: char)
    requires v as int < 64
    ensures c == Letter(v as int)
  {
    TableAt(v as int);
    c := TABLE[v as int];
  }

  // ---- Encoding ----------------------------------------------------------------------------

  function Group(x: octet, y: octet, z: octet): string {
    [Letter(First(x)), Letter(Second(x, y)), Letter(Third(y, z)), Letter(Fourth(z))]
  }

  function Tail(d: seq<octet>): string
    requires |d| < 3
  {
    if |d| == 1 then [Letter(First(d[0])), Letter(Second(d[0], 0)), '=', '=']
    else if |d| == 2 then [Letter(First(d[0])), Letter(Second(d[0], d[1])), Letter(Third(d[1], 0)), '=']
    else ""
  }

  function Encoded(d: seq<octet>): string {
    if |d| < 3 then Tail(d) else Group(d[0], d[1], d[2]) + Encoded(d[3..])
  }

  lemma EncodedStep(done: string, d: seq<octet>)
    requires |d| >= 3
    ensures done + Encoded(d) == done + Group(d[0], d[1], d[2]) + Encoded(d[3..])
  {}

  method FirstSign(x: octet) returns (sign: char)
    ensures sign == Letter(First(x))
  {
    var p := Word(x);
    Shr2(p);
    sign := Lookup(p >> 2);
  }

  method SecondSign(x: octet, y: octet) returns (sign: char)
    ensures sign == Letter(Second(x, y))
  {
    var p := Word(x);
    var q := Word(y);
    SecondIsShift(p, q);
    sign := Lookup(((p & 0x03) << 4) | (q >> 4));
  }

  method ThirdSign(y: octet, z: octet) returns (sign: char)
    ensures sign == Letter(Third(y, z))
  {
    var q := Word(y);
    var r := Word(z);
    ThirdIsShift(q, r);
    sign := Lookup(((q & 0x0f) << 2) | (r >> 6));
  }

  method FourthSign(z: octet) returns (sign: char)
    ensures sign == Letter(Fourth(z))
  {
    var r := Word(z);
    And63(r);
    sign := Lookup(r & 0x3f);
  }

  /** The last letter before the padding, where no byte follows. */
  method LastOfTwo(x: octet) returns (sign: char)
    ensures sign == Letter(Second(x, 0))
  {
    var p := Word(x);
    SecondIsShift(p, 0);
    sign := Lookup((p & 0x03) << 4);
  }

  method LastOfThree(y: octet) returns (sign: char)
    ensures sign == Letter(Third(y, 0))
  {
    var q := Word(y);
    ThirdIsShift(q, 0);
    sign := Lookup((q & 0x0f) << 2);
  }

  method Encode(data: seq<octet>) returns (output: string)
    ensures output == Encoded(data)
  {
    output := "";
    var i := 0;
    while i + 2 < |data|
      invariant 0 <= i <= |data|
      invariant output + Encoded(data[i..]) == Encoded(data)
    {
      EncodedStep(output, data[i..]);
      assert data[i..][3..] == data[i + 3..];
      var a := FirstSign(data[i]);
      var b := SecondSign(data[i], data[i + 1]);
      var c := ThirdSign(data[i + 1], data[i + 2]);
      var d := FourthSign(data[i + 2]);
      output := output + [a, b, c, d];
      i := i + 3;
    }
    var remaining := |data| - i;
    if remaining == 1 {
      var a := FirstSign(data[i]);
      var b := LastOfTwo(data[i]);
      output := output + [a, b, '=', '='];
    } else if remaining == 2 {
      var a := FirstSign(data[i]);
      var b := SecondSign(data[i], data[i + 1]);
      var c := LastOfThree(data[i + 1]);
      output := output + [a, b, c, '='];
    }
  }

  lemma {:induction false} EncodedLength(d: seq<octet>)
    ensures |Encoded(d)| == 4 * ((|d| + 2) / 3)
  {
    if |d| >= 3 { EncodedLength(d[3..]); }
  }

  // ---- Decoding ----------------------------------------------------------------------------

  predicate Readable(c: char) { ValueOf(c).Some? }

  predicate ReadableGroup(t: string) {
    |t| >= 4 && Readable(t[0]) && Readable(t[1]) && Readable(t[2]) && Readable(t[3])
  }

  /** The bytes of the first four signs; a padding sign drops its byte. */
  function Ungroup(t: string): (bytes: seq<octet>)
    requires ReadableGroup(t)
  {
    var a, b, c, d := ValueOf(t[0]).value, ValueOf(t[1]).value, ValueOf(t[2]).value, ValueOf(t[3]).value;
    [Byte0(a, b)] + (if t[2] != '=' then [Byte1(b, c)] else []) + (if t[3] != '=' then [Byte2(c, d)] else [])
  }

  function Then(done: seq<octet>, rest: Option<seq<octet>>): Option<seq<octet>> {
    match rest
    case None => None
    case Some(r) => Some(done + r)
  }

  function Decoded(t: string): Option<seq<octet>> {
    if t == "" then Some([])
    else if !ReadableGroup(t) then None
    else Then(Ungroup(t), Decoded(t[4..]))
  }

  lemma ThenThen(a: seq<octet>, b: seq<octet>, rest: Option<seq<octet>>)
    ensures Then(a, Then(b, rest)) == Then(a + b, rest)
  {
    if rest.Some? { assert a + (b + rest.value) == a + b + rest.value; }
  }

  lemma DecodedStep(done: seq<octet>, t: string)
    requires ReadableGroup(t)
    ensures Then(done, Decoded(t)) == Then(done + Ungroup(t), Decoded(t[4..]))
  {
    ThenThen(done, Ungroup(t), Decoded(t[4..]));
  }

  lemma FromUpper(b: bv8)
    requires 0x41 <= b as int <= 0x5A
    ensures (b - 0x41) as int == b as int - 0x41
  {}

  lemma FromLower(b: bv8)
    requires 0x61 <= b as int <= 0x7A
    ensures (b - 0x61 + 26) as int == b as int - 0x61 + 26
  {}

  lemma FromFigure(b: bv8)
    requires 0x30 <= b as int <= 0x39
    ensures (b - 0x30 + 52) as int == b as int - 0x30 + 52
  {}

  /** `decode_char` on eight-bit words. */
  method Bits(c: char) returns (r: Option<bv8>)
    ensures r.Some? <==> Readable(c)
    ensures r.Some? ==> r.value as int == ValueOf(c).value
  {
    if c as int >= 256 { return None; }
    var w := Word(c as int);
    if 'A' <= c <= 'Z' { FromUpper(w); return Some(w - 0x41); }
    if 'a' <= c <= 'z' { FromLower(w); return Some(w - 0x61 + 26); }
    if '0' <= c <= '9' { FromFigure(w); return Some(w - 0x30 + 52); }
    if c == '+' { return Some(62); }
    if c == '/' { return Some(63); }
    if c == '=' { return Some(0); }
    return None;
  }

  method Join0(a: bv8, b: bv8) returns (r: octet)
    requires a as int < 64 && b as int < 64
    ensures r == Byte0(a as int, b as int)
  {
    Byte0IsShift(a, b);
    r := ((a << 2) | (b >> 4)) as int;
  }

  method Join1(b: bv8, c: bv8) returns (r: octet)
    requires b as int < 64 && c as int < 64
    ensures r == Byte1(b as int, c as int)
  {
    Byte1IsShift(b, c);
    r := ((b << 4) | (c >> 2)) as int;
  }

  method Join2(c: bv8, d: bv8) returns (r: octet)
    requires c as int < 64 && d as int < 64
    ensures r == Byte2(c as int, d as int)
  {
    Byte2IsShift(c, d);
    r := ((c << 6) | d) as int;
  }

  /** The three bytes of four signs, before padding drops any. */
  method Bytes(p: char, q: char, r: char, t: char) returns (bytes: Option<(octet, octet, octet)>)
    ensures bytes.Some? <==> Readable(p) && Readable(q) && Readable(r) && Readable(t)
    ensures bytes.Some? ==>
              var a, b, c, d := ValueOf(p).value, ValueOf(q).value, ValueOf(r).value, ValueOf(t).value;
              bytes.value == (Byte0(a, b), Byte1(b, c), Byte2(c, d))
  {
    var a := Bits(p);
    var b := Bits(q);
    var c := Bits(r);
    var d := Bits(t);
    if a.None? || b.None? || c.None? || d.None? { return None; }
    var first := Join0(a.value, b.value);
    var second := Join1(b.value, c.value);
    var third := Join2(c.value, d.value);
    return Some((first, second, third));
  }

  method Decode(input: string) returns (result: Option<seq<octet>>)
    ensures result == Decoded(input)
  {
    var output: seq<octet> := [];
    var i := 0;
    assert input[0..] == input && (Decoded(input).Some? ==> [] + Decoded(input).value == Decoded(input).value);
    while i < |input|
      invariant 0 <= i <= |input|
      invariant Decoded(input) == Then(output, Decoded(input[i..]))
    {
      ghost var rest := input[i..];
      if i + 4 > |input| { assert !ReadableGroup(rest); return None; }
      var bytes := Bytes(input[i], input[i + 1], input[i + 2], input[i + 3]);
      if bytes.None? { assert !ReadableGroup(rest); return None; }
      DecodedStep(output, rest);
      assert rest[4..] == input[i + 4..];
      var (first, second, third) := bytes.value;
      assert Ungroup(rest) == [first] + (if rest[2] != '=' then [second] else []) + (if rest[3] != '=' then [third] else []);
      ghost var after := output + Ungroup(rest);
      output := output + [first];
      if input[i + 2] != '=' {
        output := output + [second];
      }
      if input[i + 3] != '=' {
        output := output + [third];
      }
      assert output == after;
      i := i + 4;
    }
    assert input[i..] == "" && output + [] == output;
    return Some(output);
  }

  predicate AllReadable(t: string) { forall i :: 0 <= i < |t| ==> Readable(t[i]) }

  lemma AllReadableSplit(t: string)
    requires |t| >= 4
    ensures AllReadable(t) <==> ReadableGroup(t) && AllReadable(t[4..])
  {
    if AllReadable(t[4..]) {
      forall i | 4 <= i < |t| ensures Readable(t[i]) { assert t[i] == t[4..][i - 4]; }
    }
  }

  /** Exactly the texts of readable signs in groups of four decode. */
  lemma {:induction false} DecodesWhen(t: string)
    ensures Decoded(t).Some? <==> |t| % 4 == 0 && AllReadable(t)
  {
    if |t| >= 4 {
      AllReadableSplit(t);
      DecodesWhen(t[4..]);
      assert (|t| - 4) % 4 == |t| % 4;
    } else if t != "" {
      assert !ReadableGroup(t);
    }
  }

  // ---- The round trip ----------------------------------------------------------------------

  lemma GroupReturns(x: octet, y: octet, z: octet, rest: string)
    ensures ReadableGroup(Group(x, y, z) + rest) && Ungroup(Group(x, y, z) + rest) == [x, y, z]
  {
    LetterHasItsValue(First(x));
    LetterHasItsValue(Second(x, y));
    LetterHasItsValue(Third(y, z));
    LetterHasItsValue(Fourth(z));
    BitsReturn(x, y, z);
  }

  lemma PaddedTwice(a: sextet, b: sextet)
    ensures ReadableGroup([Letter(a), Letter(b), '=', '=']) && Ungroup([Letter(a), Letter(b), '=', '=']) == [Byte0(a, b)]
  {
    LetterHasItsValue(a);
    LetterHasItsValue(b);
  }

  lemma OneReturns(x: octet)
    ensures ReadableGroup(Tail([x])) && Ungroup(Tail([x])) == [x]
  {
    PaddedTwice(First(x), Second(x, 0));
    BitsReturn(x, 0, 0);
  }

  lemma TwoReturn(x: octet, y: octet)
    ensures ReadableGroup(Tail([x, y])) && Ungroup(Tail([x, y])) == [x, y]
  {
    LetterHasItsValue(First(x));
    LetterHasItsValue(Second(x, y));
    LetterHasItsValue(Third(y, 0));
    BitsReturn(x, y, 0);
  }

  lemma TailReturns(d: seq<octet>)
    requires |d| < 3
    ensures Decoded(Tail(d)) == Some(d)
  {
    if |d| == 1 {
      OneReturns(d[0]);
      assert d == [d[0]] && Tail(d)[4..] == "" && d + [] == d;
    } else if |d| == 2 {
      TwoReturn(d[0], d[1]);
      assert d == [d[0], d[1]] && Tail(d)[4..] == "" && d + [] == d;
    }
  }

  /** Decoding returns what was encoded. */
  lemma {:induction false} RoundTrip(d: seq<octet>)
    ensures Decoded(Encoded(d)) == Some(d)
  {
    if |d| < 3 {
      TailReturns(d);
    } else {
      var rest := Encoded(d[3..]);
      RoundTrip(d[3..]);
      GroupReturns(d[0], d[1], d[2], rest);
      assert Encoded(d)[4..] == rest;
      assert d == [d[0], d[1], d[2]] + d[3..];
    }
  }

  /** Decoding is laxer than the standard: padding is read wherever it stands, so texts that no
      encoding produces decode too. */
  lemma DecodingIsLax()
    ensures Decoded("A===") == Decoded("AA==") && Decoded("====").Some?
    ensures forall d :: Encoded(d) != "A==="
  {
    assert "A==="[4..] == "AA=="[4..] == "===="[4..] == "";
    forall d: seq<octet> ensures Encoded(d) != "A===" {
      EncodedLength(d);
      if |d| > 0 {
        var y := if |d| >= 2 then d[1] else 0;
        LetterHasItsValue(Second(d[0], y));
        assert Encoded(d)[1] == Letter(Second(d[0], y));
      }
    }
  }
}
