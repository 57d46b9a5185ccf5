/** Well-formed text is exactly the encodings of Unicode scalar values (section 3 of RFC 3629). */
module Utf8Scalars {
  import opened Common
  import opened Utf8
  import BundlePath

  type scalar = v: int | 0 <= v < 0xD800 || 0xE000 <= v < 0x110000

  function Encoded(v: scalar): seq<octet> {
    if v < 0x80 then [v]
    else if v < 0x800 then [0xC0 + v / 0x40, 0x80 + v % 0x40]
    else if v < 0x1_0000 then [0xE0 + v / 0x1000, 0x80 + v / 0x40 % 0x40, 0x80 + v % 0x40]
    else [0xF0 + v / 0x4_0000, 0x80 + v / 0x1000 % 0x40, 0x80 + v / 0x40 % 0x40, 0x80 + v % 0x40]
  }

  function EncodedAll(vs: seq<scalar>): seq<octet> {
    if vs == [] then [] else Encoded(vs[0]) + EncodedAll(vs[1..])
  }

  ghost predicate Character(c: seq<octet>) { c != [] && Whole(c) && Reach(c) == |c| }

  lemma EncodedIsCharacter(v: scalar)
    ensures Character(Encoded(v))
  {}

  lemma TwoBytes(c: seq<octet>) returns (v: scalar)
    requires Character(c) && |c| == 2
    ensures Encoded(v) == c
  {
    var a: int, b: int := c[0], c[1];
    v := (a - 0xC0) * 0x40 + (b - 0x80);
  }

  lemma ThreeBytes(c: seq<octet>) returns (v: scalar)
    requires Character(c) && |c| == 3
    ensures Encoded(v) == c
  {
    var a: int, b: int, d: int := c[0], c[1], c[2];
    v := (a - 0xE0) * 0x1000 + (b - 0x80) * 0x40 + (d - 0x80);
    assert v / 0x40 == (a - 0xE0) * 0x40 + (b - 0x80);
  }

  lemma FourBytes(c: seq<octet>) returns (v: scalar)
    requires Character(c) && |c| == 4
    ensures Encoded(v) == c
  {
    var a: int, b: int, d: int, e: int := c[0], c[1], c[2], c[3];
    v := (a - 0xF0) * 0x4_0000 + (b - 0x80) * 0x1000 + (d - 0x80) * 0x40 + (e - 0x80);
    assert v / 0x40 == (a - 0xF0) * 0x1000 + (b - 0x80) * 0x40 + (d - 0x80);
    assert v / 0x1000 == (a - 0xF0) * 0x40 + (b - 0x80);
  }

  lemma CharacterIsEncoded(c: seq<octet>) returns (v: scalar)
    requires Character(c)
    ensures Encoded(v) == c
  {
    if |c| == 1 {
      v := c[0];
    } else if |c| == 2 {
      v := TwoBytes(c);
    } else if |c| == 3 {
      v := ThreeBytes(c);
    } else {
      v := FourBytes(c);
    }
  }

  lemma {:induction false} EncodedIsText(vs: seq<scalar>)
    ensures Text(EncodedAll(vs))
  {
    if vs != [] {
      EncodedIsText(vs[1..]);
      EncodedIsCharacter(vs[0]);
      TextInFront(Encoded(vs[0]), EncodedAll(vs[1..]));
    }
  }

  lemma {:induction false} TextIsEncoded(s: seq<octet>) returns (vs: seq<scalar>)
    requires Text(s)
    ensures EncodedAll(vs) == s
  {
    vs := [];
    if s != [] {
      WholeAlone(s);
      var v := CharacterIsEncoded(s[..Reach(s)]);
      var more := TextIsEncoded(s[Reach(s)..]);
      vs := [v] + more;
      assert vs[1..] == more && s == s[..Reach(s)] + s[Reach(s)..];
    }
  }

  /** Bytes are well-formed text exactly if they encode scalar values. */
  lemma TextExactly(s: seq<octet>)
    ensures Text(s) <==> exists vs :: EncodedAll(vs) == s
  {
    if Text(s) { var vs := TextIsEncoded(s); }
    if vs :| EncodedAll(vs) == s { EncodedIsText(vs); }
  }

  /** Truncation keeps the first characters. */
  lemma {:induction false} TakesScalars(vs: seq<scalar>, n: nat)
    ensures TakeChars(EncodedAll(vs), n) == EncodedAll(vs[..Min(|vs|, n)])
  {
    if vs != [] && n > 0 {
      EncodedIsCharacter(vs[0]);
      WholeInFront(Encoded(vs[0]), EncodedAll(vs[1..]));
      TakesScalars(vs[1..], n - 1);
      var few := vs[..Min(|vs|, n)];
      assert few[0] == vs[0] && few[1..] == vs[1..][..Min(|vs[1..]|, n - 1)];
    }
  }

  // ---- Malformed bytes ---------------------------------------------------------------------

  /** The first `n` bytes begin a character. */
  ghost predicate BeginsCharacter(s: seq<octet>, n: nat) {
    exists v: scalar :: n <= |s| && n <= |Encoded(v)| && s[..n] == Encoded(v)[..n]
  }

  lemma NoFurther(s: seq<octet>, v: scalar, n: nat)
    requires 0 < n <= |s| && n <= |Encoded(v)| && s[..n] == Encoded(v)[..n]
    ensures n <= Reach(s)
  {
    var c := Encoded(v);
    EncodedIsCharacter(v);
    assert forall i :: 0 <= i < n ==> s[i] == s[..n][i] == c[i];
  }

  lemma ReachIsFurthest(s: seq<octet>, n: nat)
    requires 0 < n
    ensures BeginsCharacter(s, n) ==> s != [] && n <= Reach(s)
  {
    if v: scalar :| n <= |s| && n <= |Encoded(v)| && s[..n] == Encoded(v)[..n] { NoFurther(s, v, n); }
  }

  lemma ReachBegins(s: seq<octet>)
    requires s != [] && Width(s[0]) > 0
    ensures BeginsCharacter(s, Reach(s))
  {
    var n, w := Reach(s), Width(s[0]);
    if n == 1 && w > 1 {
      var second := if s[0] == 0xE0 then 0xA0 else if s[0] == 0xF0 then 0x90 else 0x80;
      Completes(s, 1, [s[0], second] + seq(w - 2, _ => 0x80));
    } else {
      Completes(s, n, s[..n] + seq(w - n, _ => 0x80));
    }
  }

  lemma Completes(s: seq<octet>, n: nat, c: seq<octet>)
    requires n <= |s| && n <= |c| && s[..n] == c[..n] && Character(c)
    ensures BeginsCharacter(s, n)
  {
    var v := CharacterIsEncoded(c);
  }

  lemma ReplacementIs()
    ensures REPLACEMENT == Encoded(0xFFFD)
  {}

  /** The stretch decoding takes goes as far as it begins a character, and is one byte at least. */
  lemma StretchIsFurthest(s: seq<octet>, k: nat)
    requires s != [] && Reach(s) < k
    ensures Reach(s) == 1 || BeginsCharacter(s, Reach(s))
    ensures !BeginsCharacter(s, k)
  {
    if Width(s[0]) > 0 { ReachBegins(s); }
    ReachIsFurthest(s, k);
  }

  /** A stretch that is no character is replaced by one U+FFFD. */
  lemma LossyReplaces(s: seq<octet>)
    requires s != [] && !Whole(s)
    ensures Lossy(s) == Encoded(0xFFFD) + Lossy(s[Reach(s)..])
  {
    ReplacementIs();
  }

  // ---- Control characters ------------------------------------------------------------------

  /** C0, DEL and C1. */
  predicate Control(v: scalar) { v < 0x20 || 0x7F <= v < 0xA0 }

  lemma ControlOfOne(v: scalar, rest: seq<octet>)
    ensures BundlePath.NoControl(Encoded(v) + rest) <==> !Control(v) && BundlePath.NoControl(rest)
  {
    var c := Encoded(v);
    var s := c + rest;
    assert forall i :: 0 <= i < |rest| ==> s[|c| + i] == rest[i];
    if BundlePath.NoControl(s) {
      assert s[0] == c[0];
      assert |c| > 1 ==> s[1] == c[1];
    }
    if !Control(v) && BundlePath.NoControl(rest) {
      forall i | 0 <= i < |s| ensures s[i] >= 0x20 && s[i] != 0x7F && !(s[i] == 0xC2 && i + 1 < |s| && s[i + 1] < 0xA0) {
        if i >= |c| { assert s[i] == rest[i - |c|]; }
      }
    }
  }

  /** The test on bytes finds exactly the control characters. */
  lemma {:induction false} NoControlExactly(vs: seq<scalar>)
    ensures BundlePath.NoControl(EncodedAll(vs)) <==> forall v :: v in vs ==> !Control(v)
  {
    if vs != [] {
      ControlOfOne(vs[0], EncodedAll(vs[1..]));
      NoControlExactly(vs[1..]);
      assert vs == [vs[0]] + vs[1..];
    }
  }
}
