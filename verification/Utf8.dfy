/** UTF-8 as bytes: well-formed text, lossy decoding and truncation to a number of characters. */
module Utf8 {
  import opened Common

  predicate Continuation(b: octet) { 0x80 <= b < 0xC0 }

  /** How many bytes a character with this first byte has; zero for a byte that starts none. */
  function Width(first: octet): nat {
    if first < 0x80 then 1
    else if 0xC2 <= first < 0xE0 then 2
    else if 0xE0 <= first < 0xF0 then 3
    else if 0xF0 <= first < 0xF5 then 4
    else 0
  }

  /** The second bytes that keep a character in its shortest form, outside the surrogates and in range. */
  predicate SecondFits(first: octet, second: octet) {
    && Continuation(second)
    && (first == 0xE0 ==> 0xA0 <= second)
    && (first == 0xED ==> second < 0xA0)
    && (first == 0xF0 ==> 0x90 <= second)
    && (first == 0xF4 ==> second < 0x90)
  }

  /** The bytes in front that can belong to one character: at least the first, and no more than its width. */
  function Reach(s: seq<octet>): (n: nat)
    requires s != []
    ensures 1 <= n <= |s| && n <= 4
  {
    var w := Width(s[0]);
    if w < 2 || |s| < 2 || !SecondFits(s[0], s[1]) then 1
    else if w < 3 || |s| < 3 || !Continuation(s[2]) then 2
    else if w < 4 || |s| < 4 || !Continuation(s[3]) then 3
    else 4
  }

  predicate Whole(s: seq<octet>)
    requires s != []
  {
    Reach(s) == Width(s[0])
  }

  /** Well-formed UTF-8. */
  predicate Text(s: seq<octet>) {
    s == [] || (Whole(s) && Text(s[Reach(s)..]))
  }

  /** U+FFFD. */
  const REPLACEMENT: seq<octet> := [0xEF, 0xBF, 0xBD]

  function First(s: seq<octet>): seq<octet>
    requires s != []
  {
    if Whole(s) then s[..Reach(s)] else REPLACEMENT
  }

  /** Each stretch that is no character is replaced by one U+FFFD. */
  function Lossy(s: seq<octet>): seq<octet> {
    if s == [] then [] else First(s) + Lossy(s[Reach(s)..])
  }

  /** The first `n` characters of a text. */
  function TakeChars(s: seq<octet>, n: nat): (r: seq<octet>)
    ensures r <= s
    decreases n
  {
    if s == [] || n == 0 then []
    else
      var k := Reach(s);
      assert s == s[..k] + s[k..];
      s[..k] + TakeChars(s[k..], n - 1)
  }

  function Length(s: seq<octet>): nat {
    if s == [] then 0 else 1 + Length(s[Reach(s)..])
  }

  lemma WholeInFront(c: seq<octet>, rest: seq<octet>)
    requires c != [] && Whole(c) && Reach(c) == |c|
    ensures Whole(c + rest) && Reach(c + rest) == |c| && (c + rest)[|c|..] == rest && (c + rest)[..|c|] == c
  {}

  lemma FirstIsWhole(s: seq<octet>)
    requires s != []
    ensures var c := First(s); c != [] && Whole(c) && Reach(c) == |c| && |c| <= 3 * Reach(s)
  {}

  lemma {:induction false} TextInFront(c: seq<octet>, rest: seq<octet>)
    requires c != [] && Whole(c) && Reach(c) == |c| && Text(rest)
    ensures Text(c + rest)
  {
    WholeInFront(c, rest);
  }

  /** Lossy decoding yields text whatever the bytes, at most three times as long. */
  lemma {:induction false} LossyIsText(s: seq<octet>)
    ensures Text(Lossy(s)) && |Lossy(s)| <= 3 * |s|
  {
    if s != [] {
      LossyIsText(s[Reach(s)..]);
      FirstIsWhole(s);
      TextInFront(First(s), Lossy(s[Reach(s)..]));
    }
  }

  /** Text is left alone. */
  lemma {:induction false} LossyKeepsText(s: seq<octet>)
    requires Text(s)
    ensures Lossy(s) == s
  {
    if s != [] {
      LossyKeepsText(s[Reach(s)..]);
      assert s == s[..Reach(s)] + s[Reach(s)..];
    }
  }

  /** Truncation keeps text well-formed, gives as many characters as there are up to `n`, and so at most `4 * n` bytes. */
  lemma {:induction false} TakeCharsBounds(s: seq<octet>, n: nat)
    requires Text(s)
    ensures var r := TakeChars(s, n); Text(r) && Length(r) == Min(Length(s), n) && |r| <= 4 * n
    decreases n
  {
    if s != [] && n > 0 {
      var c, rest := s[..Reach(s)], s[Reach(s)..];
      TakeCharsBounds(rest, n - 1);
      assert c + rest == s;
      WholeAlone(s);
      TextInFront(c, TakeChars(rest, n - 1));
      WholeInFront(c, TakeChars(rest, n - 1));
    }
  }

  lemma WholeAlone(s: seq<octet>)
    requires s != [] && Whole(s)
    ensures var c := s[..Reach(s)]; c != [] && Whole(c) && Reach(c) == |c|
  {}
}
