/** Package dependency tokens and the numeric version order. */
module Versions {
  import opened Common

  // ---- Dependency tokens -------------------------------------------------------------------

  datatype Operator = Any | Exactly | AtLeast

  datatype Dependency = Dependency(name: string, operator: Operator, version: string)

  predicate Whitespace(c: char) {
    var n := c as int;
    9 <= n <= 13 || 28 <= n <= 32 || n == 0x85 || n == 0xA0 || n == 0x1680 || 0x2000 <= n <= 0x200A
    || n == 0x2028 || n == 0x2029 || n == 0x202F || n == 0x205F || n == 0x3000
  }

  /** The white space of Unicode, one by one. */
  const BLANKS: set<int> := {
    9, 10, 11, 12, 13, 28, 29, 30, 31, 32, 0x85, 0xA0, 0x1680, 0x2000, 0x2001, 0x2002, 0x2003, 0x2004, 0x2005, 0x2006,
    0x2007, 0x2008, 0x2009, 0x200A, 0x2028, 0x2029, 0x202F, 0x205F, 0x3000}

  lemma LetterExactly(c: char)
    ensures Letter(c) <==> c !in "<>=!~" && c as int !in BLANKS
  {
    assert "<>=!~" == ['<', '>', '=', '!', '~'];
  }

  predicate Letter(c: char) { c != '<' && c != '>' && c != '=' && c != '!' && c != '~' && !Whitespace(c) }

  predicate Word(s: string) { s != "" && forall i :: 0 <= i < |s| ==> Letter(s[i]) }

  function Sign(op: Operator): string {
    match op
    case Any => ""
    case Exactly => "="
    case AtLeast => ">="
  }

  function Text(d: Dependency): string { d.name + Sign(d.operator) + d.version }

  predicate WellFormed(d: Dependency) { Word(d.name) && if d.operator == Any then d.version == "" else Word(d.version) }

  /** The length of the leading run of letters. */
  function Run(s: string): (n: nat)
    ensures n <= |s| && (forall i :: 0 <= i < n ==> Letter(s[i])) && (n < |s| ==> !Letter(s[n]))
  {
    if s == "" || !Letter(s[0]) then 0 else 1 + Run(s[1..])
  }

  /** `dependency`: a name, alone or with a constraint of one of the two supported kinds. */
  function ParseDependency(token: string): (d: Option<Dependency>)
    ensures d.Some? ==> WellFormed(d.value) && Text(d.value) == token
  {
    var n := Run(token);
    var name, rest := token[..n], token[n..];
    if n == 0 then None
    else if rest == "" then
      assert name + "" + "" == token;
      Some(Dependency(name, Any, ""))
    else if Sign(Exactly) <= rest && Word(rest[1..]) then
      assert name + "=" + rest[1..] == token;
      Some(Dependency(name, Exactly, rest[1..]))
    else if Sign(AtLeast) <= rest && Word(rest[2..]) then
      assert name + ">=" + rest[2..] == token;
      Some(Dependency(name, AtLeast, rest[2..]))
    else None
  }

  lemma RunInFront(name: string, rest: string)
    requires Word(name) && (rest == "" || !Letter(rest[0]))
    ensures Run(name + rest) == |name|
  {
    var s := name + rest;
    assert forall i :: 0 <= i < |name| ==> Letter(s[i]);
    assert rest != "" ==> s[|name|] == rest[0];
  }

  /** Every well-formed constraint is read back from its text. */
  lemma DependencyReturns(d: Dependency)
    requires WellFormed(d)
    ensures ParseDependency(Text(d)) == Some(d)
  {
    var rest := Sign(d.operator) + d.version;
    assert Text(d) == d.name + rest;
    RunInFront(d.name, rest);
    assert Text(d)[..|d.name|] == d.name && Text(d)[|d.name|..] == rest;
    match d.operator
    case Any => assert rest == "";
    case Exactly => assert rest[1..] == d.version;
    case AtLeast => assert rest[2..] == d.version;
  }

  // ---- Numeric versions --------------------------------------------------------------------

  datatype Version = Version(parts: seq<nat>, revision: nat)

  /** The zeros of the decimal digits (general category Nd of Unicode 15.0); each block is ten digits in order. */
  const ZEROS: seq<int> := [
    0x30, 0x660, 0x6F0, 0x7C0, 0x966, 0x9E6, 0xA66, 0xAE6, 0xB66, 0xBE6, 0xC66, 0xCE6, 0xD66, 0xDE6, 0xE50,
    0xED0, 0xF20, 0x1040, 0x1090, 0x17E0, 0x1810, 0x1946, 0x19D0, 0x1A80, 0x1A90, 0x1B50, 0x1BB0, 0x1C40,
    0x1C50, 0xA620, 0xA8D0, 0xA900, 0xA9D0, 0xA9F0, 0xAA50, 0xABF0, 0xFF10, 0x104A0, 0x10D30, 0x11066,
    0x110F0, 0x11136, 0x111D0, 0x112F0, 0x11450, 0x114D0, 0x11650, 0x116C0, 0x11730, 0x118E0, 0x11950,
    0x11C50, 0x11D50, 0x11DA0, 0x11F50, 0x16A60, 0x16AC0, 0x16B50, 0x1D7CE, 0x1D7D8, 0x1D7E2, 0x1D7EC,
    0x1D7F6, 0x1E140, 0x1E2F0, 0x1E4F0, 0x1E950, 0x1FBF0]

  /** What a decimal digit counts. */
  function Digit(c: char, zeros: seq<int>): (d: Option<nat>)
    ensures d.Some? ==> d.value < 10 && c as int - d.value in zeros
    ensures d.None? ==> forall z :: z in zeros ==> !(z <= c as int < z + 10)
  {
    if zeros == [] then None
    else if zeros[0] <= c as int < zeros[0] + 10 then
      var d := c as int - zeros[0];
      assert c as int - d == zeros[0];
      Some(d)
    else
      assert forall z :: z in zeros <==> z == zeros[0] || z in zeros[1..];
      Digit(c, zeros[1..])
  }

  /** ASCII digits, and those above them. */
  function Decimal(c: char): Option<nat> {
    if '0' <= c <= '9' then Some(c as int - '0' as int) else if c < '0' then None else Digit(c, ZEROS)
  }

  type Digits = char -> Option<nat>

  /** What is known of the digits. */
  ghost predicate Usual(digit: Digits) {
    && (forall c :: digit(c).Some? ==> c >= '0')
    && (forall c :: '0' <= c <= '9' ==> digit(c) == Some(c as int - '0' as int))
  }

  lemma DecimalIsUsual()
    ensures Usual(Decimal)
  {}

  function Number(digit: Digits, s: string): Option<nat> {
    if s == "" then None
    else
      var last := digit(s[|s| - 1]);
      if last.None? then None
      else if |s| == 1 then last
      else
        var front := Number(digit, s[..|s| - 1]);
        if front.None? then None else Some(10 * front.value + last.value)
  }

  /** Everything before the first `c`, and everything after it if there is one. */
  function Partition(s: string, c: char): (string, Option<string>) {
    if s == "" then ("", None)
    else if s[0] == c then ("", Some(s[1..]))
    else
      var (head, tail) := Partition(s[1..], c);
      ([s[0]] + head, tail)
  }

  lemma {:induction false} PartitionShorter(s: string, c: char)
    ensures var (head, tail) := Partition(s, c);
            c !in head && |head| <= |s| && (tail.Some? ==> |tail.value| < |s| && s == head + [c] + tail.value) && (tail.None? ==> head == s)
  {
    if s != "" && s[0] != c { PartitionShorter(s[1..], c); }
  }

  /** Numbers separated by points. */
  function Numbers(digit: Digits, s: string): Option<seq<nat>>
    decreases |s|
  {
    PartitionShorter(s, '.');
    var (head, tail) := Partition(s, '.');
    var first := Number(digit, head);
    if first.None? then None
    else if tail.None? then Some([first.value])
    else
      var rest := Numbers(digit, tail.value);
      if rest.None? then None else Some([first.value] + rest.value)
  }

  /** `numeric`: numbers separated by points, optionally followed by "-r" and a revision. */
  function ParseVersion(s: string): Option<Version> { ParseWith(Decimal, s) }

  function ParseWith(digit: Digits, s: string): Option<Version> {
    var (head, tail) := Partition(s, '-');
    var parts := Numbers(digit, head);
    if parts.None? then None
    else match tail
      case None => Some(Version(parts.value, 0))
      case Some(t) =>
        if t == "" || t[0] != 'r' then None
        else
          var revision := Number(digit, t[1..]);
          if revision.None? then None else Some(Version(parts.value, revision.value))
  }

  // ---- Which texts are versions, and of which numbers --------------------------------------

  predicate AllDigits(digit: Digits, s: string) { s != "" && forall i :: 0 <= i < |s| ==> digit(s[i]).Some? }

  lemma {:induction false} NumberWhen(digit: Digits, s: string)
    ensures Number(digit, s).Some? <==> AllDigits(digit, s)
  {
    if |s| > 1 {
      var front := s[..|s| - 1];
      NumberWhen(digit, front);
      assert forall i :: 0 <= i < |front| ==> front[i] == s[i];
      if AllDigits(digit, front) && digit(s[|s| - 1]).Some? {
        forall i | 0 <= i < |s| ensures digit(s[i]).Some? { if i < |front| { assert front[i] == s[i]; } }
      }
    }
  }

  /** The decimal numeral. */
  function Numeral(n: nat): string {
    if n < 10 then [('0' as int + n) as char] else Numeral(n / 10) + [('0' as int + n % 10) as char]
  }

  lemma {:induction false} NumeralReturns(digit: Digits, n: nat)
    requires Usual(digit)
    ensures Number(digit, Numeral(n)) == Some(n)
  {
    if n >= 10 {
      NumeralReturns(digit, n / 10);
      var front := Numeral(n / 10);
      assert Numeral(n)[..|front|] == front;
    }
  }

  /** Neither a point nor a dash is a digit. */
  lemma DigitsAreDigits(digit: Digits, s: string)
    requires Usual(digit) && AllDigits(digit, s)
    ensures '.' !in s && '-' !in s
  {}

  /** Numbers with points between them. */
  function Pointed(numbers: seq<string>): string
    requires numbers != []
  {
    if |numbers| == 1 then numbers[0] else numbers[0] + "." + Pointed(numbers[1..])
  }

  ghost predicate AllNumbers(digit: Digits, numbers: seq<string>) {
    numbers != [] && forall i :: 0 <= i < |numbers| ==> AllDigits(digit, numbers[i])
  }

  function VersionText(numbers: seq<string>, revision: Option<string>): string
    requires numbers != []
  {
    Pointed(numbers) + if revision.Some? then "-r" + revision.value else ""
  }

  /** What the digits stand for. */
  ghost predicate Reads(digit: Digits, v: Version, numbers: seq<string>, revision: Option<string>) {
    && |v.parts| == |numbers| && (forall i :: 0 <= i < |numbers| ==> Number(digit, numbers[i]) == Some(v.parts[i]))
    && (if revision.Some? then Number(digit, revision.value) == Some(v.revision) else v.revision == 0)
  }

  lemma {:induction false} PartitionAt(head: string, c: char, tail: string)
    requires c !in head
    ensures Partition(head + [c] + tail, c) == (head, Some(tail)) && Partition(head, c) == (head, None)
  {
    var s := head + [c] + tail;
    if head == "" {
      assert s[1..] == tail;
    } else {
      PartitionAt(head[1..], c, tail);
      assert s[1..] == head[1..] + [c] + tail && s[0] == head[0] && [head[0]] + head[1..] == head;
    }
  }

  lemma {:induction false} NumbersReturn(digit: Digits, numbers: seq<string>) returns (values: seq<nat>)
    requires Usual(digit) && AllNumbers(digit, numbers)
    ensures Numbers(digit, Pointed(numbers)) == Some(values) && |values| == |numbers|
    ensures forall i :: 0 <= i < |numbers| ==> Number(digit, numbers[i]) == Some(values[i])
    ensures '-' !in Pointed(numbers)
  {
    NumberWhen(digit, numbers[0]);
    DigitsAreDigits(digit, numbers[0]);
    if |numbers| == 1 {
      PartitionAt(numbers[0], '.', "");
      values := [Number(digit, numbers[0]).value];
    } else {
      var rest := NumbersReturn(digit, numbers[1..]);
      PartitionAt(numbers[0], '.', Pointed(numbers[1..]));
      values := [Number(digit, numbers[0]).value] + rest;
    }
  }

  /** A version's text is read as its numbers. */
  lemma VersionReads(digit: Digits, numbers: seq<string>, revision: Option<string>) returns (v: Version)
    requires Usual(digit) && AllNumbers(digit, numbers) && (revision.Some? ==> AllDigits(digit, revision.value))
    ensures ParseWith(digit, VersionText(numbers, revision)) == Some(v) && Reads(digit, v, numbers, revision)
  {
    var values := NumbersReturn(digit, numbers);
    var head := Pointed(numbers);
    if revision.Some? {
      NumberWhen(digit, revision.value);
      PartitionAt(head, '-', "r" + revision.value);
      assert head + ['-'] + ("r" + revision.value) == VersionText(numbers, revision);
      assert ("r" + revision.value)[1..] == revision.value;
      v := Version(values, Number(digit, revision.value).value);
    } else {
      PartitionAt(head, '-', "");
      assert VersionText(numbers, revision) == head;
      v := Version(values, 0);
    }
  }

  lemma {:induction false} NumbersOnly(digit: Digits, s: string) returns (numbers: seq<string>)
    requires Numbers(digit, s).Some?
    ensures AllNumbers(digit, numbers) && s == Pointed(numbers)
    decreases |s|
  {
    PartitionShorter(s, '.');
    var (head, tail) := Partition(s, '.');
    NumberWhen(digit, head);
    if tail.None? {
      numbers := [head];
    } else {
      var rest := NumbersOnly(digit, tail.value);
      numbers := [head] + rest;
      assert numbers[1..] == rest;
    }
  }

  ghost predicate IsVersion(digit: Digits, s: string, numbers: seq<string>, revision: Option<string>) {
    AllNumbers(digit, numbers) && (revision.Some? ==> AllDigits(digit, revision.value)) && s == VersionText(numbers, revision)
  }

  lemma VersionsOnly(digit: Digits, s: string) returns (numbers: seq<string>, revision: Option<string>)
    requires ParseWith(digit, s).Some?
    ensures IsVersion(digit, s, numbers, revision)
  {
    PartitionShorter(s, '-');
    var (head, tail) := Partition(s, '-');
    numbers := NumbersOnly(digit, head);
    revision := None;
    if tail.Some? {
      revision := Some(tail.value[1..]);
      NumberWhen(digit, tail.value[1..]);
      assert tail.value == "r" + tail.value[1..];
    }
  }

  /** Exactly the texts of this shape are versions, of the numbers their digits stand for. */
  lemma VersionExactly(s: string, v: Version)
    ensures ParseVersion(s) == Some(v) <==>
              exists numbers, revision :: IsVersion(Decimal, s, numbers, revision) && Reads(Decimal, v, numbers, revision)
  {
    DecimalIsUsual();
    if ParseVersion(s) == Some(v) {
      var numbers, revision := VersionsOnly(Decimal, s);
      var w := VersionReads(Decimal, numbers, revision);
    }
    if numbers, revision :| IsVersion(Decimal, s, numbers, revision) && Reads(Decimal, v, numbers, revision) {
      var w := VersionReads(Decimal, numbers, revision);
      OneReading(Decimal, v, w, numbers, revision);
    }
  }

  lemma OneReading(digit: Digits, v: Version, w: Version, numbers: seq<string>, revision: Option<string>)
    requires Reads(digit, v, numbers, revision) && Reads(digit, w, numbers, revision)
    ensures v == w
  {
    assert v.parts == w.parts;
  }

  /** In particular, numerals joined by points, with or without a revision, are read as their numbers. */
  lemma {:induction false} VersionReturns(parts: seq<nat>, revision: Option<nat>)
    requires parts != []
    ensures ParseVersion(VersionText(Numerals(parts), if revision.Some? then Some(Numeral(revision.value)) else None))
         == Some(Version(parts, if revision.Some? then revision.value else 0))
  {
    DecimalIsUsual();
    var numbers, tail := Numerals(parts), if revision.Some? then Some(Numeral(revision.value)) else None;
    forall i | 0 <= i < |parts| ensures Number(Decimal, numbers[i]) == Some(parts[i]) && AllDigits(Decimal, numbers[i]) {
      NumeralReturns(Decimal, parts[i]);
      NumberWhen(Decimal, numbers[i]);
    }
    if revision.Some? {
      NumeralReturns(Decimal, revision.value);
      NumberWhen(Decimal, tail.value);
    }
    var v := Version(parts, if revision.Some? then revision.value else 0);
    VersionExactly(VersionText(numbers, tail), v);
    assert IsVersion(Decimal, VersionText(numbers, tail), numbers, tail) && Reads(Decimal, v, numbers, tail);
  }

  function Numerals(parts: seq<nat>): (r: seq<string>)
    ensures |r| == |parts| && forall i :: 0 <= i < |r| ==> r[i] == Numeral(parts[i])
  {
    seq(|parts|, i requires 0 <= i < |parts| => Numeral(parts[i]))
  }

  // ---- Their order -------------------------------------------------------------------------

  function Zeros(n: nat): seq<nat> { seq(n, _ => 0) }

  /** The parts filled up with zeros, then the revision. */
  function Filled(v: Version, width: nat): (s: seq<nat>)
    requires |v.parts| <= width
    ensures |s| == width + 1
  {
    v.parts + Zeros(width - |v.parts|) + [v.revision]
  }

  /** The order of tuples of the same length. */
  predicate NotBelow(s: seq<nat>, t: seq<nat>)
    requires |s| == |t|
  {
    s == [] || s[0] > t[0] || (s[0] == t[0] && NotBelow(s[1..], t[1..]))
  }

  /** The comparison of `satisfies`: each pair is filled up to its own common width. */
  predicate NotOlder(a: Version, b: Version) {
    var width := Max(|a.parts|, |b.parts|);
    NotBelow(Filled(a, width), Filled(b, width))
  }

  lemma {:induction false} NotBelowIsTotal(s: seq<nat>, t: seq<nat>)
    requires |s| == |t|
    ensures NotBelow(s, t) || NotBelow(t, s)
    ensures NotBelow(s, t) && NotBelow(t, s) <==> s == t
  {
    if s != [] {
      NotBelowIsTotal(s[1..], t[1..]);
      assert s == [s[0]] + s[1..] && t == [t[0]] + t[1..];
    }
  }

  lemma {:induction false} NotBelowIsTransitive(s: seq<nat>, t: seq<nat>, u: seq<nat>)
    requires |s| == |t| == |u| && NotBelow(s, t) && NotBelow(t, u)
    ensures NotBelow(s, u)
  {
    if s != [] && s[0] == t[0] == u[0] { NotBelowIsTransitive(s[1..], t[1..], u[1..]); }
  }

  /** A zero put into both at the same place changes nothing. */
  lemma {:induction false} NotBelowWithZero(s: seq<nat>, t: seq<nat>, x: nat, y: nat)
    requires |s| == |t|
    ensures NotBelow(s + [0] + [x], t + [0] + [y]) <==> NotBelow(s + [x], t + [y])
  {
    if s == [] {
      assert s + [0] + [x] == [0, x] && t + [0] + [y] == [0, y] && s + [x] == [x] && t + [y] == [y];
      assert [0, x][1..] == [x] && [0, y][1..] == [y];
    } else {
      NotBelowWithZero(s[1..], t[1..], x, y);
      assert (s + [0] + [x])[1..] == s[1..] + [0] + [x] && (t + [0] + [y])[1..] == t[1..] + [0] + [y];
      assert (s + [x])[1..] == s[1..] + [x] && (t + [y])[1..] == t[1..] + [y];
    }
  }

  lemma FilledMore(v: Version, width: nat)
    requires |v.parts| <= width
    ensures Filled(v, width + 1) == v.parts + Zeros(width - |v.parts|) + [0] + [v.revision]
  {
    assert Zeros(width + 1 - |v.parts|) == Zeros(width - |v.parts|) + [0];
  }

  /** The width does not matter once it holds both. */
  lemma {:induction false} AnyWidth(a: Version, b: Version, width: nat)
    requires Max(|a.parts|, |b.parts|) <= width
    ensures NotBelow(Filled(a, width), Filled(b, width)) <==> NotOlder(a, b)
    decreases width
  {
    if width > Max(|a.parts|, |b.parts|) {
      var less := width - 1;
      AnyWidth(a, b, less);
      FilledMore(a, less);
      FilledMore(b, less);
      NotBelowWithZero(a.parts + Zeros(less - |a.parts|), b.parts + Zeros(less - |b.parts|), a.revision, b.revision);
    }
  }

  /** The versions are the same but for zeros at the end. */
  predicate SameVersion(a: Version, b: Version) {
    var width := Max(|a.parts|, |b.parts|);
    Filled(a, width) == Filled(b, width)
  }

  /** Although each pair is filled up to a width of its own, the comparison is a total preorder, and only
      versions that differ in trailing zeros are equivalent. */
  lemma OrderIsTotal(a: Version, b: Version)
    ensures NotOlder(a, b) || NotOlder(b, a)
    ensures NotOlder(a, b) && NotOlder(b, a) <==> SameVersion(a, b)
    ensures NotOlder(a, a)
  {
    var width := Max(|a.parts|, |b.parts|);
    NotBelowIsTotal(Filled(a, width), Filled(b, width));
    NotBelowIsTotal(Filled(a, |a.parts|), Filled(a, |a.parts|));
  }

  lemma OrderIsTransitive(a: Version, b: Version, c: Version)
    requires NotOlder(a, b) && NotOlder(b, c)
    ensures NotOlder(a, c)
  {
    var width := Max(Max(|a.parts|, |b.parts|), |c.parts|);
    AnyWidth(a, b, width);
    AnyWidth(b, c, width);
    AnyWidth(a, c, width);
    NotBelowIsTransitive(Filled(a, width), Filled(b, width), Filled(c, width));
  }

  /** The number at a place, all places after the last being zero. */
  function At(v: Version, i: nat): nat { if i < |v.parts| then v.parts[i] else 0 }

  ghost predicate AgreeBelow(a: Version, b: Version, i: nat) { forall k: nat :: k < i ==> At(a, k) == At(b, k) }

  /** At the first place where the versions differ, the revision being the last, `a` has the larger number; or they
      differ nowhere. */
  ghost predicate Reaches(a: Version, b: Version) {
    || (exists i: nat :: AgreeBelow(a, b, i) && At(a, i) > At(b, i))
    || ((forall i: nat :: At(a, i) == At(b, i)) && a.revision >= b.revision)
  }

  ghost predicate DiffersAt(s: seq<nat>, t: seq<nat>, i: nat)
    requires |s| == |t|
  {
    i < |s| && s[i] > t[i] && forall k :: 0 <= k < i ==> s[k] == t[k]
  }

  lemma {:induction false} NotBelowMeans(s: seq<nat>, t: seq<nat>)
    requires |s| == |t|
    ensures NotBelow(s, t) <==> s == t || exists i: nat :: DiffersAt(s, t, i)
  {
    if s != [] {
      NotBelowMeans(s[1..], t[1..]);
      if s[0] > t[0] { assert DiffersAt(s, t, 0); }
      if s[0] == t[0] {
        if s[1..] == t[1..] { assert s == [s[0]] + s[1..] && t == [t[0]] + t[1..]; }
        if i: nat :| DiffersAt(s[1..], t[1..], i) {
          forall k | 0 <= k < i + 1 ensures s[k] == t[k] { if k > 0 { assert s[1..][k - 1] == t[1..][k - 1]; } }
          assert DiffersAt(s, t, i + 1);
        }
        if i: nat :| DiffersAt(s, t, i) {
          forall k | 0 <= k < i - 1 ensures s[1..][k] == t[1..][k] { assert s[k + 1] == t[k + 1]; }
          assert DiffersAt(s[1..], t[1..], i - 1);
        }
      }
    }
  }

  lemma FilledAt(v: Version, width: nat, i: nat)
    requires |v.parts| <= width && i <= width
    ensures Filled(v, width)[i] == if i < width then At(v, i) else v.revision
  {}

  lemma ReachesFilled(a: Version, b: Version, width: nat)
    requires width == Max(|a.parts|, |b.parts|)
    ensures Reaches(a, b) <==>
              Filled(a, width) == Filled(b, width) || exists i: nat :: DiffersAt(Filled(a, width), Filled(b, width), i)
  {
    var s, t := Filled(a, width), Filled(b, width);
    forall i: nat | i <= width
      ensures s[i] == if i < width then At(a, i) else a.revision
      ensures t[i] == if i < width then At(b, i) else b.revision
    {
      FilledAt(a, width, i);
      FilledAt(b, width, i);
    }
    if i: nat :| AgreeBelow(a, b, i) && At(a, i) > At(b, i) { assert DiffersAt(s, t, i); }
    if (forall i: nat :: At(a, i) == At(b, i)) && a.revision > b.revision { assert DiffersAt(s, t, width); }
    if i: nat :| DiffersAt(s, t, i) {
      if i < width {
        forall k: nat | k < i ensures At(a, k) == At(b, k) { assert s[k] == t[k]; }
        assert AgreeBelow(a, b, i);
      } else {
        forall k: nat ensures At(a, k) == At(b, k) { if k < width { assert s[k] == t[k]; } }
      }
    }
    if s == t { forall k: nat ensures At(a, k) == At(b, k) { if k < width { assert s[k] == t[k]; } } assert s[width] == t[width]; }
  }

  /** What the comparison decides: which version is the newer at the first difference. */
  lemma NotOlderMeans(a: Version, b: Version)
    ensures NotOlder(a, b) <==> Reaches(a, b)
  {
    var width := Max(|a.parts|, |b.parts|);
    NotBelowMeans(Filled(a, width), Filled(b, width));
    ReachesFilled(a, b, width);
  }

  // ---- Whether an offer satisfies a constraint ---------------------------------------------

  /** `satisfies`; none when a version that would have to be compared is not numeric. */
  function Satisfies(actual: Option<string>, d: Dependency): Option<bool> {
    match d.operator
    case Any => Some(true)
    case Exactly => Some(actual == Some(d.version))
    case AtLeast =>
      if actual.None? then Some(false)
      else
        var left, right := ParseVersion(actual.value), ParseVersion(d.version);
        if left.None? || right.None? then None else Some(NotOlder(left.value, right.value))
  }

  /** A minimum is satisfied exactly by an offered version that reaches it, and undecided exactly if one of the two
      texts is no version; an exact constraint is satisfied exactly by the same text. */
  lemma SatisfiesMeans(actual: Option<string>, d: Dependency)
    ensures d.operator == Any ==> Satisfies(actual, d) == Some(true)
    ensures d.operator == Exactly ==> (Satisfies(actual, d) == Some(true) <==> actual == Some(d.version))
    ensures d.operator == AtLeast ==>
              && (Satisfies(actual, d).None? <==>
                    actual.Some? && (ParseVersion(actual.value).None? || ParseVersion(d.version).None?))
              && (Satisfies(actual, d) == Some(true) <==>
                    && actual.Some? && ParseVersion(actual.value).Some? && ParseVersion(d.version).Some?
                    && Reaches(ParseVersion(actual.value).value, ParseVersion(d.version).value))
  {
    if actual.Some? && ParseVersion(actual.value).Some? && ParseVersion(d.version).Some? {
      NotOlderMeans(ParseVersion(actual.value).value, ParseVersion(d.version).value);
    }
  }
}
