/** Which paths are safe, by the places of their slashes. */
module SafePaths {
  import opened Common
  import opened BundlePath
  import GuestPath
  import Utf8

  // ---- Components --------------------------------------------------------------------------

  /** From `i` to `j` there is no slash, and on both sides there is one or the path ends. */
  ghost predicate Component(p: Path, i: nat, j: nat) {
    && i <= j <= |p| && (i == 0 || p[i - 1] == 0x2F) && (j == |p| || p[j] == 0x2F)
    && forall k :: i <= k < j ==> p[k] != 0x2F
  }

  ghost predicate IsFirstPart(p: Path, part: Path) { exists j: nat :: Component(p, 0, j) && part == p[..j] }

  ghost predicate IsLaterPart(p: Path, part: Path) { exists i: nat, j: nat :: 0 < i && Component(p, i, j) && part == p[i..j] }

  lemma ShiftedComponent(p: Path, i: nat, j: nat)
    requires p != [] && 1 < i
    ensures Component(p, i, j) <==> j > 0 && Component(p[1..], i - 1, j - 1)
    ensures Component(p, i, j) ==> p[i..j] == p[1..][i - 1..j - 1]
  {
    if j > 0 && Component(p[1..], i - 1, j - 1) {
      assert forall k :: i <= k < j ==> p[k] == p[1..][k - 1];
    }
  }

  lemma AfterSlash(p: Path, j: nat)
    requires p != [] && p[0] == 0x2F && 0 < j
    ensures Component(p, 1, j) <==> Component(p[1..], 0, j - 1)
    ensures j <= |p| ==> p[1..j] == p[1..][..j - 1]
  {
    if Component(p[1..], 0, j - 1) {
      assert forall k :: 1 <= k < j ==> p[k] == p[1..][k - 1];
    }
  }

  lemma FrontComponent(p: Path, j: nat)
    requires p != [] && p[0] != 0x2F && 0 < j
    ensures Component(p, 0, j) <==> Component(p[1..], 0, j - 1)
    ensures j <= |p| ==> p[..j] == [p[0]] + p[1..][..j - 1]
  {
    if Component(p[1..], 0, j - 1) {
      assert forall k :: 1 <= k < j ==> p[k] == p[1..][k - 1];
    }
  }

  lemma LaterAfterSlash(p: Path, part: Path)
    requires p != [] && p[0] == 0x2F
    ensures IsLaterPart(p, part) <==> IsFirstPart(p[1..], part) || IsLaterPart(p[1..], part)
  {
    if IsLaterPart(p, part) {
      var i: nat, j: nat :| 0 < i && Component(p, i, j) && part == p[i..j];
      if i == 1 { AfterSlash(p, j); } else { ShiftedComponent(p, i, j); }
    }
    if IsFirstPart(p[1..], part) {
      var j: nat :| Component(p[1..], 0, j) && part == p[1..][..j];
      AfterSlash(p, j + 1);
    }
    if IsLaterPart(p[1..], part) {
      var i: nat, j: nat :| 0 < i && Component(p[1..], i, j) && part == p[1..][i..j];
      ShiftedComponent(p, i + 1, j + 1);
    }
  }

  lemma LaterAfterOther(p: Path, part: Path)
    requires p != [] && p[0] != 0x2F
    ensures IsLaterPart(p, part) <==> IsLaterPart(p[1..], part)
  {
    if IsLaterPart(p, part) {
      var i: nat, j: nat :| 0 < i && Component(p, i, j) && part == p[i..j];
      ShiftedComponent(p, i, j);
    }
    if IsLaterPart(p[1..], part) {
      var i: nat, j: nat :| 0 < i && Component(p[1..], i, j) && part == p[1..][i..j];
      ShiftedComponent(p, i + 1, j + 1);
    }
  }

  lemma FirstAfterOther(p: Path, part: Path)
    requires p != [] && p[0] != 0x2F
    ensures IsFirstPart(p, part) <==> part != [] && part[0] == p[0] && IsFirstPart(p[1..], part[1..])
  {
    if IsFirstPart(p, part) {
      var j: nat :| Component(p, 0, j) && part == p[..j];
      FrontComponent(p, j);
    }
    if part != [] && part[0] == p[0] && IsFirstPart(p[1..], part[1..]) {
      var j: nat :| Component(p[1..], 0, j) && part[1..] == p[1..][..j];
      FrontComponent(p, j + 1);
    }
  }

  lemma FirstOfSlash(p: Path, part: Path)
    requires p == [] || p[0] == 0x2F
    ensures IsFirstPart(p, part) <==> part == []
  {
    assert Component(p, 0, 0);
  }

  /** Splitting gives the components, the first one first. */
  lemma {:induction false} SplitGives(p: Path, part: Path)
    ensures part == Split(p)[0] <==> IsFirstPart(p, part)
    ensures part in Split(p)[1..] <==> IsLaterPart(p, part)
  {
    if p == [] {
      FirstOfSlash(p, part);
    } else if p[0] == SLASH {
      FirstOfSlash(p, part);
      LaterAfterSlash(p, part);
      SplitGives(p[1..], part);
      assert Split(p)[1..] == Split(p[1..]);
    } else {
      FirstAfterOther(p, part);
      LaterAfterOther(p, part);
      SplitGives(p[1..], part);
      if part != [] { SplitGives(p[1..], part[1..]); }
      assert Split(p)[0] == [p[0]] + Split(p[1..])[0] && Split(p)[1..] == Split(p[1..])[1..];
    }
  }

  ghost predicate EveryPart(p: Path, good: Path -> bool) {
    forall i: nat, j: nat :: Component(p, i, j) ==> good(p[i..j])
  }

  lemma EveryPartMeans(p: Path, good: Path -> bool)
    ensures EveryPart(p, good) <==> forall part :: part in Split(p) ==> good(part)
  {
    if EveryPart(p, good) {
      forall part | part in Split(p) ensures good(part) { SplitGives(p, part); }
    } else {
      var i: nat, j: nat :| Component(p, i, j) && !good(p[i..j]);
      SplitGives(p, p[i..j]);
      assert p[i..j] in Split(p) && !good(p[i..j]);
    }
  }

  // ---- Bundles -----------------------------------------------------------------------------

  /** A name that is neither a direction nor that of credential material. */
  predicate Ordinary(part: Path) {
    && part != [] && !Spells(part, ".") && !Spells(part, "..")
    && (forall k :: 0 <= k < |EXCLUDED| ==> !Spells(part, EXCLUDED[k]))
    && !(|part| >= |".env."| && Spells(part[..|".env."|], ".env."))
  }

  lemma OrdinaryMeans(part: Path)
    ensures SafePart(part) <==> Ordinary(part)
  {
    assert Spells(part, ".") <==> part == [0x2E];
    assert Spells(part, "..") <==> part == [0x2E, 0x2E];
  }

  /** A path is safe exactly if it is 1 to 255 bytes of text without a backslash or a control character and every
      component of it is ordinary: none empty, so it is not absolute and does not end in a slash. */
  lemma SafePathExactly(p: Path)
    ensures SafePath(p) <==>
            && Utf8.Text(p) && 1 <= |p| <= 255 && EveryPart(p, Ordinary)
            && forall i :: 0 <= i < |p| ==>
                 p[i] >= 0x20 && p[i] != 0x5C && p[i] != 0x7F && (p[i] == 0xC2 && i + 1 < |p| ==> p[i + 1] >= 0xA0)
  {
    EveryPartMeans(p, Ordinary);
    forall part | part in Split(p) ensures SafePart(part) <==> Ordinary(part) { OrdinaryMeans(part); }
  }

  // ---- Images ------------------------------------------------------------------------------

  const MARKS := " ._+@[]()~-"

  predicate Letter(c: octet) {
    || 'A' as int <= c <= 'Z' as int || 'a' as int <= c <= 'z' as int || '0' as int <= c <= '9' as int
    || exists k :: 0 <= k < |MARKS| && c == MARKS[k] as int
  }

  lemma LetterMeans(c: octet)
    ensures GuestPath.GuestChar(c) <==> Letter(c)
  {
    assert MARKS[0] == ' ' && MARKS[1] == '.' && MARKS[2] == '_' && MARKS[3] == '+' && MARKS[4] == '@' && MARKS[5] == '[';
    assert MARKS[6] == ']' && MARKS[7] == '(' && MARKS[8] == ')' && MARKS[9] == '~' && MARKS[10] == '-';
  }

  predicate Credential(part: Path) {
    || (exists k :: 0 <= k < |GuestPath.FORBIDDEN| && Spells(part, GuestPath.FORBIDDEN[k]))
    || (|part| >= |".env."| && Spells(part[..|".env."|], ".env."))
  }

  lemma CredentialMeans(part: Path)
    ensures GuestPath.Credential(part) <==> Credential(part)
  {}

  /** A name of such letters, without blanks at its ends, that is neither a direction nor that of credential material. */
  predicate Proper(part: Path) {
    && part != [] && !Spells(part, ".") && !Spells(part, "..") && (forall i :: 0 <= i < |part| ==> Letter(part[i]))
    && part[0] != ' ' as int && part[|part| - 1] != ' ' as int && !Credential(part)
  }

  lemma ProperMeans(part: Path)
    ensures GuestPath.GoodPart(part) <==> Proper(part)
  {
    assert Spells(part, ".") <==> part == [0x2E];
    assert Spells(part, "..") <==> part == [0x2E, 0x2E];
    CredentialMeans(part);
    forall i | 0 <= i < |part| ensures GuestPath.GuestChar(part[i]) <==> Letter(part[i]) { LetterMeans(part[i]); }
  }

  /** A path is canonical exactly if it has 1 to 255 bytes and every component of it is proper. */
  lemma CanonicalExactly(p: Path)
    ensures GuestPath.Canonical(p) <==> 1 <= |p| <= 255 && EveryPart(p, Proper)
  {
    EveryPartMeans(p, Proper);
    forall part | part in Split(p) ensures GuestPath.GoodPart(part) <==> Proper(part) { ProperMeans(part); }
  }

  lemma StripsTo(p: Path, core: Path)
    requires core <= p && (core != [] ==> core[|core| - 1] != SLASH) && forall i :: |core| <= i < |p| ==> p[i] == SLASH
    ensures GuestPath.StripSlashes(p) == core
  {
    var r := GuestPath.StripSlashes(p);
    assert core != [] ==> core[|core| - 1] == p[|core| - 1];
    assert r != [] ==> r[|r| - 1] == p[|r| - 1];
  }

  /** What a member's name comes to, if without one "./" in front and without the slashes at its end it is `core`. */
  lemma NormalisedExactly(name: Path, core: Path)
    requires core == [] || core[|core| - 1] != 0x2F
    requires var p := if [0x2E, 0x2F] <= name then name[2..] else name;
             core <= p && forall i :: |core| <= i < |p| ==> p[i] == 0x2F
    ensures GuestPath.Normalised(name).Root? <==> core == [] || core == [0x2E]
    ensures GuestPath.Normalised(name).Place? <==> core != [] && EveryPart(core, Proper) && |core| <= 255
    ensures GuestPath.Normalised(name).Place? ==> GuestPath.Normalised(name).path == core
  {
    StripsTo(GuestPath.StripDot(name), core);
    CanonicalExactly(core);
    if core == [0x2E] {
      assert Component(core, 0, 1) && Spells(core[0..1], ".");
    }
  }

  // ---- Order -------------------------------------------------------------------------------

  /** The paths of a set, each before those it precedes. */
  lemma {:induction false} SortedAscends(names: set<Path>, i: nat, j: nat)
    requires i < j < |Sorted(names)|
    ensures Precedes(Sorted(names)[i], Sorted(names)[j])
    decreases |names|
  {
    var first := First(names);
    if i > 0 {
      SortedAscends(names - {first}, i - 1, j - 1);
    } else {
      var q := Sorted(names)[j];
      assert q == Sorted(names - {first})[j - 1] && q in Sorted(names - {first});
      LessMeans(first, q);
    }
  }
}
