/** The relative paths a frozen bundle may hold. */
module BundlePath {
  import opened Common
  import Utf8

  const SLASH: octet := 0x2F
  const BACKSLASH: octet := 0x5C

  type Path = seq<octet>

  // ---- Components --------------------------------------------------------------------------

  /** The stretches between slashes. */
  function Split(p: Path): (parts: seq<Path>)
    ensures parts != []
  {
    if p == [] then [[]]
    else if p[0] == SLASH then [[]] + Split(p[1..])
    else
      var parts := Split(p[1..]);
      [[p[0]] + parts[0]] + parts[1..]
  }

  function Join(parts: seq<Path>): Path
    requires parts != []
  {
    if |parts| == 1 then parts[0] else parts[0] + [SLASH] + Join(parts[1..])
  }

  predicate Plain(part: Path) { SLASH !in part }

  lemma {:induction false} SplitIsPlain(p: Path)
    ensures forall part :: part in Split(p) ==> Plain(part)
  {
    if p != [] {
      SplitIsPlain(p[1..]);
      var parts := Split(p[1..]);
      assert parts[0] in parts;
      assert forall part :: part in parts[1..] ==> part in parts;
    }
  }

  lemma {:induction false} SplitPlain(part: Path)
    requires Plain(part)
    ensures Split(part) == [part]
  {
    if part != [] {
      SplitPlain(part[1..]);
      assert [part[0]] + part[1..] == part;
    }
  }

  lemma HeadOfJoined(c: octet, parts: seq<Path>, more: seq<Path>)
    requires parts != []
    ensures [[c] + (parts + more)[0]] + (parts + more)[1..] == [[c] + parts[0]] + parts[1..] + more
    ensures [[]] + (parts + more) == [[]] + parts + more
  {}

  /** Splitting at a slash. */
  lemma {:induction false} SplitJoined(a: Path, b: Path)
    ensures Split(a + [SLASH] + b) == Split(a) + Split(b)
  {
    if a == [] {
      assert a + [SLASH] + b == [SLASH] + b;
      assert ([SLASH] + b)[1..] == b;
    } else {
      SplitJoined(a[1..], b);
      assert (a + [SLASH] + b)[1..] == a[1..] + [SLASH] + b;
      HeadOfJoined(a[0], Split(a[1..]), Split(b));
    }
  }

  lemma {:induction false} SplitReturns(parts: seq<Path>)
    requires parts != [] && forall part :: part in parts ==> Plain(part)
    ensures Split(Join(parts)) == parts
  {
    SplitPlain(parts[0]);
    if |parts| > 1 {
      SplitReturns(parts[1..]);
      SplitJoined(parts[0], Join(parts[1..]));
      assert [parts[0]] + parts[1..] == parts;
    }
  }

  lemma {:induction false} JoinReturns(p: Path)
    ensures Join(Split(p)) == p
  {
    if p != [] {
      JoinReturns(p[1..]);
      var parts := Split(p[1..]);
      if p[0] == SLASH {
        assert ([[]] + parts)[1..] == parts;
      } else {
        var more := [[p[0]] + parts[0]] + parts[1..];
        if |parts| > 1 { assert more[1..] == parts[1..]; }
      }
    }
  }

  lemma SplitDistinguishes(p: Path, q: Path)
    ensures Split(p) == Split(q) <==> p == q
  {
    JoinReturns(p);
    JoinReturns(q);
  }

  /** The directories above a path. */
  function Ancestors(p: Path): set<Path> { set i | 0 <= i < |p| && p[i] == SLASH :: p[..i] }

  // ---- Which are allowed -------------------------------------------------------------------

  /** Names of common credential material and configuration. */
  const EXCLUDED: seq<string> := [
    ".git", ".ssh", ".aws", ".azure", ".config", ".codex", ".claude", ".gnupg", ".kube", ".docker", ".netrc",
    ".npmrc", ".pypirc", ".gitconfig", ".git-credentials", "credentials.json", "auth.json", ".env"]

  predicate Spells(part: Path, s: string) {
    |part| == |s| && forall i :: 0 <= i < |s| ==> part[i] == s[i] as int
  }

  predicate Excluded(part: Path) {
    || (exists s :: s in EXCLUDED && Spells(part, s))
    || (|part| >= 5 && Spells(part[..5], ".env."))
  }

  predicate SafePart(part: Path) { part != [] && part != [0x2E] && part != [0x2E, 0x2E] && !Excluded(part) }

  /** No control character, in UTF-8: C0, DEL and C1. */
  predicate NoControl(p: Path) {
    forall i :: 0 <= i < |p| ==>
      p[i] >= 0x20 && p[i] != 0x7F && !(p[i] == 0xC2 && i + 1 < |p| && p[i + 1] < 0xA0)
  }

  /** `safe_bundle_path`, for a string: well-formed, bounded, and only safe components. */
  predicate SafePath(p: Path) {
    && Utf8.Text(p) && p != [] && |p| <= 255 && BACKSLASH !in p && NoControl(p)
    && forall part :: part in Split(p) ==> SafePart(part)
  }

  // ---- The order of paths ------------------------------------------------------------------

  /** Byte order, as the map of files is kept in. */
  predicate Less(p: Path, q: Path) {
    q != [] && (p == [] || p[0] < q[0] || (p[0] == q[0] && Less(p[1..], q[1..])))
  }

  lemma {:induction false} LessIsTotal(p: Path, q: Path)
    ensures Less(p, q) || p == q || Less(q, p)
    ensures !(Less(p, q) && Less(q, p)) && (p == q ==> !Less(p, q))
  {
    if p != [] && q != [] {
      LessIsTotal(p[1..], q[1..]);
      assert p == [p[0]] + p[1..] && q == [q[0]] + q[1..];
    }
  }

  lemma {:induction false} LessIsTransitive(p: Path, q: Path, r: Path)
    requires Less(p, q) && Less(q, r)
    ensures Less(p, r)
  {
    if p != [] && p[0] == q[0] == r[0] { LessIsTransitive(p[1..], q[1..], r[1..]); }
  }

  /** At the first byte where they differ, `p` has ended or has the smaller one. */
  ghost predicate Precedes(p: Path, q: Path) {
    exists k :: 0 <= k <= |p| && k < |q| && p[..k] == q[..k] && (k == |p| || p[k] < q[k])
  }

  lemma {:induction false} PrecedesFurther(p: Path, q: Path)
    requires p != [] && q != [] && p[0] == q[0]
    ensures Precedes(p, q) <==> Precedes(p[1..], q[1..])
  {
    if Precedes(p[1..], q[1..]) {
      var k :| 0 <= k <= |p| - 1 && k < |q| - 1 && p[1..][..k] == q[1..][..k] && (k == |p| - 1 || p[1..][k] < q[1..][k]);
      assert p[..k + 1] == [p[0]] + p[1..][..k] == q[..k + 1];
    }
    if Precedes(p, q) {
      var k :| 0 <= k <= |p| && k < |q| && p[..k] == q[..k] && (k == |p| || p[k] < q[k]);
      assert p[1..][..k - 1] == p[..k][1..] == q[..k][1..] == q[1..][..k - 1];
    }
  }

  lemma {:induction false} LessMeans(p: Path, q: Path)
    ensures Less(p, q) <==> Precedes(p, q)
  {
    if p == [] || q == [] {
      assert p[..0] == q[..0];
    } else if p[0] != q[0] {
      assert p[..0] == q[..0];
      assert forall k :: 0 < k <= |p| && k < |q| ==> p[..k][0] == p[0] && q[..k][0] == q[0];
    } else {
      PrecedesFurther(p, q);
      LessMeans(p[1..], q[1..]);
    }
  }

  predicate IsFirst(p: Path, paths: set<Path>) { p in paths && forall q :: q in paths && q != p ==> Less(p, q) }

  /** The first path of a set. */
  function First(paths: set<Path>): (p: Path)
    requires paths != {}
    ensures IsFirst(p, paths)
  {
    FirstExists(paths);
    FirstIsUnique(paths);
    var p :| p in paths && IsFirst(p, paths);
    p
  }

  lemma FirstIsUnique(paths: set<Path>)
    ensures forall p, q :: IsFirst(p, paths) && IsFirst(q, paths) ==> p == q
  {
    forall p, q | IsFirst(p, paths) && IsFirst(q, paths) ensures p == q { LessIsTotal(p, q); }
  }

  lemma {:induction false} FirstExists(paths: set<Path>)
    requires paths != {}
    ensures exists p :: IsFirst(p, paths)
  {
    var x :| x in paths;
    var others := paths - {x};
    if others == {} {
      assert paths == {x};
      assert IsFirst(x, paths);
    } else {
      FirstExists(others);
      var p :| IsFirst(p, others);
      LessIsTotal(p, x);
      if Less(p, x) {
        assert IsFirst(p, paths);
      } else {
        forall q | q in paths && q != x ensures Less(x, q) {
          if q != p { LessIsTransitive(x, p, q); }
        }
        assert IsFirst(x, paths);
      }
    }
  }

  /** The paths of a set in order. */
  function Sorted(names: set<Path>): (r: seq<Path>)
    ensures forall name :: name in r <==> name in names
    ensures forall i, j :: 0 <= i < j < |r| ==> r[i] != r[j]
    decreases |names|
  {
    if names == {} then [] else [First(names)] + Sorted(names - {First(names)})
  }
}
