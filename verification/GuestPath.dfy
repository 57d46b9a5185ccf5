/** The paths an image may hold, and how archive member names become such paths. */
module GuestPath {
  import opened Common
  import opened BundlePath

  const DOT: octet := 0x2E

  datatype Guest = Root | Place(path: Path) | Unsafe

  predicate GuestChar(c: octet) {
    || 0x41 <= c <= 0x5A || 0x61 <= c <= 0x7A || 0x30 <= c <= 0x39  // letters and digits
    || c == 0x20 || c == 0x2E || c == 0x5F || c == 0x2B || c == 0x40 || c == 0x5B || c == 0x5D
    || c == 0x28 || c == 0x29 || c == 0x7E || c == 0x2D             // blank . _ + @ [ ] ( ) ~ -
  }

  /** Names of credential material. */
  const FORBIDDEN: seq<string> := [
    ".ssh", ".aws", ".azure", ".codex", ".claude", ".gnupg", ".kube", ".docker", ".netrc", ".git-credentials",
    "credentials.json", "auth.json", "credentials.toml", ".env"]

  predicate Credential(part: Path) {
    || (exists s :: s in FORBIDDEN && Spells(part, s))
    || (|part| >= 5 && Spells(part[..5], ".env."))
  }

  predicate GoodPart(part: Path) {
    && part != [] && part != [DOT] && part != [DOT, DOT] && (forall i :: 0 <= i < |part| ==> GuestChar(part[i]))
    && part[0] != 0x20 && part[|part| - 1] != 0x20 && !Credential(part)
  }

  /** A canonical guest path. */
  predicate Canonical(p: Path) {
    p != [] && |p| <= 255 && forall part :: part in Split(p) ==> GoodPart(part)
  }

  function StripSlashes(p: Path): (r: Path)
    ensures r <= p && (r != [] ==> r[|r| - 1] != SLASH) && forall i :: |r| <= i < |p| ==> p[i] == SLASH
  {
    if p != [] && p[|p| - 1] == SLASH then StripSlashes(p[..|p| - 1]) else p
  }

  function StripDot(p: Path): Path { if |p| >= 2 && p[0] == DOT && p[1] == SLASH then p[2..] else p }

  /** `guest_path`: a leading "./" and trailing slashes go, the root is no path, and the rest must be canonical. */
  function Normalised(name: Path): Guest {
    var p := StripSlashes(StripDot(name));
    if p == [] || p == [DOT] then Root else if Canonical(p) then Place(p) else Unsafe
  }

  lemma FirstPart(p: Path)
    requires |p| >= 2 && p[0] == DOT && p[1] == SLASH
    ensures [DOT] in Split(p)
  {
    assert p == [DOT] + [SLASH] + p[2..];
    SplitJoined([DOT], p[2..]);
    SplitPlain([DOT]);
    assert Split(p)[0] == [DOT];
  }

  lemma LastPart(p: Path)
    requires p != [] && p[|p| - 1] == SLASH
    ensures [] in Split(p)
  {
    assert p == p[..|p| - 1] + [SLASH] + [];
    SplitJoined(p[..|p| - 1], []);
    assert Split(p)[|Split(p)| - 1] == [];
  }

  /** Canonical paths are exactly those that normalise to themselves. */
  lemma NormalisedMeans(p: Path)
    ensures Canonical(p) <==> Normalised(p) == Place(p)
  {
    SplitPlain([DOT]);
    assert [DOT] in Split([DOT]);
    if Canonical(p) {
      if |p| >= 2 && p[0] == DOT && p[1] == SLASH { FirstPart(p); }
      if p[|p| - 1] == SLASH { LastPart(p); }
    }
  }

  lemma NormalisedIsCanonical(name: Path)
    ensures Normalised(name).Place? ==> Canonical(Normalised(name).path)
  {}

  lemma AncestorIsCanonical(p: Path, a: Path)
    requires Canonical(p) && a in Ancestors(p)
    ensures Canonical(a) && |a| < |p|
  {
    var i :| 0 <= i < |p| && p[i] == SLASH && a == p[..i];
    assert p == a + [SLASH] + p[i + 1..];
    SplitJoined(a, p[i + 1..]);
    assert forall part :: part in Split(a) ==> part in Split(p);
    assert [] in Split([]);
  }

  lemma AncestorIsTransitive(p: Path, a: Path, b: Path)
    requires a in Ancestors(p) && b in Ancestors(a)
    ensures b in Ancestors(p)
  {
    var i :| 0 <= i < |p| && p[i] == SLASH && a == p[..i];
    var j :| 0 <= j < |a| && a[j] == SLASH && b == a[..j];
    assert p[j] == SLASH && p[..j] == b;
  }
}
