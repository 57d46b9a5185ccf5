/** What a member must be to add something to an image, and what an image made from layers can hold. */
module ImageContents {
  import opened Common
  import opened BundlePath
  import opened ImageLayers
  import opened ImageMerge
  import GuestPath

  // ---- Links -------------------------------------------------------------------------------

  ghost predicate Up(part: Path) { part == [0x2E, 0x2E] }

  ghost predicate Down(part: Path) { part != [] && part != [0x2E] && !Up(part) }

  ghost function UpBy(part: Path): nat { if Up(part) then 1 else 0 }

  ghost function DownBy(part: Path): nat { if Down(part) then 1 else 0 }

  /** How many of the parts lead up, and how many down. */
  ghost function Ups(parts: seq<Path>): nat {
    if parts == [] then 0 else UpBy(parts[0]) + Ups(parts[1..])
  }

  ghost function Downs(parts: seq<Path>): nat {
    if parts == [] then 0 else DownBy(parts[0]) + Downs(parts[1..])
  }

  /** At no point have more parts led up than there were directories to leave. */
  ghost predicate NeverAbove(parts: seq<Path>, depth: nat) {
    forall k :: 0 <= k <= |parts| ==> Ups(parts[..k]) <= depth + Downs(parts[..k])
  }

  lemma FrontCounts(parts: seq<Path>, k: nat)
    requires 0 < k <= |parts|
    ensures Ups(parts[..k]) == UpBy(parts[0]) + Ups(parts[1..][..k - 1])
    ensures Downs(parts[..k]) == DownBy(parts[0]) + Downs(parts[1..][..k - 1])
  {
    assert parts[..k][1..] == parts[1..][..k - 1];
  }

  lemma NeverAboveNext(parts: seq<Path>, depth: nat)
    requires parts != []
    ensures NeverAbove(parts, depth) <==>
            UpBy(parts[0]) <= depth + DownBy(parts[0]) && NeverAbove(parts[1..], depth + DownBy(parts[0]) - UpBy(parts[0]))
  {
    if NeverAbove(parts, depth) {
      FrontCounts(parts, 1);
      forall k | 0 <= k <= |parts| - 1
        ensures Ups(parts[1..][..k]) <= depth + DownBy(parts[0]) - UpBy(parts[0]) + Downs(parts[1..][..k])
      {
        FrontCounts(parts, k + 1);
      }
    }
    if UpBy(parts[0]) <= depth + DownBy(parts[0]) && NeverAbove(parts[1..], depth + DownBy(parts[0]) - UpBy(parts[0])) {
      forall k | 0 <= k <= |parts| ensures Ups(parts[..k]) <= depth + Downs(parts[..k]) {
        if k > 0 { FrontCounts(parts, k); }
      }
    }
  }

  lemma {:induction false} StaysInsideMeans(parts: seq<Path>, depth: nat)
    ensures StaysInside(parts, depth) <==> NeverAbove(parts, depth)
  {
    if parts != [] {
      NeverAboveNext(parts, depth);
      if UpBy(parts[0]) <= depth + DownBy(parts[0]) {
        StaysInsideMeans(parts[1..], depth + DownBy(parts[0]) - UpBy(parts[0]));
      }
    }
  }

  lemma {:induction false} SplitCounts(p: Path)
    ensures |Split(p)| == 1 + multiset(p)[SLASH]
  {
    if p != [] {
      SplitCounts(p[1..]);
      assert p == [p[0]] + p[1..];
    }
  }

  /** A link of 1 to 255 bytes that cannot be followed out of the root: from the root if it is absolute, otherwise from
      below as many directories as its path has slashes. */
  ghost predicate Contained(name: Path, target: Path) {
    && 1 <= |target| <= 255 && 0 !in target
    && NeverAbove(Split(target), if target[0] == 0x2F then 0 else multiset(name)[0x2F])
  }

  lemma GoodTargetMeans(name: Path, target: Path)
    ensures GoodTarget(name, target) <==> Contained(name, target)
  {
    if target != [] {
      SplitCounts(name);
      StaysInsideMeans(Split(target), if target[0] == SLASH then 0 else |Split(name)| - 1);
    }
  }

  // ---- Members -----------------------------------------------------------------------------

  /** No bit above the nine permission bits is set, of a directory none above the sticky bit. */
  ghost predicate PlainMode(mode: nat, directory: bool) { mode % 4096 < if directory then 1024 else 512 }

  lemma ModesMean(mode: nat, directory: bool)
    ensures PlainMode(mode, directory) <==> !Privileged(mode) && (directory || !Sticky(mode))
  {
    assert mode % 4096 == mode / 1024 % 4 * 1024 + mode % 1024;
    assert mode % 1024 == mode / 512 % 2 * 512 + mode % 512;
  }

  /** The entry a member stands for. */
  ghost predicate StandsFor(m: Member, name: Path, e: Entry) {
    match e
    case Folder(mode) => m.kind == ADirectory && PlainMode(m.mode, true) && mode == m.mode % 4096
    case Filed(mode, data) =>
      && m.kind == AFile && PlainMode(m.mode, false) && mode == m.mode % 4096
      && data == m.data && |data| == m.size <= 512 * 1024 * 1024
    case Linked(target) => m.kind == ALink && PlainMode(m.mode, false) && target == m.target && Contained(name, target)
  }

  lemma LowBits(mode: nat)
    ensures mode % 4096 < 512 ==> mode % 512 == mode % 4096
    ensures mode % 4096 < 1024 ==> mode % 1024 == mode % 4096
  {
    var high, low := mode / 4096, mode % 4096;
    assert mode == 512 * (8 * high) + low && mode == 1024 * (4 * high) + low;
  }

  /** A member adds exactly the entry it stands for, under its canonical path; it adds nothing if it is the root and is
      refused otherwise. */
  lemma AddsExactly(m: Member, name: Path, e: Entry)
    ensures ContributionOf(m) == Adds(name, e) <==> GuestPath.Normalised(m.name) == GuestPath.Place(name) && StandsFor(m, name, e)
    ensures ContributionOf(m).Nothing? <==> GuestPath.Normalised(m.name).Root?
  {
    ModesMean(m.mode, m.kind == ADirectory);
    LowBits(m.mode);
    if e.Linked? { GoodTargetMeans(name, e.target); }
    if GuestPath.Normalised(m.name) == GuestPath.Place(name) { GoodTargetMeans(name, m.target); }
  }

  // ---- Images ------------------------------------------------------------------------------

  /** What an image may hold at a path. */
  ghost predicate Safe(name: Path, e: Entry) {
    && GuestPath.Canonical(name)
    && match e
       case Folder(mode) => mode < 1024
       case Filed(mode, data) => mode < 512 && |data| <= 512 * 1024 * 1024
       case Linked(target) => Contained(name, target)
  }

  lemma AddedIsSafe(m: Member, name: Path, e: Entry)
    requires ContributionOf(m) == Adds(name, e)
    ensures Safe(name, e)
  {
    AddsExactly(m, name, e);
    GuestPath.NormalisedIsCanonical(m.name);
  }

  /** Whatever the layers, the image made of them has canonical paths only, no special mode bits but a directory's
      sticky bit, no file above 512 MiB and no link out of the root. */
  lemma ImageIsSafe(image: Image, layers: seq<seq<Member>>, n: Path)
    requires ImageOf(image, layers) && n in image
    ensures Safe(n, image[n])
  {
    var base :| Exactly(base, ContributionOf, layers) && Completed(image, base);
    var at :| at in base && (at == n || (n !in base && n in Ancestors(at)));
    assert AddedBy(ContributionOf, layers, at, base[at]);
    var layer, m :| layer in layers && m in layer && ContributionOf(m) == Adds(at, base[at]);
    AddedIsSafe(m, at, base[at]);
    if at != n { GuestPath.AncestorIsCanonical(at, n); }
  }
}
