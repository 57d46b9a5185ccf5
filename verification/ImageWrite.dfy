/** Writing an image as one archive and reading it back. */
module ImageWrite {
  import opened Common
  import opened BundlePath
  import opened ImageLayers
  import opened ImageMerge
  import GuestPath

  const LINK_MODE := 0x1FF  // 0777

  /** The ustar header fields, as the ustar Interchange Format of pax in POSIX.1-2017 sizes them. */
  const LENGTH_NAME := 100
  const LENGTH_LINK := 100
  const LENGTH_PREFIX := 155
  const SIZE_BOUND := 0x2_0000_0000  // eleven octal digits

  datatype Header = Header(prefix: Path, name: Path, kind: Kind, mode: nat, size: nat, target: Path)

  datatype Record = Record(header: Header, data: seq<octet>)

  // ---- Placing a name ----------------------------------------------------------------------

  /** A directory's name is written with a slash at its end. */
  function NameField(n: Path, e: Entry): Path { if e.Folder? then n + [SLASH] else n }

  /** The name can be cut at this slash. */
  predicate CutsAt(name: Path, i: nat) {
    i < |name| && name[i] == SLASH && i <= LENGTH_PREFIX && |name| - i - 1 <= LENGTH_NAME
  }

  /** The first slash from `i` on at which it can. */
  function FirstCut(name: Path, i: nat): (r: Option<nat>)
    ensures r.Some? ==> CutsAt(name, r.value) && i <= r.value && forall j: nat :: i <= j < r.value ==> !CutsAt(name, j)
    ensures r.None? ==> forall j: nat :: i <= j ==> !CutsAt(name, j)
    decreases |name| - i
  {
    if i >= |name| then None else if CutsAt(name, i) then Some(i) else FirstCut(name, i + 1)
  }

  ghost predicate Placeable(name: Path) { |name| <= LENGTH_NAME || exists i :: CutsAt(name, i) }

  /** Whether an entry has a ustar header. */
  ghost predicate Writable(n: Path, e: Entry) {
    Placeable(NameField(n, e)) && (e.Linked? ==> |e.target| <= LENGTH_LINK) && Weight(e) < SIZE_BOUND
  }

  function Place(name: Path): Option<(Path, Path)> {
    if |name| <= LENGTH_NAME then Some(([], name))
    else
      var cut := FirstCut(name, 0);
      if cut.None? then None else Some((name[..cut.value], name[cut.value + 1..]))
  }

  // ---- Writing -----------------------------------------------------------------------------

  function MemberFor(n: Path, e: Entry): Member {
    match e
    case Folder(mode) => Member(n, ADirectory, mode, 0, [], [])
    case Filed(mode, data) => Member(n, AFile, mode, |data|, data, [])
    case Linked(target) => Member(n, ALink, LINK_MODE, 0, [], target)
  }

  /** `addfile` for one entry; None where it raises. */
  function RecordFor(n: Path, e: Entry): (r: Option<Record>)
    ensures r.Some? <==> Writable(n, e)
  {
    var m, place := MemberFor(n, e), Place(NameField(n, e));
    if |m.target| > LENGTH_LINK || place.None? || m.size >= SIZE_BOUND then None
    else Some(Record(Header(place.value.0, place.value.1, m.kind, m.mode % 4096, m.size, m.target), m.data))
  }

  ghost predicate AllWritable(image: Image) { forall n :: n in image ==> Writable(n, image[n]) }

  /** The records are those of these names of an image. */
  ghost predicate WrittenFor(records: seq<Record>, names: seq<Path>, image: Image) {
    && |records| == |names| && (forall i, j :: 0 <= i < j < |names| ==> names[i] != names[j])
    && forall i :: 0 <= i < |names| ==> names[i] in image && RecordFor(names[i], image[names[i]]) == Some(records[i])
  }

  lemma WrittenNext(records: seq<Record>, names: seq<Path>, i: nat, image: Image, next: Record)
    requires i < |names| && WrittenFor(records, names[..i], image) && names[i] !in names[..i] && names[i] in image
    requires RecordFor(names[i], image[names[i]]) == Some(next)
    ensures WrittenFor(records + [next], names[..i + 1], image)
  {
    var more := records + [next];
    forall k | 0 <= k < i + 1
      ensures names[..i + 1][k] in image && RecordFor(names[k], image[names[k]]) == Some(more[k])
    {
      if k < i { assert names[..i][k] == names[k]; }
    }
  }

  lemma WrittenAll(records: seq<Record>, names: seq<Path>, image: Image)
    requires WrittenFor(records, names, image) && forall n :: n in image ==> n in names
    ensures AllWritable(image)
  {
    forall n | n in image ensures Writable(n, image[n]) {
      var k :| 0 <= k < |names| && names[k] == n;
    }
  }

  /** `write_tar`: one record for each path, in order, exactly if every path has one. */
  method WriteTar(image: Image) returns (r: Option<seq<Record>>)
    ensures r.Some? <==> AllWritable(image)
    ensures r.Some? ==> WrittenFor(r.value, Sorted(image.Keys), image)
  {
    var names := Sorted(image.Keys);
    var records := [];
    for i := 0 to |names|
      invariant WrittenFor(records, names[..i], image)
    {
      assert names[i] in names;
      var next := RecordFor(names[i], image[names[i]]);
      if next.None? { return None; }
      WrittenNext(records, names, i, image, next.value);
      records := records + [next.value];
    }
    assert names[..|names|] == names;
    WrittenAll(records, names, image);
    return Some(records);
  }

  // ---- Reading a record --------------------------------------------------------------------

  /** A record as an archive reader presents it: trailing slashes of a directory's name field go, and the prefix
      comes before it. */
  function Presented(r: Record): Member {
    var h := r.header;
    var name := if h.kind == ADirectory then GuestPath.StripSlashes(h.name) else h.name;
    Member(if h.prefix == [] then name else h.prefix + [SLASH] + name, h.kind, h.mode, h.size, r.data, h.target)
  }

  function PresentedAll(records: seq<Record>): (members: seq<Member>)
    ensures |members| == |records| && forall i :: 0 <= i < |records| ==> members[i] == Presented(records[i])
  {
    seq(|records|, i requires 0 <= i < |records| => Presented(records[i]))
  }

  lemma StripOne(p: Path)
    requires p == [] || p[|p| - 1] != SLASH
    ensures GuestPath.StripSlashes(p + [SLASH]) == p
  {
    assert (p + [SLASH])[..|p|] == p;
  }

  lemma FirstIsEmpty(p: Path)
    requires p != [] && p[0] == SLASH
    ensures [] in Split(p)
  {
    assert Split(p)[0] == [];
  }

  /** A canonical path neither begins nor ends with a slash. */
  lemma CanonicalEnds(n: Path)
    requires GuestPath.Canonical(n)
    ensures n[0] != SLASH && n[|n| - 1] != SLASH
  {
    if n[|n| - 1] == SLASH { GuestPath.LastPart(n); }
    if n[0] == SLASH { FirstIsEmpty(n); }
  }

  /** What the two fields hold together: the name, at most with a slash at the end of a directory's. */
  lemma CutReturns(n: Path, folder: bool, i: nat)
    requires n != [] && n[|n| - 1] != SLASH
    requires var name := if folder then n + [SLASH] else n; i < |name| && name[i] == SLASH
    ensures var name := if folder then n + [SLASH] else n;
            var last := if folder then GuestPath.StripSlashes(name[i + 1..]) else name[i + 1..];
            name[..i] + [SLASH] + last == n || (folder && name[..i] + [SLASH] + last == n + [SLASH])
  {
    if folder {
      var name := n + [SLASH];
      if i < |n| {
        assert name[i + 1..] == n[i + 1..] + [SLASH];
        StripOne(n[i + 1..]);
        assert name[..i] == n[..i] && n == n[..i] + [SLASH] + n[i + 1..];
      } else {
        assert name[i + 1..] == [] && name[..i] == n;
      }
    } else {
      assert n == n[..i] + [SLASH] + n[i + 1..];
    }
  }

  lemma NameReturns(n: Path, e: Entry)
    requires GuestPath.Canonical(n) && RecordFor(n, e).Some?
    ensures var name := Presented(RecordFor(n, e).value).name; name == n || (e.Folder? && name == n + [SLASH])
  {
    CanonicalEnds(n);
    if |NameField(n, e)| <= LENGTH_NAME {
      if e.Folder? { StripOne(n); }
    } else {
      CutReturns(n, e.Folder?, FirstCut(NameField(n, e), 0).value);
    }
  }

  lemma SlashIsDropped(n: Path)
    requires GuestPath.Canonical(n)
    ensures GuestPath.Normalised(n + [SLASH]) == GuestPath.Normalised(n)
  {
    CanonicalEnds(n);
    GuestPath.NormalisedMeans(n);
    StripOne(n);
    if |n| >= 2 && n[0] == GuestPath.DOT && n[1] == SLASH { GuestPath.FirstPart(n); }
  }

  lemma SameContribution(m: Member, k: Member)
    requires GuestPath.Normalised(m.name) == GuestPath.Normalised(k.name) && k == m.(name := k.name)
    ensures ContributionOf(k) == ContributionOf(m)
  {}

  lemma PresentedMeans(n: Path, e: Entry)
    requires RecordFor(n, e).Some? && MemberFor(n, e).mode < 4096
    ensures var m := Presented(RecordFor(n, e).value); m == MemberFor(n, e).(name := m.name)
  {}

  lemma RewritableMode(n: Path, e: Entry)
    requires Rewritable(n, e)
    ensures MemberFor(n, e).mode < 1024
  {}

  /** What is read back adds the entry that was written. */
  lemma RecordReturns(n: Path, e: Entry)
    requires GuestPath.Canonical(n) && Rewritable(n, e) && RecordFor(n, e).Some?
    ensures ContributionOf(Presented(RecordFor(n, e).value)) == Adds(n, e)
  {
    RewritableMode(n, e);
    PresentedMeans(n, e);
    NameReturns(n, e);
    SlashIsDropped(n);
    SameContribution(MemberFor(n, e), Presented(RecordFor(n, e).value));
  }

  // ---- What a reader makes of the members --------------------------------------------------

  /** A member written for an entry adds that entry. */
  predicate Rewritable(n: Path, e: Entry) { ContributionOf(MemberFor(n, e)) == Adds(n, e) }

  lemma AddedIsRewritable(m: Member)
    requires ContributionOf(m).Adds?
    ensures Rewritable(ContributionOf(m).name, ContributionOf(m).entry)
  {
    var c := ContributionOf(m);
    GuestPath.NormalisedIsCanonical(m.name);
    GuestPath.NormalisedMeans(c.name);
    ModesKept(m.mode);
  }

  lemma ModesKept(mode: nat)
    requires !Privileged(mode)
    ensures !Privileged(mode % 1024) && mode % 1024 % 1024 == mode % 1024
    ensures !Privileged(mode % 512) && mode % 512 % 512 == mode % 512 && !Sticky(mode % 512)
  {}

  lemma FolderIsRewritable(n: Path)
    requires GuestPath.Canonical(n)
    ensures Rewritable(n, DEFAULT_FOLDER)
  {
    GuestPath.NormalisedMeans(n);
  }

  lemma EntryIsRewritable(image: Image, layers: seq<seq<Member>>, n: Path)
    requires ImageOf(image, layers) && n in image
    ensures Rewritable(n, image[n]) && GuestPath.Canonical(n)
  {
    var base :| Exactly(base, ContributionOf, layers) && Completed(image, base);
    if n in base {
      BaseIsRewritable(base, layers, n);
    } else {
      var below :| below in base && n in Ancestors(below);
      BaseIsRewritable(base, layers, below);
      GuestPath.AncestorIsCanonical(below, n);
      FolderIsRewritable(n);
    }
  }

  lemma BaseIsRewritable(base: Image, layers: seq<seq<Member>>, n: Path)
    requires Exactly(base, ContributionOf, layers) && n in base
    ensures Rewritable(n, base[n]) && GuestPath.Canonical(n)
  {
    assert AddedBy(ContributionOf, layers, n, base[n]);
    var layer, m :| layer in layers && m in layer && ContributionOf(m) == Adds(n, base[n]);
    AddedIsRewritable(m);
    GuestPath.NormalisedIsCanonical(m.name);
  }

  // ---- Reading back ------------------------------------------------------------------------

  /** Each member adds the entry of its name. */
  ghost predicate Returns(give: Giver, members: seq<Member>, names: seq<Path>, image: Image) {
    && |members| == |names| && (forall i, j :: 0 <= i < j < |names| ==> names[i] != names[j])
    && forall i :: 0 <= i < |names| ==> names[i] in image && give(members[i]) == Adds(names[i], image[names[i]])
  }

  ghost predicate Lists(names: seq<Path>, image: Image) {
    && (forall i :: 0 <= i < |names| ==> names[i] in image)
    && (forall i, j :: 0 <= i < j < |names| ==> names[i] != names[j])
    && (forall n :: n in image ==> n in names)
  }

  lemma WrittenReturns(records: seq<Record>, names: seq<Path>, image: Image)
    requires WrittenFor(records, names, image)
    requires forall n :: n in image ==> Rewritable(n, image[n]) && GuestPath.Canonical(n)
    ensures Returns(ContributionOf, PresentedAll(records), names, image)
  {
    forall i | 0 <= i < |names| ensures ContributionOf(Presented(records[i])) == Adds(names[i], image[names[i]]) {
      RecordReturns(names[i], image[names[i]]);
    }
  }

  /** What the members add, name by name. */
  function AddsFor(names: seq<Path>, image: Image): (adds: seq<Contribution>)
    requires forall i :: 0 <= i < |names| ==> names[i] in image
    ensures |adds| == |names| && forall i :: 0 <= i < |adds| ==> adds[i] == Adds(names[i], image[names[i]])
  {
    seq(|names|, i requires 0 <= i < |names| => Adds(names[i], image[names[i]]))
  }

  lemma AddsForNext(names: seq<Path>, image: Image, less: Image)
    requires names != [] && (forall i :: 0 <= i < |names| ==> names[i] in image)
    requires forall i :: 0 <= i < |names| - 1 ==> names[i] in less && less[names[i]] == image[names[i]]
    ensures var last := names[|names| - 1];
            AddsFor(names, image) == AddsFor(names[..|names| - 1], less) + [Adds(last, image[last])]
  {}

  lemma {:induction false} GivenFor(give: Giver, members: seq<Member>, names: seq<Path>, image: Image)
    requires Returns(give, members, names, image)
    ensures Given(give, members) == AddsFor(names, image)
    decreases |names|
  {
    if names != [] {
      GivenFor(give, members[..|names| - 1], names[..|names| - 1], image);
      AddsForNext(names, image, image);
    }
  }

  lemma {:induction false} WeightFor(names: seq<Path>, image: Image)
    requires Lists(names, image)
    ensures WeightOf(AddsFor(names, image)) == MapWeight(image)
    decreases |names|
  {
    if names == [] {
      assert image == map[];
    } else {
      var last := names[|names| - 1];
      var front, rest := names[..|names| - 1], image - {last};
      ListsLess(names, image);
      WeightFor(front, rest);
      WeightAt(image, last);
      AddsForNext(names, image, rest);
      WeightNext(AddsFor(front, rest), Adds(last, image[last]));
    }
  }

  lemma ListsLess(names: seq<Path>, image: Image)
    requires Lists(names, image) && names != []
    ensures Lists(names[..|names| - 1], image - {names[|names| - 1]})
  {
    var front, rest := names[..|names| - 1], image - {names[|names| - 1]};
    forall n | n in rest ensures n in front {
      var i :| 0 <= i < |names| && names[i] == n;
      assert front[i] == n;
    }
  }

  lemma NamesFor(names: seq<Path>, image: Image)
    requires Lists(names, image)
    ensures NamesOf(AddsFor(names, image)) == image.Keys
  {
    var adds := AddsFor(names, image);
    forall n | n in image ensures n in NamesOf(adds) {
      var i :| 0 <= i < |names| && names[i] == n;
      assert adds[i].name == n;
    }
  }

  lemma FitsNothing(adds: seq<Contribution>, limits: Limits)
    requires (forall i :: 0 <= i < |adds| ==> adds[i].Adds?) && Distinct(adds)
    requires WeightOf(adds) <= limits.expanded && |NamesOf(adds)| <= limits.files
    ensures Fits(adds, map[], 0, limits)
  {
    var none: Image := map[];
    assert none.Keys + NamesOf(adds) == NamesOf(adds);
  }

  lemma FitsFresh(names: seq<Path>, image: Image, limits: Limits)
    requires Lists(names, image) && MapWeight(image) <= limits.expanded && |image.Keys| <= limits.files
    ensures Fits(AddsFor(names, image), map[], 0, limits)
  {
    WeightFor(names, image);
    NamesFor(names, image);
    FitsNothing(AddsFor(names, image), limits);
  }

  /** The archive of an image fits the limits the image was made with. */
  lemma ArchiveFits(give: Giver, members: seq<Member>, names: seq<Path>, image: Image, limits: Limits)
    requires Returns(give, members, names, image) && Lists(names, image)
    requires MapWeight(image) <= limits.expanded && |image.Keys| <= limits.files
    ensures NoneRefused(give, members) && Fits(Given(give, members), map[], 0, limits)
  {
    GivenFor(give, members, names, image);
    FitsFresh(names, image, limits);
  }

  /** And adds exactly the image. */
  lemma ArchiveAdds(give: Giver, members: seq<Member>, names: seq<Path>, image: Image)
    requires Returns(give, members, names, image) && Lists(names, image)
    ensures Exactly(image, give, [members])
  {
    forall n, e ensures AddedBy(give, [members], n, e) <==> n in image && image[n] == e {
      if n in image && image[n] == e {
        var i :| 0 <= i < |names| && names[i] == n;
        assert members[i] in members && members in [members];
      }
    }
  }

  /** One layer that adds exactly an image is mergeable. */
  lemma ArchiveMerges(give: Giver, members: seq<Member>, image: Image, limits: Limits)
    requires NoneRefused(give, members) && Fits(Given(give, members), map[], 0, limits) && Exactly(image, give, [members])
    requires |image.Keys| <= limits.files
    ensures Mergeable(give, [members], limits) && AllNames(give, [members]) == image.Keys
  {
    ExactlyMeans(image, give, [members]);
    assert [members][..0] == [];
    assert TotalOf(give, [members]) == TotalOf(give, []) + WeightOf(Given(give, members));
  }

  lemma ClosedIsCompleted(image: Image, base: Image)
    requires Closed(image) && base == image
    ensures !Descends(base) && base.Keys + AncestorsOf(base.Keys) == image.Keys
    ensures forall after :: Completed(after, base) ==> after == image
  {
    forall a | a in AncestorsOf(image.Keys) ensures a in image {
      var n :| n in image && a in Ancestors(n);
    }
    forall after | Completed(after, base) ensures after == image { assert after.Keys == image.Keys; }
  }

  lemma SameImage(again: Image, image: Image, members: seq<Member>)
    requires ImageOf(again, [members]) && Exactly(image, ContributionOf, [members]) && Closed(image)
    ensures again == image
  {
    var base :| Exactly(base, ContributionOf, [members]) && Completed(again, base);
    ExactlyDetermines(base, image, ContributionOf, [members], [members]);
    ClosedIsCompleted(image, base);
  }

  lemma ReadsBack(image: Image, layers: seq<seq<Member>>, records: seq<Record>, limits: Limits)
    requires ImageOf(image, layers) && Closed(image) && Within(image, limits)
    requires WrittenFor(records, Sorted(image.Keys), image)
    ensures Acceptable([PresentedAll(records)], limits) && Exactly(image, ContributionOf, [PresentedAll(records)])
  {
    var members := PresentedAll(records);
    forall n | n in image ensures Rewritable(n, image[n]) && GuestPath.Canonical(n) { EntryIsRewritable(image, layers, n); }
    WrittenReturns(records, Sorted(image.Keys), image);
    ArchiveFits(ContributionOf, members, Sorted(image.Keys), image, limits);
    ArchiveAdds(ContributionOf, members, Sorted(image.Keys), image);
    ArchiveMerges(ContributionOf, members, image, limits);
    DescendsMeans(image, ContributionOf, [members]);
    ClosedIsCompleted(image, image);
  }

  /** Writing an image made from layers succeeds exactly if every path of it has a ustar header, and reading the
      archive back with the same limits then gives the image. */
  method WriteAndRead(layers: seq<seq<Member>>, limits: Limits)
    returns (image: Option<Image>, records: Option<seq<Record>>, again: Option<Image>)
    ensures image.Some? <==> Acceptable(layers, limits)
    ensures image.Some? ==> ImageOf(image.value, layers)
    ensures records.Some? <==> image.Some? && AllWritable(image.value)
    ensures if records.Some? then again == image else again.None?
  {
    image := Members(layers, limits);
    records, again := None, None;
    if image.Some? {
      records := WriteTar(image.value);
      if records.Some? {
        var members := PresentedAll(records.value);
        again := Members([members], limits);
        ReadsBack(image.value, layers, records.value, limits);
        if again.Some? { SameImage(again.value, image.value, members); }
      }
    }
  }

  // ---- Images that cannot be written -------------------------------------------------------

  const LETTER: octet := 0x61

  function Letters(n: nat): (p: Path)
    ensures |p| == n && forall i :: 0 <= i < n ==> p[i] == LETTER
  {
    seq(n, _ => LETTER)
  }

  lemma LettersAreCanonical(n: nat)
    requires 0 < n <= 255
    ensures GuestPath.Canonical(Letters(n)) && Split(Letters(n)) == [Letters(n)] && Ancestors(Letters(n)) == {}
  {
    SplitPlain(Letters(n));
    assert Letters(n)[0] == LETTER;
    assert forall s :: s in GuestPath.FORBIDDEN ==> !Spells(Letters(n), s);
  }

  lemma OneGives(give: Giver, m: Member, n: Path, e: Entry)
    requires give(m) == Adds(n, e)
    ensures Given(give, [m]) == [Adds(n, e)] && NoneRefused(give, [m])
  {
    assert [m][..0] == [];
  }

  lemma OneWeighs(c: Contribution)
    requires c.Adds?
    ensures WeightOf([c]) == Weight(c.entry) && NamesOf([c]) == {c.name} && Distinct([c])
  {
    WeightNext([], c);
    assert [] + [c] == [c];
    assert [c][0].name in NamesOf([c]);
  }

  lemma OneAdds(give: Giver, m: Member, n: Path, e: Entry)
    requires give(m) == Adds(n, e)
    ensures Exactly(map[n := e], give, [[m]])
  {
    var image: Image := map[n := e];
    assert m in [m] && [m] in [[m]];
  }

  lemma OneMerges(give: Giver, m: Member, n: Path, e: Entry, limits: Limits)
    requires give(m) == Adds(n, e) && Weight(e) == 0 && limits.files > 0
    ensures Mergeable(give, [[m]], limits) && AllNames(give, [[m]]) == {n}
  {
    var image: Image := map[n := e];
    OneGives(give, m, n, e);
    OneWeighs(Adds(n, e));
    FitsNothing([Adds(n, e)], limits);
    OneAdds(give, m, n, e);
    assert image.Keys == {n};
    ArchiveMerges(give, [m], image, limits);
  }

  /** One layer with one member. */
  lemma OneIsAcceptable(m: Member, n: Path, e: Entry, limits: Limits)
    requires ContributionOf(m) == Adds(n, e) && Ancestors(n) == {} && Weight(e) == 0 && GoodLimits(limits)
    ensures Acceptable([[m]], limits) && Exactly(map[n := e], ContributionOf, [[m]])
  {
    OneMerges(ContributionOf, m, n, e, limits);
    OneAdds(ContributionOf, m, n, e);
    DescendsMeans(map[n := e], ContributionOf, [[m]]);
    assert AncestorsOf({n}) == {};
    assert {n} + {} == {n};
  }

  lemma OnlyImage(m: Member, n: Path, e: Entry, image: Image)
    requires Exactly(map[n := e], ContributionOf, [[m]]) && ImageOf(image, [[m]])
    ensures n in image && image[n] == e
  {
    var base :| Exactly(base, ContributionOf, [[m]]) && Completed(image, base);
    ExactlyDetermines(base, map[n := e], ContributionOf, [[m]], [[m]]);
  }

  /** A file name of 101 bytes is accepted within any limits, and cannot be written. */
  lemma LongNameIsNotWritten(limits: Limits) returns (layers: seq<seq<Member>>)
    requires GoodLimits(limits)
    ensures Acceptable(layers, limits) && forall image :: ImageOf(image, layers) ==> !AllWritable(image)
  {
    var n, e := Letters(LENGTH_NAME + 1), Filed(0, []);
    var m := Member(n, AFile, 0, 0, [], []);
    LettersAreCanonical(|n|);
    GuestPath.NormalisedMeans(n);
    OneIsAcceptable(m, n, e, limits);
    layers := [[m]];
    forall image | ImageOf(image, layers) ensures !AllWritable(image) { OnlyImage(m, n, e, image); }
  }

  /** So is a link target of 101 bytes. */
  lemma LongTargetIsNotWritten(limits: Limits) returns (layers: seq<seq<Member>>)
    requires GoodLimits(limits)
    ensures Acceptable(layers, limits) && forall image :: ImageOf(image, layers) ==> !AllWritable(image)
  {
    var n, target := Letters(1), Letters(LENGTH_LINK + 1);
    var m := Member(n, ALink, 0, 0, [], target);
    LettersAreCanonical(1);
    LettersAreCanonical(LENGTH_LINK + 1);
    GuestPath.NormalisedMeans(n);
    assert GoodTarget(n, target);
    OneIsAcceptable(m, n, Linked(target), limits);
    layers := [[m]];
    forall image | ImageOf(image, layers) ensures !AllWritable(image) { OnlyImage(m, n, Linked(target), image); }
  }
}
