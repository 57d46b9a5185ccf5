/** Merging archive layers into one image, and writing the image out again. */
module ImageLayers {
  import opened Common
  import opened BundlePath
  import GuestPath

  const MAX_MEMBER := 512 * 1024 * 1024
  const MAX_EXPANDED := 4 * 1024 * 1024 * 1024
  const MAX_FILES := 200000

  datatype Kind = ADirectory | AFile | ALink | AnythingElse

  /** An archive member as it is read. */
  datatype Member = Member(name: Path, kind: Kind, mode: nat, size: nat, data: seq<octet>, target: Path)

  datatype Entry = Folder(mode: nat) | Filed(mode: nat, data: seq<octet>) | Linked(target: Path)

  type Image = map<Path, Entry>

  datatype Limits = Limits(expanded: nat, files: nat)

  // ---- What a member adds ------------------------------------------------------------------

  datatype Contribution = Nothing | Refused | Adds(name: Path, entry: Entry)

  /** Set-user, set-group (`mode & 0o6000`) and the sticky bit (`mode & 0o1000`). */
  predicate Privileged(mode: nat) { mode / 1024 % 4 != 0 }
  predicate Sticky(mode: nat) { mode / 512 % 2 == 1 }

  /** Following the parts of a link from a depth never leaves the root. */
  predicate StaysInside(parts: seq<Path>, depth: nat) {
    if parts == [] then true
    else if parts[0] == [] || parts[0] == [GuestPath.DOT] then StaysInside(parts[1..], depth)
    else if parts[0] == [GuestPath.DOT, GuestPath.DOT] then depth > 0 && StaysInside(parts[1..], depth - 1)
    else StaysInside(parts[1..], depth + 1)
  }

  predicate GoodTarget(name: Path, target: Path) {
    && target != [] && 0 !in target && |target| <= 255
    && StaysInside(Split(target), if target[0] == SLASH then 0 else |Split(name)| - 1)
  }

  function ContributionOf(m: Member): Contribution {
    match GuestPath.Normalised(m.name)
    case Root => Nothing
    case Unsafe => Refused
    case Place(name) =>
      if m.kind == AnythingElse || Privileged(m.mode) || (Sticky(m.mode) && m.kind != ADirectory) then Refused
      else match m.kind
        case AFile => if m.size > MAX_MEMBER || |m.data| != m.size then Refused else Adds(name, Filed(m.mode % 512, m.data))
        case ADirectory => Adds(name, Folder(m.mode % 1024))
        case _ => if GoodTarget(name, m.target) then Adds(name, Linked(m.target)) else Refused
  }

  function Weight(e: Entry): nat { if e.Filed? then |e.data| else 0 }

  // ---- One layer ---------------------------------------------------------------------------

  type Giver = Member -> Contribution

  /** What the members of a layer add, in order. */
  function Given(give: Giver, layer: seq<Member>): (adds: seq<Contribution>)
    ensures forall i :: 0 <= i < |adds| ==> adds[i].Adds?
  {
    if layer == [] then []
    else
      var front, c := Given(give, layer[..|layer| - 1]), give(layer[|layer| - 1]);
      if c.Adds? then front + [c] else front
  }

  ghost predicate NoneRefused(give: Giver, layer: seq<Member>) { forall m :: m in layer ==> !give(m).Refused? }

  ghost function NamesOf(adds: seq<Contribution>): set<Path>
    requires forall i :: 0 <= i < |adds| ==> adds[i].Adds?
  {
    set i | 0 <= i < |adds| :: adds[i].name
  }

  function WeightOf(adds: seq<Contribution>): nat
    requires forall i :: 0 <= i < |adds| ==> adds[i].Adds?
  {
    if adds == [] then 0 else WeightOf(adds[..|adds| - 1]) + Weight(adds[|adds| - 1].entry)
  }

  ghost predicate Distinct(adds: seq<Contribution>)
    requires forall i :: 0 <= i < |adds| ==> adds[i].Adds?
  {
    forall i, j :: 0 <= i < j < |adds| ==> adds[i].name != adds[j].name
  }

  /** Nothing added contradicts what is there. */
  ghost predicate Agrees(adds: seq<Contribution>, image: Image)
    requires forall i :: 0 <= i < |adds| ==> adds[i].Adds?
  {
    forall i :: 0 <= i < |adds| && adds[i].name in image ==> image[adds[i].name] == adds[i].entry
  }

  /** The additions can be made to the image within the limits. */
  ghost predicate Fits(adds: seq<Contribution>, image: Image, expanded: nat, limits: Limits)
    requires forall i :: 0 <= i < |adds| ==> adds[i].Adds?
  {
    && Distinct(adds) && Agrees(adds, image)
    && expanded + WeightOf(adds) <= limits.expanded && |image.Keys + NamesOf(adds)| <= limits.files
  }

  /** The image with the additions made. */
  ghost predicate Merged(after: Image, image: Image, adds: seq<Contribution>)
    requires forall i :: 0 <= i < |adds| ==> adds[i].Adds?
  {
    && after.Keys == image.Keys + NamesOf(adds)
    && (forall n :: n in image ==> after[n] == image[n])
    && (forall i :: 0 <= i < |adds| ==> after[adds[i].name] == adds[i].entry)
  }

  lemma {:induction false} GivenPrefix(give: Giver, layer: seq<Member>, i: nat)
    requires i <= |layer|
    ensures Given(give, layer[..i]) <= Given(give, layer)
    decreases |layer| - i
  {
    if i == |layer| {
      assert layer[..i] == layer;
    } else {
      GivenPrefix(give, layer, i + 1);
      assert layer[..i + 1][..i] == layer[..i];
    }
  }

  lemma {:induction false} WeightPrefix(adds: seq<Contribution>, more: seq<Contribution>)
    requires (forall i :: 0 <= i < |more| ==> more[i].Adds?) && adds <= more
    ensures WeightOf(adds) <= WeightOf(more)
    decreases |more|
  {
    if adds != more { WeightPrefix(adds, more[..|more| - 1]); }
  }

  lemma FitsPrefix(adds: seq<Contribution>, more: seq<Contribution>, image: Image, expanded: nat, limits: Limits)
    requires (forall i :: 0 <= i < |more| ==> more[i].Adds?) && adds <= more && Fits(more, image, expanded, limits)
    ensures Fits(adds, image, expanded, limits)
  {
    WeightPrefix(adds, more);
    SubsetSize(image.Keys + NamesOf(adds), image.Keys + NamesOf(more));
  }

  /** The addition can be made to the image as it stands. */
  predicate Joins(c: Contribution, after: Image)
    requires c.Adds?
  {
    c.name in after ==> after[c.name] == c.entry
  }

  lemma WeightNext(adds: seq<Contribution>, c: Contribution)
    requires (forall i :: 0 <= i < |adds| ==> adds[i].Adds?) && c.Adds?
    ensures WeightOf(adds + [c]) == WeightOf(adds) + Weight(c.entry)
  {
    assert (adds + [c])[..|adds|] == adds;
  }

  lemma KeysNext(adds: seq<Contribution>, c: Contribution, image: Image, after: Image)
    requires (forall i :: 0 <= i < |adds| ==> adds[i].Adds?) && c.Adds? && Merged(after, image, adds)
    ensures after[c.name := c.entry].Keys == image.Keys + NamesOf(adds + [c])
  {
    NamesNext(adds, c);
  }

  lemma MergedNext(adds: seq<Contribution>, c: Contribution, image: Image, after: Image)
    requires (forall i :: 0 <= i < |adds| ==> adds[i].Adds?) && c.Adds?
    requires Merged(after, image, adds) && c.name !in NamesOf(adds) && Joins(c, after)
    ensures Merged(after[c.name := c.entry], image, adds + [c])
  {
    KeysNext(adds, c, image, after);
    var more, now := adds + [c], after[c.name := c.entry];
    forall i | 0 <= i < |more| ensures now[more[i].name] == more[i].entry {
      if i < |adds| { assert adds[i].name in NamesOf(adds) && more[i] == adds[i]; }
    }
  }

  lemma FitsNext(adds: seq<Contribution>, c: Contribution, image: Image, after: Image, expanded: nat, limits: Limits)
    requires (forall i :: 0 <= i < |adds| ==> adds[i].Adds?) && c.Adds?
    requires Fits(adds, image, expanded, limits) && Merged(after, image, adds)
    ensures Fits(adds + [c], image, expanded, limits) <==>
              && c.name !in NamesOf(adds) && (c.name in image ==> image[c.name] == c.entry)
              && expanded + WeightOf(adds) + Weight(c.entry) <= limits.expanded
              && |after[c.name := c.entry].Keys| <= limits.files
  {
    KeysNext(adds, c, image, after);
    WeightNext(adds, c);
    DistinctNext(adds, c);
    AgreesNext(adds, c, image);
  }

  lemma NamesNext(adds: seq<Contribution>, c: Contribution)
    requires (forall i :: 0 <= i < |adds| ==> adds[i].Adds?) && c.Adds?
    ensures NamesOf(adds + [c]) == NamesOf(adds) + {c.name}
  {
    var more := adds + [c];
    forall n | n in NamesOf(adds) + {c.name} ensures n in NamesOf(more) {
      if n in NamesOf(adds) {
        var i :| 0 <= i < |adds| && adds[i].name == n;
        assert more[i].name == n;
      } else {
        assert more[|adds|].name == n;
      }
    }
  }

  lemma DistinctNext(adds: seq<Contribution>, c: Contribution)
    requires (forall i :: 0 <= i < |adds| ==> adds[i].Adds?) && c.Adds?
    ensures Distinct(adds + [c]) <==> Distinct(adds) && c.name !in NamesOf(adds)
  {
    var more := adds + [c];
    if Distinct(more) {
      forall i | 0 <= i < |adds| ensures adds[i].name != c.name { assert more[i].name != more[|adds|].name; }
      forall i, j | 0 <= i < j < |adds| ensures adds[i].name != adds[j].name { assert more[i].name != more[j].name; }
    }
    if Distinct(adds) && c.name !in NamesOf(adds) {
      forall i, j | 0 <= i < j < |more| ensures more[i].name != more[j].name {
        if j == |adds| { assert adds[i].name in NamesOf(adds); }
      }
    }
  }

  lemma AgreesNext(adds: seq<Contribution>, c: Contribution, image: Image)
    requires (forall i :: 0 <= i < |adds| ==> adds[i].Adds?) && c.Adds?
    ensures Agrees(adds + [c], image) <==> Agrees(adds, image) && (c.name in image ==> image[c.name] == c.entry)
  {
    var more := adds + [c];
    if Agrees(more, image) {
      assert more[|adds|] == c;
      forall i | 0 <= i < |adds| && adds[i].name in image ensures image[adds[i].name] == adds[i].entry { assert more[i] == adds[i]; }
    }
  }

  /** Where a layer's loop stands: `expanded` counts from `before`. */
  ghost predicate Midway(adds: seq<Contribution>, image: Image, before: nat, limits: Limits, now: Image, expanded: nat, seen: set<Path>)
    requires forall i :: 0 <= i < |adds| ==> adds[i].Adds?
  {
    Fits(adds, image, before, limits) && Merged(now, image, adds) && expanded == before + WeightOf(adds) && seen == NamesOf(adds)
  }

  predicate MayJoin(c: Contribution, limits: Limits, now: Image, expanded: nat, seen: set<Path>)
    requires c.Adds?
  {
    && c.name !in seen && expanded + Weight(c.entry) <= limits.expanded
    && Joins(c, now) && |now[c.name := c.entry].Keys| <= limits.files
  }

  lemma NewInBoth(adds: seq<Contribution>, c: Contribution, image: Image, now: Image)
    requires (forall i :: 0 <= i < |adds| ==> adds[i].Adds?) && c.Adds?
    requires Merged(now, image, adds) && c.name !in NamesOf(adds)
    ensures Joins(c, now) <==> Joins(c, image)
  {}

  lemma MayJoinExactly(c: Contribution, limits: Limits, now: Image, expanded: nat, seen: set<Path>,
                       adds: seq<Contribution>, image: Image, before: nat)
    requires c.Adds? && (forall i :: 0 <= i < |adds| ==> adds[i].Adds?)
    requires Midway(adds, image, before, limits, now, expanded, seen)
    ensures MayJoin(c, limits, now, expanded, seen) <==> Fits(adds + [c], image, before, limits)
  {
    FitsNext(adds, c, image, now, before, limits);
    if c.name !in seen { NewInBoth(adds, c, image, now); }
  }

  lemma MidwayNext(c: Contribution, limits: Limits, now: Image, expanded: nat, seen: set<Path>,
                   adds: seq<Contribution>, image: Image, before: nat)
    requires c.Adds? && (forall i :: 0 <= i < |adds| ==> adds[i].Adds?)
    requires Midway(adds, image, before, limits, now, expanded, seen) && MayJoin(c, limits, now, expanded, seen)
    ensures Midway(adds + [c], image, before, limits, now[c.name := c.entry], expanded + Weight(c.entry), seen + {c.name})
  {
    MayJoinExactly(c, limits, now, expanded, seen, adds, image, before);
    WeightNext(adds, c);
    NamesNext(adds, c);
    MergedNext(adds, c, image, now);
  }

  /** One addition, or the reason it cannot be made. */
  method Add(c: Contribution, limits: Limits, now: Image, expanded: nat, seen: set<Path>) returns (r: Option<(Image, nat)>)
    requires c.Adds?
    ensures r == if MayJoin(c, limits, now, expanded, seen) then Some((now[c.name := c.entry], expanded + Weight(c.entry))) else None
  {
    if c.name in seen { return None; }
    if expanded + Weight(c.entry) > limits.expanded { return None; }
    if c.name in now && now[c.name] != c.entry { return None; }
    var more := now[c.name := c.entry];
    if |more.Keys| > limits.files { return None; }
    return Some((more, expanded + Weight(c.entry)));
  }

  lemma GivenNext(give: Giver, layer: seq<Member>, i: nat)
    requires i < |layer|
    ensures Given(give, layer[..i + 1]) == Given(give, layer[..i]) + if give(layer[i]).Adds? then [give(layer[i])] else []
  {
    assert layer[..i + 1][..i] == layer[..i];
  }

  lemma Overfull(give: Giver, layer: seq<Member>, i: nat, image: Image, before: nat, limits: Limits)
    requires i < |layer| && !Fits(Given(give, layer[..i + 1]), image, before, limits)
    ensures !Fits(Given(give, layer), image, before, limits)
  {
    GivenPrefix(give, layer, i + 1);
    if Fits(Given(give, layer), image, before, limits) {
      FitsPrefix(Given(give, layer[..i + 1]), Given(give, layer), image, before, limits);
    }
  }

  /** The loop over a layer before its `i`-th member. */
  ghost predicate Before(give: Giver, layer: seq<Member>, i: nat, image: Image, before: nat, limits: Limits,
                         now: Image, expanded: nat, seen: set<Path>)
  {
    && i <= |layer| && (forall k :: 0 <= k < i ==> !give(layer[k]).Refused?)
    && Midway(Given(give, layer[..i]), image, before, limits, now, expanded, seen)
  }

  lemma BeforeNext(give: Giver, layer: seq<Member>, i: nat, image: Image, before: nat, limits: Limits,
                   now: Image, expanded: nat, seen: set<Path>)
    requires i < |layer| && Before(give, layer, i, image, before, limits, now, expanded, seen) && !give(layer[i]).Refused?
    ensures var c := give(layer[i]);
            if c.Nothing? then Before(give, layer, i + 1, image, before, limits, now, expanded, seen)
            else if MayJoin(c, limits, now, expanded, seen)
            then Before(give, layer, i + 1, image, before, limits, now[c.name := c.entry], expanded + Weight(c.entry), seen + {c.name})
            else !Fits(Given(give, layer), image, before, limits)
  {
    var c, adds := give(layer[i]), Given(give, layer[..i]);
    GivenNext(give, layer, i);
    if c.Nothing? {
      assert adds + [] == adds;
    } else {
      MayJoinExactly(c, limits, now, expanded, seen, adds, image, before);
      if MayJoin(c, limits, now, expanded, seen) {
        MidwayNext(c, limits, now, expanded, seen, adds, image, before);
      } else {
        Overfull(give, layer, i, image, before, limits);
      }
    }
  }

  lemma BeforeFirst(give: Giver, layer: seq<Member>, image: Image, before: nat, limits: Limits)
    requires |image.Keys| <= limits.files && before <= limits.expanded
    ensures Before(give, layer, 0, image, before, limits, image, before, {})
  {
    assert image.Keys + {} == image.Keys;
  }

  /** One layer of `members`. */
  method MergeLayer(give: Giver, layer: seq<Member>, limits: Limits, image: Image, before: nat)
    returns (r: Option<(Image, nat)>)
    requires |image.Keys| <= limits.files && before <= limits.expanded
    ensures r.Some? <==> NoneRefused(give, layer) && Fits(Given(give, layer), image, before, limits)
    ensures r.Some? ==> Merged(r.value.0, image, Given(give, layer)) && r.value.1 == before + WeightOf(Given(give, layer))
  {
    var now, expanded, seen: set<Path> := image, before, {};
    BeforeFirst(give, layer, image, before, limits);
    for i := 0 to |layer|
      invariant Before(give, layer, i, image, before, limits, now, expanded, seen)
    {
      var c := give(layer[i]);
      if c.Refused? {
        assert layer[i] in layer;
        return None;
      }
      BeforeNext(give, layer, i, image, before, limits, now, expanded, seen);
      if c.Adds? {
        var next := Add(c, limits, now, expanded, seen);
        if next.None? { return None; }
        now, expanded, seen := next.value.0, next.value.1, seen + {c.name};
      }
    }
    assert layer[..|layer|] == layer;
    return Some((now, expanded));
  }
}
