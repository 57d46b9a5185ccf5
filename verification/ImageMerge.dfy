/** The image all layers make together, closed under directories, and the archive it is written to. */
module ImageMerge {
  import opened Common
  import opened BundlePath
  import opened ImageLayers
  import GuestPath

  // ---- All layers --------------------------------------------------------------------------

  ghost predicate AddedBy(give: Giver, layers: seq<seq<Member>>, n: Path, e: Entry) {
    exists layer, m :: layer in layers && m in layer && give(m) == Adds(n, e)
  }

  /** The image holds exactly what the layers' members add. */
  ghost predicate Exactly(image: Image, give: Giver, layers: seq<seq<Member>>) {
    forall n, e :: AddedBy(give, layers, n, e) <==> n in image && image[n] == e
  }

  ghost function TotalOf(give: Giver, layers: seq<seq<Member>>): nat {
    if layers == [] then 0 else TotalOf(give, layers[..|layers| - 1]) + WeightOf(Given(give, layers[|layers| - 1]))
  }

  /** The paths the layers add. */
  ghost function AllNames(give: Giver, layers: seq<seq<Member>>): set<Path> {
    set layer, m | layer in layers && m in layer && give(m).Adds? :: give(m).name
  }

  /** No path is given two contents. */
  ghost predicate Coherent(give: Giver, layers: seq<seq<Member>>) {
    forall n, e, f :: AddedBy(give, layers, n, e) && AddedBy(give, layers, n, f) ==> e == f
  }

  /** The layers can be merged, whatever their order. */
  ghost predicate Mergeable(give: Giver, layers: seq<seq<Member>>, limits: Limits) {
    && (forall layer :: layer in layers ==> NoneRefused(give, layer) && Distinct(Given(give, layer)))
    && Coherent(give, layers)
    && TotalOf(give, layers) <= limits.expanded && |AllNames(give, layers)| <= limits.files
  }

  lemma {:induction false} GivenMeans(give: Giver, layer: seq<Member>, n: Path, e: Entry)
    ensures Adds(n, e) in Given(give, layer) <==> exists m :: m in layer && give(m) == Adds(n, e)
  {
    if layer != [] {
      var front, last := layer[..|layer| - 1], layer[|layer| - 1];
      GivenMeans(give, front, n, e);
      assert layer == front + [last];
      if m :| m in front && give(m) == Adds(n, e) { assert m in layer; }
      if give(last) == Adds(n, e) { assert last in layer; }
    }
  }

  lemma AddedNext(give: Giver, layers: seq<seq<Member>>, layer: seq<Member>, n: Path, e: Entry)
    ensures AddedBy(give, layers + [layer], n, e) <==> AddedBy(give, layers, n, e) || Adds(n, e) in Given(give, layer)
  {
    GivenMeans(give, layer, n, e);
    var more := layers + [layer];
    if AddedBy(give, layers, n, e) {
      var l, m :| l in layers && m in l && give(m) == Adds(n, e);
      assert l in more;
    }
    if m :| m in layer && give(m) == Adds(n, e) { assert layer in more; }
    if AddedBy(give, more, n, e) {
      var l, m :| l in more && m in l && give(m) == Adds(n, e);
      assert l in layers || l == layer;
    }
  }

  lemma MergedHolds(after: Image, image: Image, adds: seq<Contribution>, n: Path, e: Entry)
    requires (forall i :: 0 <= i < |adds| ==> adds[i].Adds?) && Merged(after, image, adds)
    ensures n in after && after[n] == e <==> (n in image && image[n] == e) || Adds(n, e) in adds
  {
    if n in after && after[n] == e && n !in image {
      var i :| 0 <= i < |adds| && adds[i].name == n;
      assert adds[i] == Adds(n, e);
    }
    if Adds(n, e) in adds {
      var i :| 0 <= i < |adds| && adds[i] == Adds(n, e);
      assert adds[i].name in NamesOf(adds);
    }
  }

  lemma ExactlyNext(image: Image, after: Image, give: Giver, layers: seq<seq<Member>>, layer: seq<Member>)
    requires Exactly(image, give, layers) && Merged(after, image, Given(give, layer))
    ensures Exactly(after, give, layers + [layer])
  {
    forall n, e ensures AddedBy(give, layers + [layer], n, e) <==> n in after && after[n] == e {
      AddedNext(give, layers, layer, n, e);
      MergedHolds(after, image, Given(give, layer), n, e);
    }
  }

  lemma AddedIsNamed(give: Giver, layers: seq<seq<Member>>, n: Path)
    ensures n in AllNames(give, layers) <==> exists e :: AddedBy(give, layers, n, e)
  {
    if n in AllNames(give, layers) {
      var layer, m :| layer in layers && m in layer && give(m).Adds? && give(m).name == n;
      assert AddedBy(give, layers, n, give(m).entry);
    }
    if e :| AddedBy(give, layers, n, e) {
      var layer, m :| layer in layers && m in layer && give(m) == Adds(n, e);
      assert give(m).name in AllNames(give, layers);
    }
  }

  lemma ExactlyMeans(image: Image, give: Giver, layers: seq<seq<Member>>)
    requires Exactly(image, give, layers)
    ensures Coherent(give, layers) && image.Keys == AllNames(give, layers)
  {
    forall n ensures n in image <==> n in AllNames(give, layers) {
      AddedIsNamed(give, layers, n);
      if n in image { assert AddedBy(give, layers, n, image[n]); }
    }
  }

  /** The image of the first layers, which could be merged. */
  ghost predicate SoFar(give: Giver, layers: seq<seq<Member>>, limits: Limits, now: Image, expanded: nat) {
    && Exactly(now, give, layers) && expanded == TotalOf(give, layers) && MapWeight(now) <= expanded
    && Mergeable(give, layers, limits)
  }

  lemma SoFarNothing(give: Giver, limits: Limits)
    ensures SoFar(give, [], limits, map[], 0)
  {
    assert AllNames(give, []) == {};
  }

  lemma SoFarFits(give: Giver, layers: seq<seq<Member>>, limits: Limits, now: Image, expanded: nat)
    requires SoFar(give, layers, limits, now, expanded)
    ensures expanded <= limits.expanded && |now.Keys| <= limits.files
  {
    ExactlyMeans(now, give, layers);
  }

  lemma MergeableNext(give: Giver, layers: seq<seq<Member>>, layer: seq<Member>, limits: Limits, now: Image, expanded: nat, after: Image)
    requires SoFar(give, layers, limits, now, expanded) && NoneRefused(give, layer)
    requires Fits(Given(give, layer), now, expanded, limits) && Merged(after, now, Given(give, layer))
    requires Exactly(after, give, layers + [layer])
    ensures Mergeable(give, layers + [layer], limits)
  {
    ExactlyMeans(after, give, layers + [layer]);
    assert (layers + [layer])[..|layers|] == layers;
  }

  lemma SoFarNext(give: Giver, layers: seq<seq<Member>>, layer: seq<Member>, limits: Limits, now: Image, expanded: nat, after: Image)
    requires SoFar(give, layers, limits, now, expanded) && NoneRefused(give, layer)
    requires Fits(Given(give, layer), now, expanded, limits) && Merged(after, now, Given(give, layer))
    ensures SoFar(give, layers + [layer], limits, after, expanded + WeightOf(Given(give, layer)))
  {
    ExactlyNext(now, after, give, layers, layer);
    MergeableNext(give, layers, layer, limits, now, expanded, after);
    MergedWeight(after, now, Given(give, layer));
    assert (layers + [layer])[..|layers|] == layers;
  }

  lemma {:induction false} TotalGrows(give: Giver, layers: seq<seq<Member>>, i: nat)
    requires i <= |layers|
    ensures TotalOf(give, layers[..i]) <= TotalOf(give, layers)
    decreases |layers| - i
  {
    if i == |layers| {
      assert layers[..i] == layers;
    } else {
      TotalGrows(give, layers, i + 1);
      assert layers[..i + 1][..i] == layers[..i];
    }
  }

  lemma AddedByMore(give: Giver, layers: seq<seq<Member>>, i: nat, n: Path, e: Entry)
    requires i <= |layers| && AddedBy(give, layers[..i], n, e)
    ensures AddedBy(give, layers, n, e)
  {
    var layer, m :| layer in layers[..i] && m in layer && give(m) == Adds(n, e);
    assert layer in layers;
  }

  lemma GivenIsAdded(give: Giver, layers: seq<seq<Member>>, i: nat, k: nat)
    requires i < |layers| && k < |Given(give, layers[i])|
    ensures var c := Given(give, layers[i])[k]; AddedBy(give, layers, c.name, c.entry)
  {
    var c := Given(give, layers[i])[k];
    GivenMeans(give, layers[i], c.name, c.entry);
    assert c == Adds(c.name, c.entry) && c in Given(give, layers[i]);
    assert layers[i] in layers;
  }

  /** What contradicts no other layer contradicts nothing so far. */
  lemma CoherentAgrees(give: Giver, layers: seq<seq<Member>>, i: nat, now: Image)
    requires i < |layers| && Exactly(now, give, layers[..i]) && Coherent(give, layers)
    ensures Agrees(Given(give, layers[i]), now)
  {
    var adds := Given(give, layers[i]);
    forall k | 0 <= k < |adds| && adds[k].name in now ensures now[adds[k].name] == adds[k].entry {
      var n := adds[k].name;
      assert AddedBy(give, layers[..i], n, now[n]);
      AddedByMore(give, layers, i, n, now[n]);
      GivenIsAdded(give, layers, i, k);
    }
  }

  lemma NamesFit(give: Giver, layers: seq<seq<Member>>, i: nat, now: Image)
    requires i < |layers| && Exactly(now, give, layers[..i])
    ensures now.Keys + NamesOf(Given(give, layers[i])) <= AllNames(give, layers)
  {
    var adds := Given(give, layers[i]);
    forall n | n in now ensures n in AllNames(give, layers) {
      assert AddedBy(give, layers[..i], n, now[n]);
      AddedByMore(give, layers, i, n, now[n]);
      AddedIsNamed(give, layers, n);
    }
    forall n | n in NamesOf(adds) ensures n in AllNames(give, layers) {
      var k :| 0 <= k < |adds| && adds[k].name == n;
      GivenIsAdded(give, layers, i, k);
      AddedIsNamed(give, layers, n);
    }
  }

  /** If all layers can be merged, so can the next one. */
  lemma NextFits(give: Giver, layers: seq<seq<Member>>, i: nat, limits: Limits, now: Image, expanded: nat)
    requires i < |layers| && SoFar(give, layers[..i], limits, now, expanded) && Mergeable(give, layers, limits)
    ensures NoneRefused(give, layers[i]) && Fits(Given(give, layers[i]), now, expanded, limits)
  {
    assert layers[i] in layers;
    CoherentAgrees(give, layers, i, now);
    TotalGrows(give, layers, i + 1);
    assert layers[..i + 1][..i] == layers[..i];
    NamesFit(give, layers, i, now);
    SubsetSize(now.Keys + NamesOf(Given(give, layers[i])), AllNames(give, layers));
  }

  /** The archive loop of `members`. */
  method MergeLayers(give: Giver, layers: seq<seq<Member>>, limits: Limits) returns (r: Option<Image>)
    ensures r.Some? <==> Mergeable(give, layers, limits)
    ensures r.Some? ==> Exactly(r.value, give, layers) && MapWeight(r.value) <= limits.expanded && |r.value.Keys| <= limits.files
  {
    var now: Image, expanded: nat := map[], 0;
    SoFarNothing(give, limits);
    for i := 0 to |layers|
      invariant SoFar(give, layers[..i], limits, now, expanded)
    {
      SoFarFits(give, layers[..i], limits, now, expanded);
      var next := MergeLayer(give, layers[i], limits, now, expanded);
      if next.None? {
        if Mergeable(give, layers, limits) { NextFits(give, layers, i, limits, now, expanded); }
        return None;
      }
      SoFarNext(give, layers[..i], layers[i], limits, now, expanded, next.value.0);
      Another(layers, i);
      now, expanded := next.value.0, next.value.1;
    }
    Another(layers, |layers|);
    SoFarFits(give, layers, limits, now, expanded);
    return Some(now);
  }

  lemma Another<T>(s: seq<T>, i: nat)
    requires i <= |s|
    ensures if i < |s| then s[..i + 1] == s[..i] + [s[i]] else s[..i] == s
  {}

  // ---- The weight of an image --------------------------------------------------------------

  ghost function MapWeight(image: Image): nat
    decreases |image.Keys|
  {
    if image == map[] then 0
    else
      var n :| n in image;
      assert (image - {n}).Keys == image.Keys - {n};
      Weight(image[n]) + MapWeight(image - {n})
  }

  lemma Keys<K, V>(m: map<K, V>, k: K)
    requires k in m
    ensures (m - {k}).Keys == m.Keys - {k} && |(m - {k}).Keys| < |m.Keys|
  {}

  lemma BothGone<K, V>(m: map<K, V>, k: K, l: K)
    ensures m - {k} - {l} == m - {l} - {k}
  {}

  lemma {:induction false} WeightAt(image: Image, n: Path)
    requires n in image
    ensures MapWeight(image) == Weight(image[n]) + MapWeight(image - {n})
    decreases |image.Keys|
  {
    var k :| k in image && MapWeight(image) == Weight(image[k]) + MapWeight(image - {k});
    if k != n {
      Keys(image, k);
      Keys(image, n);
      WeightAt(image - {k}, n);
      WeightAt(image - {n}, k);
      BothGone(image, k, n);
    }
  }

  lemma WeightWith(image: Image, n: Path, e: Entry)
    ensures MapWeight(image[n := e]) <= MapWeight(image) + Weight(e)
  {
    WeightAt(image[n := e], n);
    if n in image {
      WeightAt(image, n);
      assert image[n := e] - {n} == image - {n};
    } else {
      assert image[n := e] - {n} == image;
    }
  }

  /** Additions make an image at most as much heavier as they weigh. */
  lemma {:induction false} MergedWeight(after: Image, image: Image, adds: seq<Contribution>)
    requires (forall i :: 0 <= i < |adds| ==> adds[i].Adds?) && Merged(after, image, adds)
    ensures MapWeight(after) <= MapWeight(image) + WeightOf(adds)
    decreases |adds|
  {
    if adds == [] {
      assert after == image;
    } else {
      var front, c := adds[..|adds| - 1], adds[|adds| - 1];
      assert adds == front + [c];
      if c.name in image || c.name in NamesOf(front) {
        MergedBefore(after, image, front, c);
        MergedWeight(after, image, front);
      } else {
        MergedWithout(after, image, front, c);
        MergedWeight(after - {c.name}, image, front);
        WeightWith(after - {c.name}, c.name, c.entry);
      }
    }
  }

  lemma MergedBefore(after: Image, image: Image, front: seq<Contribution>, c: Contribution)
    requires (forall i :: 0 <= i < |front| ==> front[i].Adds?) && c.Adds? && Merged(after, image, front + [c])
    requires c.name in image || c.name in NamesOf(front)
    ensures Merged(after, image, front)
  {
    NamesNext(front, c);
    assert forall i :: 0 <= i < |front| ==> (front + [c])[i] == front[i];
  }

  lemma MergedWithout(after: Image, image: Image, front: seq<Contribution>, c: Contribution)
    requires (forall i :: 0 <= i < |front| ==> front[i].Adds?) && c.Adds? && Merged(after, image, front + [c])
    requires c.name !in image && c.name !in NamesOf(front)
    ensures Merged(after - {c.name}, image, front) && after == (after - {c.name})[c.name := c.entry]
  {
    NamesNext(front, c);
    assert (front + [c])[|front|] == c;
    var less := after - {c.name};
    forall i | 0 <= i < |front| ensures less[front[i].name] == front[i].entry {
      assert front[i].name in NamesOf(front) && (front + [c])[i] == front[i];
    }
  }

  // ---- Directories above -------------------------------------------------------------------

  const DEFAULT_FOLDER := Folder(0x1ED)  // 0755

  function AncestorsOf(names: set<Path>): set<Path> { set n, a | n in names && a in Ancestors(n) :: a }

  /** Some path lies below a file or a link. */
  ghost predicate Descends(image: Image) {
    exists n, a :: n in image && a in Ancestors(n) && a in image && !image[a].Folder?
  }

  /** The image with the directories above its paths. */
  ghost predicate Completed(after: Image, image: Image) {
    && after.Keys == image.Keys + AncestorsOf(image.Keys)
    && forall n :: n in after ==> after[n] == if n in image then image[n] else Folder(0x1ED)
  }

  /** Everything above a path is there and is a directory. */
  ghost predicate Closed(image: Image) {
    forall n, a :: n in image && a in Ancestors(n) ==> a in image && image[a].Folder?
  }

  lemma CompletedIsClosed(after: Image, image: Image)
    requires Completed(after, image) && !Descends(image)
    ensures Closed(after)
  {
    forall n, a | n in after && a in Ancestors(n) ensures a in after && after[a].Folder? {
      if n !in image {
        var m :| m in image && n in Ancestors(m);
        GuestPath.AncestorIsTransitive(m, n, a);
      }
    }
  }

  /** On the way: some directories have been added. */
  ghost predicate Completing(now: Image, image: Image) {
    && image.Keys <= now.Keys <= image.Keys + AncestorsOf(image.Keys)
    && forall n :: n in now ==> now[n] == if n in image then image[n] else Folder(0x1ED)
  }

  /** The directories above one path, nearest first. */
  method CloseAbove(now: Image, name: Path, files: nat, ghost image: Image) returns (r: Option<Image>)
    requires Completing(now, image) && name in image
    ensures r.Some? ==> Completing(r.value, image) && now.Keys <= r.value.Keys
    ensures r.Some? ==> ClosedAt(r.value, name)
    ensures r.Some? && |now.Keys| <= files ==> |r.value.Keys| <= files
    ensures r.None? ==> Descends(image) || |image.Keys + AncestorsOf(image.Keys)| > files
  {
    var more := now;
    for k := |name| downto 0
      invariant Completing(more, image) && now.Keys <= more.Keys && (|now.Keys| <= files ==> |more.Keys| <= files)
      invariant forall j :: k <= j < |name| && name[j] == SLASH ==> name[..j] in more && more[name[..j]].Folder?
    {
      if name[k] == SLASH {
        var a := name[..k];
        assert a in Ancestors(name) && a in AncestorsOf(image.Keys);
        if a in more && !more[a].Folder? { return None; }
        if a !in more { more := more[a := DEFAULT_FOLDER]; }
        if |more.Keys| > files {
          SubsetSize(more.Keys, image.Keys + AncestorsOf(image.Keys));
          return None;
        }
      }
    }
    return Some(more);
  }

  /** Everything above this path is there and is a directory. */
  ghost predicate ClosedAt(image: Image, n: Path) {
    forall a :: a in Ancestors(n) ==> a in image && image[a].Folder?
  }

  lemma ClosedAtLasts(now: Image, next: Image, image: Image, n: Path)
    requires Completing(now, image) && Completing(next, image) && now.Keys <= next.Keys && ClosedAt(now, n)
    ensures ClosedAt(next, n)
  {}

  lemma AllClosed(now: Image, image: Image)
    requires Completing(now, image) && forall n :: n in image ==> ClosedAt(now, n)
    ensures Completed(now, image) && !Descends(image) && Closed(now)
  {
    assert now.Keys == image.Keys + AncestorsOf(image.Keys);
    CompletedIsClosed(now, image);
  }

  /** The directory loop of `members`. */
  method Close(image: Image, files: nat) returns (r: Option<Image>)
    requires |image.Keys| <= files
    ensures r.Some? <==> !Descends(image) && |image.Keys + AncestorsOf(image.Keys)| <= files
    ensures r.Some? ==> Completed(r.value, image) && Closed(r.value)
  {
    var names, now := Sorted(image.Keys), image;
    for i := 0 to |names|
      invariant Completing(now, image) && |now.Keys| <= files
      invariant forall k :: 0 <= k < i ==> ClosedAt(now, names[k])
    {
      assert names[i] in names;
      var next := CloseAbove(now, names[i], files, image);
      if next.None? { return None; }
      forall k | 0 <= k < i ensures ClosedAt(next.value, names[k]) { ClosedAtLasts(now, next.value, image, names[k]); }
      now := next.value;
    }
    forall n | n in image ensures ClosedAt(now, n) {
      var k :| 0 <= k < |names| && names[k] == n;
    }
    AllClosed(now, image);
    return Some(now);
  }

  // ---- The whole ---------------------------------------------------------------------------

  /** The image made by these layers. */
  ghost predicate ImageOf(image: Image, layers: seq<seq<Member>>) {
    exists base :: Exactly(base, ContributionOf, layers) && Completed(image, base)
  }

  predicate GoodLimits(limits: Limits) { 0 < limits.expanded <= MAX_EXPANDED && 0 < limits.files <= MAX_FILES }

  ghost predicate Within(image: Image, limits: Limits) {
    GoodLimits(limits) && MapWeight(image) <= limits.expanded && |image.Keys| <= limits.files
  }

  /** No path is added below one that is added as a file or a link. */
  ghost predicate NothingDescends(give: Giver, layers: seq<seq<Member>>) {
    forall n, e, a, f :: AddedBy(give, layers, n, e) && a in Ancestors(n) && AddedBy(give, layers, a, f) ==> f.Folder?
  }

  /** The layers make an image, whatever their order. */
  ghost predicate Acceptable(layers: seq<seq<Member>>, limits: Limits) {
    && 0 < limits.expanded <= 4 * 1024 * 1024 * 1024 && 0 < limits.files <= 200000
    && Mergeable(ContributionOf, layers, limits) && NothingDescends(ContributionOf, layers)
    && |AllNames(ContributionOf, layers) + AncestorsOf(AllNames(ContributionOf, layers))| <= limits.files
  }

  lemma DescendsMeans(base: Image, give: Giver, layers: seq<seq<Member>>)
    requires Exactly(base, give, layers)
    ensures NothingDescends(give, layers) <==> !Descends(base)
  {
    if Descends(base) {
      var n, a :| n in base && a in Ancestors(n) && a in base && !base[a].Folder?;
      assert AddedBy(give, layers, n, base[n]) && AddedBy(give, layers, a, base[a]);
    }
    if !Descends(base) {
      forall n, e, a, f | AddedBy(give, layers, n, e) && a in Ancestors(n) && AddedBy(give, layers, a, f) ensures f.Folder? {
        assert n in base && a in base && base[a] == f;
      }
    }
  }

  /** `members`: the layers' image, closed under directories, exactly if there is one. */
  method Members(layers: seq<seq<Member>>, limits: Limits) returns (r: Option<Image>)
    ensures r.Some? <==> Acceptable(layers, limits)
    ensures r.Some? ==> ImageOf(r.value, layers) && Closed(r.value) && Within(r.value, limits)
  {
    if !GoodLimits(limits) { return None; }
    var base := MergeLayers(ContributionOf, layers, limits);
    if base.None? { return None; }
    ExactlyMeans(base.value, ContributionOf, layers);
    DescendsMeans(base.value, ContributionOf, layers);
    r := Close(base.value, limits.files);
    if r.Some? { CompletedWeight(r.value, base.value); }
  }

  lemma {:induction false} CompletedWeight(after: Image, image: Image)
    requires Completing(after, image)
    ensures MapWeight(after) == MapWeight(image)
    decreases |after.Keys|
  {
    if after.Keys == image.Keys {
      assert after == image;
    } else {
      var n :| n in after && n !in image;
      WeightAt(after, n);
      Keys(after, n);
      CompletedWeight(after - {n}, image);
    }
  }

  lemma ExactlyDetermines(a: Image, b: Image, give: Giver, layers: seq<seq<Member>>, others: seq<seq<Member>>)
    requires Exactly(a, give, layers) && Exactly(b, give, others) && forall layer :: layer in layers <==> layer in others
    ensures a == b
  {
    forall n | n in a ensures n in b && b[n] == a[n] { AddedSame(give, layers, others, n, a[n]); }
    forall n | n in b ensures n in a { AddedSame(give, layers, others, n, b[n]); }
  }

  lemma AddedSame(give: Giver, layers: seq<seq<Member>>, others: seq<seq<Member>>, n: Path, e: Entry)
    requires forall layer :: layer in layers <==> layer in others
    ensures AddedBy(give, layers, n, e) <==> AddedBy(give, others, n, e)
  {}

  /** The order of the layers, and repeating one, makes no difference to the image. */
  lemma OrderDoesNotMatter(a: Image, b: Image, layers: seq<seq<Member>>, others: seq<seq<Member>>)
    requires ImageOf(a, layers) && ImageOf(b, others) && forall layer :: layer in layers <==> layer in others
    ensures a == b
  {
    var x :| Exactly(x, ContributionOf, layers) && Completed(a, x);
    var y :| Exactly(y, ContributionOf, others) && Completed(b, y);
    ExactlyDetermines(x, y, ContributionOf, layers, others);
    CompletedDetermines(a, b, x);
  }

  lemma CompletedDetermines(a: Image, b: Image, base: Image)
    requires Completed(a, base) && Completed(b, base)
    ensures a == b
  {
    assert a.Keys == b.Keys;
  }

  // ---- Any order ---------------------------------------------------------------------------

  lemma {:induction false} TotalWithout(give: Giver, layers: seq<seq<Member>>, i: nat)
    requires i < |layers|
    ensures TotalOf(give, layers) == TotalOf(give, layers[..i] + layers[i + 1..]) + WeightOf(Given(give, layers[i]))
    decreases |layers|
  {
    var last := |layers| - 1;
    if i == last {
      assert layers[..i] + layers[i + 1..] == layers[..last];
    } else {
      TotalWithout(give, layers[..last], i);
      assert layers[..last][..i] + layers[..last][i + 1..] == (layers[..i] + layers[i + 1..])[..last - 1];
    }
  }

  lemma Taken<T>(s: seq<T>, i: nat)
    requires i < |s|
    ensures multiset(s[..i] + s[i + 1..]) == multiset(s) - multiset{s[i]}
  {
    assert s == s[..i] + [s[i]] + s[i + 1..];
  }

  lemma SameElements<T>(s: seq<T>, t: seq<T>)
    requires multiset(s) == multiset(t)
    ensures |s| == |t| && forall x :: x in s <==> x in t
  {
    assert |s| == |multiset(s)| && |t| == |multiset(t)|;
    forall x ensures x in s <==> x in t {
      assert x in s <==> x in multiset(s);
      assert x in t <==> x in multiset(t);
    }
  }

  lemma {:induction false} TotalInAnyOrder(give: Giver, layers: seq<seq<Member>>, others: seq<seq<Member>>)
    requires multiset(layers) == multiset(others)
    ensures TotalOf(give, layers) == TotalOf(give, others)
    decreases |layers|
  {
    SameElements(layers, others);
    if layers != [] {
      var k := |layers| - 1;
      assert layers[k] in others;
      var i :| 0 <= i < |others| && others[i] == layers[k];
      Taken(layers, k);
      Taken(others, i);
      assert layers[..k] + layers[k + 1..] == layers[..k];
      TotalInAnyOrder(give, layers[..k], others[..i] + others[i + 1..]);
      TotalWithout(give, others, i);
    }
  }

  lemma CoherentInAnyOrder(give: Giver, layers: seq<seq<Member>>, others: seq<seq<Member>>)
    requires forall layer :: layer in layers <==> layer in others
    ensures AllNames(give, layers) == AllNames(give, others)
    ensures Coherent(give, layers) ==> Coherent(give, others)
    ensures NothingDescends(give, layers) ==> NothingDescends(give, others)
  {
    forall n, e ensures AddedBy(give, layers, n, e) <==> AddedBy(give, others, n, e) { AddedSame(give, layers, others, n, e); }
    forall n ensures n in AllNames(give, layers) <==> n in AllNames(give, others) {
      AddedIsNamed(give, layers, n);
      AddedIsNamed(give, others, n);
    }
  }

  /** Whether the layers make an image does not depend on their order either. */
  lemma AcceptableInAnyOrder(layers: seq<seq<Member>>, others: seq<seq<Member>>, limits: Limits)
    requires multiset(layers) == multiset(others) && Acceptable(layers, limits)
    ensures Acceptable(others, limits)
  {
    SameElements(layers, others);
    CoherentInAnyOrder(ContributionOf, layers, others);
    TotalInAnyOrder(ContributionOf, layers, others);
  }
}
