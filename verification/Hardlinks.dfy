/** Package-local hard links turned into regular files. */
module Hardlinks {
  import opened Common
  import opened BundlePath
  import opened ImageLayers
  import opened ImageMerge

  type Links = map<Path, Path>

  // ---- Chains of links ---------------------------------------------------------------------

  /** The path after following up to `k` links. */
  function Follow(links: Links, p: Path, k: nat): Path
    decreases k
  {
    if k == 0 || p !in links then p else Follow(links, links[p], k - 1)
  }

  /** The chain from a path comes to an end that is no link. */
  ghost predicate Ends(links: Links, p: Path, e: Path) { e !in links && exists k: nat :: Follow(links, p, k) == e }

  ghost predicate Endless(links: Links, p: Path) { forall k: nat :: Follow(links, p, k) in links }

  lemma {:induction false} FollowNext(links: Links, p: Path, k: nat)
    ensures Follow(links, p, k + 1) == if Follow(links, p, k) in links then links[Follow(links, p, k)] else Follow(links, p, k)
    decreases k
  {
    if k > 0 && p in links { FollowNext(links, links[p], k - 1); }
  }

  lemma {:induction false} EndStays(links: Links, p: Path, k: nat, more: nat)
    requires Follow(links, p, k) !in links
    ensures Follow(links, p, k + more) == Follow(links, p, k)
    decreases more
  {
    if more > 0 {
      EndStays(links, p, k, more - 1);
      FollowNext(links, p, k + more - 1);
    }
  }

  lemma EndIsUnique(links: Links, p: Path, e: Path, f: Path)
    requires Ends(links, p, e) && Ends(links, p, f)
    ensures e == f
  {
    var k: nat :| Follow(links, p, k) == e;
    var l: nat :| Follow(links, p, l) == f;
    if k <= l { EndStays(links, p, k, l - k); } else { EndStays(links, p, l, k - l); }
  }

  /** The links passed so far. */
  ghost predicate Trail(links: Links, p: Path, trail: seq<Path>) {
    forall i :: 0 <= i < |trail| ==> trail[i] == Follow(links, p, i) && trail[i] in links
  }

  lemma {:induction false} TrailRepeats(links: Links, p: Path, trail: seq<Path>, n: nat)
    requires Trail(links, p, trail) && Follow(links, p, |trail|) in trail
    ensures Follow(links, p, n) in trail
    decreases n
  {
    if n >= |trail| {
      TrailRepeats(links, p, trail, n - 1);
      var i :| 0 <= i < |trail| && trail[i] == Follow(links, p, n - 1);
      FollowNext(links, p, n - 1);
      FollowNext(links, p, i);
      assert i + 1 < |trail| ==> trail[i + 1] == Follow(links, p, n);
    }
  }

  /** The inner loop of `package_members`: to the end of a chain, or round a cycle. */
  method ChainEnd(links: Links, path: Path) returns (e: Option<Path>)
    requires path in links
    ensures e.Some? ==> Ends(links, path, e.value)
    ensures e.None? ==> Endless(links, path)
  {
    var target, seen := links[path], {path};
    ghost var trail := [path];
    FollowNext(links, path, 0);
    while target in links
      invariant Trail(links, path, trail) && target == Follow(links, path, |trail|)
      invariant seen == (set x | x in trail) && seen <= links.Keys
      decreases links.Keys - seen
    {
      if target in seen {
        forall k: nat ensures Follow(links, path, k) in links { TrailRepeats(links, path, trail, k); }
        return None;
      }
      FollowNext(links, path, |trail|);
      trail := trail + [target];
      assert forall x :: x in trail <==> x in trail[..|trail| - 1] || x == target;
      seen, target := seen + {target}, links[target];
    }
    return Some(target);
  }

  // ---- Materialisation ---------------------------------------------------------------------

  /** The chain from `p` ends at a regular file of the package, `entry`. */
  ghost predicate Names(links: Links, files: Image, p: Path, entry: Entry) {
    exists e :: Ends(links, p, e) && e in files && files[e].Filed? && files[e] == entry
  }

  /** Every link as a copy of the file it leads to. */
  ghost predicate Copies(made: Image, links: Links, files: Image) {
    made.Keys == links.Keys && forall p :: p in made ==> Names(links, files, p, made[p])
  }

  /** Some of them. */
  ghost predicate SomeCopies(made: Image, links: Links, files: Image) {
    made.Keys <= links.Keys && forall p :: p in made ==> Names(links, files, p, made[p])
  }

  lemma NamesOne(links: Links, files: Image, p: Path, a: Entry, b: Entry)
    requires Names(links, files, p, a) && Names(links, files, p, b)
    ensures a == b
  {
    var e :| Ends(links, p, e) && e in files && files[e] == a;
    var f :| Ends(links, p, f) && f in files && files[f] == b;
    EndIsUnique(links, p, e, f);
  }

  /** There is at most one way to make the copies. */
  lemma CopiesAgree(made: Image, all: Image, links: Links, files: Image)
    requires SomeCopies(made, links, files) && Copies(all, links, files)
    ensures forall p :: p in made ==> p in all && made[p] == all[p]
    ensures made.Keys == all.Keys ==> made == all
  {
    forall p | p in made ensures p in all && made[p] == all[p] { NamesOne(links, files, p, made[p], all[p]); }
  }

  lemma {:induction false} PartWeighsLess(part: Image, all: Image)
    requires forall p :: p in part ==> p in all && part[p] == all[p]
    ensures MapWeight(part) <= MapWeight(all)
    decreases |all.Keys|
  {
    if part.Keys == all.Keys {
      assert part == all;
    } else {
      var n :| n in all && n !in part;
      Keys(all, n);
      WeightAt(all, n);
      PartWeighsLess(part, all - {n});
    }
  }

  /** The copies can be made within the bound. */
  ghost predicate Materialisable(links: Links, files: Image, expanded: nat, max: nat) {
    exists made :: Copies(made, links, files) && expanded + MapWeight(made) <= max
  }

  /** One link: its file, found among what there is now. */
  method Target(links: Links, files: Image, now: Image, path: Path, ghost made: Image) returns (entry: Option<Entry>)
    requires path in links && links.Keys !! files.Keys && now == files + made && made.Keys <= links.Keys
    ensures entry.Some? ==> entry.value.Filed? && Names(links, files, path, entry.value)
    ensures entry.None? ==> forall x :: !Names(links, files, path, x)
  {
    var e := ChainEnd(links, path);
    if e.None? {
      return None;
    }
    forall f | Ends(links, path, f) ensures f == e.value { EndIsUnique(links, path, f, e.value); }
    if e.value !in now || !now[e.value].Filed? { return None; }
    return Some(now[e.value]);
  }

  lemma MadeNext(made: Image, path: Path, entry: Entry, links: Links, files: Image)
    requires SomeCopies(made, links, files) && path in links && path !in made && Names(links, files, path, entry)
    ensures SomeCopies(made[path := entry], links, files)
    ensures MapWeight(made[path := entry]) == MapWeight(made) + Weight(entry)
    ensures (files + made)[path := entry] == files + made[path := entry]
  {
    WeightAt(made[path := entry], path);
    assert made[path := entry] - {path} == made;
  }

  lemma TooHeavy(made: Image, links: Links, files: Image, expanded: nat, max: nat)
    requires SomeCopies(made, links, files) && expanded + MapWeight(made) > max
    ensures !Materialisable(links, files, expanded, max)
  {
    forall all | Copies(all, links, files) ensures MapWeight(made) <= MapWeight(all) {
      CopiesAgree(made, all, links, files);
      PartWeighsLess(made, all);
    }
  }

  /** The second loop of `package_members`: in whatever order the links come, they are materialised exactly if
      every chain ends at a regular file of the package and the copies stay within the bound; each link then
      equals the end of its chain, and nothing else changes. */
  method Materialise(files: Image, links: Links, order: seq<Path>, expanded: nat, max: nat) returns (r: Option<Image>)
    requires links.Keys !! files.Keys && (forall p :: p in order <==> p in links)
    requires forall i, j :: 0 <= i < j < |order| ==> order[i] != order[j]
    requires expanded <= max
    ensures r.Some? <==> Materialisable(links, files, expanded, max)
    ensures r.Some? ==> exists made :: Copies(made, links, files) && r.value == files + made
  {
    var now, total := files, expanded;
    ghost var made: Image := map[];
    assert files + made == files;
    for i := 0 to |order|
      invariant SomeCopies(made, links, files) && made.Keys == (set k | 0 <= k < i :: order[k])
      invariant now == files + made && total == expanded + MapWeight(made) <= max
    {
      var path := order[i];
      assert path in order;
      var entry := Target(links, files, now, path, made);
      if entry.None? { return None; }
      MadeNext(made, path, entry.value, links, files);
      ghost var more := made[path := entry.value];
      total := total + Weight(entry.value);
      if total > max {
        TooHeavy(more, links, files, expanded, max);
        return None;
      }
      now, made := now[path := entry.value], more;
    }
    assert made.Keys == links.Keys;
    assert Copies(made, links, files);
    return Some(now);
  }

  /** The result does not depend on the order of the links. */
  lemma OrderOfLinksDoesNotMatter(a: Image, b: Image, links: Links, files: Image)
    requires exists made :: Copies(made, links, files) && a == files + made
    requires exists made :: Copies(made, links, files) && b == files + made
    ensures a == b
  {
    var x :| Copies(x, links, files) && a == files + x;
    var y :| Copies(y, links, files) && b == files + y;
    CopiesAgree(x, y, links, files);
  }
}
