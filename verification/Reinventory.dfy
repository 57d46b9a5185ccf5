/** Freezing a workspace again after the commands: whatever they did inside the writable directories, the
    result is the bundle that was laid out. */
module Reinventory {
  import opened Common
  import opened BundlePath
  import opened BundleEntry
  import opened Bundle
  import opened BundleTree
  import opened BundleInventory
  import opened Workspace
  import opened WorkspaceSetup
  import Utf8

  // ---- Parts of safe paths are safe --------------------------------------------------------

  lemma {:induction false} TextAround(a: Path, c: octet, b: Path)
    requires c < 0x80 && Utf8.Text(a + [c] + b)
    ensures Utf8.Text(a) && Utf8.Text(b)
  {
    var s := a + [c] + b;
    if a == [] {
      assert s[0] == c && s[Utf8.Reach(s)..] == b;
    } else {
      var n := Utf8.Reach(s);
      assert n <= |a| by { ReachStops(a, c, b); }
      assert s[n..] == a[n..] + [c] + b;
      TextAround(a[n..], c, b);
      assert a == a[..n] + a[n..];
      assert Utf8.Whole(a) && Utf8.Reach(a) == n by { ReachStops(a, c, b); }
    }
  }

  /** A character cannot reach over an ASCII byte. */
  lemma ReachStops(a: Path, c: octet, b: Path)
    requires a != [] && c < 0x80
    ensures Utf8.Reach(a + [c] + b) <= |a| && Utf8.Reach(a + [c] + b) == Utf8.Reach(a)
  {
    var s := a + [c] + b;
    assert forall i :: 0 <= i < |a| ==> s[i] == a[i];
    assert s[|a|] == c && !Utf8.Continuation(c);
  }

  lemma {:induction false} PartsAreText(p: Path)
    requires Utf8.Text(p)
    ensures forall part :: part in Split(p) ==> Utf8.Text(part)
    decreases |Split(p)|
  {
    var parts := Split(p);
    JoinReturns(p);
    if |parts| > 1 {
      TextAround(parts[0], SLASH, Join(parts[1..]));
      SplitIsPlain(p);
      assert forall part :: part in parts[1..] ==> part in parts;
      SplitReturns(parts[1..]);
      PartsAreText(Join(parts[1..]));
      assert forall part :: part in parts ==> part == parts[0] || part in parts[1..];
    }
  }

  /** The directories above a safe path are safe. */
  lemma SafeAbove(q: seq<Path>, p: Path)
    requires SafePath(p) && q != [] && q <= Split(p)
    ensures SafePath(Join(q))
  {
    PrefixIsSplit(q, p);
    JoinReturns(p);
    assert q[0] in Split(p) && SafePart(q[0]);
    if q != Split(p) {
      var rest := Split(p)[|q|..];
      assert Split(p) == q + rest;
      JoinTogether(q, rest);
      TextAround(Join(q), SLASH, Join(rest));
      NoControlPrefix(Join(q), p);
    }
  }

  lemma NoControlPrefix(a: Path, p: Path)
    requires NoControl(p) && a <= p
    ensures NoControl(a)
  {
    forall i | 0 <= i < |a| ensures a[i] >= 0x20 && a[i] != 0x7F && !(a[i] == 0xC2 && i + 1 < |a| && a[i + 1] < 0xA0) {
      assert a[i] == p[i];
      if i + 1 < |a| { assert a[i + 1] == p[i + 1]; }
    }
  }

  // ---- The workspace afterwards ------------------------------------------------------------

  /** The place lies in no writable directory. */
  ghost predicate Outside(q: seq<Path>, writable: seq<Path>) {
    forall k :: 1 <= k <= |q| ==> Join(q[..k]) !in writable
  }

  /** The two trees agree outside the writable directories. */
  ghost predicate SameOutside(before: Node, after: Node, writable: seq<Path>) {
    forall q :: Outside(q, writable) ==> FaceAt(after, q) == FaceAt(before, q)
  }

  ghost predicate Carries(tree: Node, files: Files, writable: seq<Path>) {
    forall q :: Outside(q, writable) ==> FaceAt(tree, q) == Expected(files, writable, q)
  }

  /** The bundle and the declared directories are acceptable together. */
  ghost predicate Admitted(files: Files, writable: seq<Path>) {
    && Valid(files) && (forall d :: d in writable ==> SafePath(d) && Apart(files, d))
  }

  lemma ExpectedIsSafe(files: Files, writable: seq<Path>, q: seq<Path>)
    requires Admitted(files, writable) && q != [] && !Expected(files, writable, q).Nothing?
    ensures SafePath(Join(q))
  {
    if IsFile(files, q) {
      ValidAt(files, Join(q));
    } else if p :| p in files && Inside(q, Split(p)) {
      ValidAt(files, p);
      SafeAbove(q, p);
    } else {
      var d :| d in writable && q <= Split(d);
      SafeAbove(q, d);
    }
  }

  lemma OutsideNext(above: seq<Path>, name: Path, writable: seq<Path>)
    requires Outside(above, writable) && Join(above + [name]) !in writable
    ensures Outside(above + [name], writable)
  {
    var q := above + [name];
    forall k | 1 <= k <= |q| ensures Join(q[..k]) !in writable {
      if k <= |above| { assert q[..k] == above[..k]; } else { assert q[..k] == q; }
    }
  }

  lemma {:induction false} FindMore(tree: Node, above: seq<Path>, name: Path)
    ensures Find(tree, above + [name]) ==
              match Find(tree, above)
              case None => None
              case Some(node) => if node.Directory? && name in node.entries then Some(node.entries[name]) else None
    decreases |above|
  {
    if above == [] {
      assert (above + [name])[1..] == [];
    } else if tree.Directory? && above[0] in tree.entries {
      FindMore(tree.entries[above[0]], above[1..], name);
      assert (above + [name])[1..] == above[1..] + [name];
    }
  }

  /** A directory met by the walk, with where it is. */
  ghost predicate Met(tree: Node, dir: Node, above: seq<Path>, files: Files, writable: seq<Path>) {
    && Admitted(files, writable) && Carries(tree, files, writable)
    && Find(tree, above) == Some(dir) && dir.Directory? && Named(dir) && AllPlain(above) && Outside(above, writable)
  }

  /** Every entry met has a safe path: it is ignored, or on the way to a file or a declared directory. */
  lemma EntryIsSafe(tree: Node, dir: Node, name: Path, above: seq<Path>, files: Files, writable: seq<Path>)
    requires Met(tree, dir, above, files, writable) && name in dir.entries
    ensures SafePath(Join(above + [name])) && Utf8.Text(name) && !Excluded(name)
    ensures Join(above + [name]) !in writable ==>
              Outside(above + [name], writable) && FaceOf(dir.entries[name]) == Expected(files, writable, above + [name])
  {
    var q := above + [name];
    FindMore(tree, above, name);
    if Join(q) !in writable {
      OutsideNext(above, name, writable);
      assert FaceAt(tree, q) == Expected(files, writable, q);
      ExpectedIsSafe(files, writable, q);
    }
    PlainMore(above, name);
    PartsAreText(Join(q));
    assert name == q[|above|] && name in Split(Join(q));
  }

  lemma {:induction false} NodeOk(tree: Node, dir: Node, name: Path, above: seq<Path>, files: Files, writable: seq<Path>)
    requires Met(tree, dir, above, files, writable) && name in dir.entries
    ensures GatherNode(name, dir.entries[name], above, RulesFor(writable)).ok
    decreases dir, 0
  {
    EntryIsSafe(tree, dir, name, above, files, writable);
    var node, q := dir.entries[name], above + [name];
    if Join(q) !in writable {
      if node.Directory? {
        FindMore(tree, above, name);
        PlainMore(above, name);
        DirectoryOk(tree, node, q, files, writable);
      } else if node.Regular? {
        ValidAt(files, Join(q));
      }
    }
  }

  lemma {:induction false} ListOk(tree: Node, dir: Node, names: seq<Path>, above: seq<Path>, files: Files, writable: seq<Path>)
    requires Met(tree, dir, above, files, writable) && forall name :: name in names ==> name in dir.entries
    ensures GatherList(dir, names, above, RulesFor(writable)).ok
    decreases dir, 1, |names|
  {
    if names != [] {
      NodeOk(tree, dir, names[0], above, files, writable);
      ListOk(tree, dir, names[1..], above, files, writable);
    }
  }

  lemma {:induction false} DirectoryOk(tree: Node, dir: Node, above: seq<Path>, files: Files, writable: seq<Path>)
    requires Met(tree, dir, above, files, writable)
    ensures Gather(dir, above, RulesFor(writable)).ok
    decreases dir, 2
  {
    forall name | name in dir.entries ensures Utf8.Text(name) {
      EntryIsSafe(tree, dir, name, above, files, writable);
    }
    ListOk(tree, dir, Sorted(dir.entries.Keys), above, files, writable);
    DirectoryFiles(dir, above, RulesFor(writable));
  }

  // ---- The files found ---------------------------------------------------------------------

  lemma FileIsShown(files: Files, writable: seq<Path>, p: Path)
    requires Admitted(files, writable) && p in files
    ensures Shown([], Split(p), RulesFor(writable)) && Outside(Split(p), writable)
  {
    ValidAt(files, p);
    var parts := Split(p);
    forall k | 1 <= k <= |parts| ensures Join(parts[..k]) !in writable {
      PrefixIsSplit(parts[..k], p);
    }
    forall k | 0 <= k < |parts| ensures ShownAt([], parts, k, RulesFor(writable)) {
      EmptyFront(parts[..k + 1]);
      assert parts[k] in parts;
    }
  }

  lemma ShownIsOutside(q: seq<Path>, writable: seq<Path>)
    requires Shown([], q, RulesFor(writable))
    ensures Outside(q, writable)
  {
    forall k | 1 <= k <= |q| ensures Join(q[..k]) !in writable {
      assert ShownAt([], q, k - 1, RulesFor(writable));
      EmptyFront(q[..k]);
    }
  }

  /** The file an unhidden place shows. */
  ghost function FileAt(tree: Node, parts: seq<Path>, rules: Rules): Option<File> {
    if Shown([], parts, rules) && Find(tree, parts).Some? && Find(tree, parts).value.Regular?
    then Some(FileOf(Find(tree, parts).value)) else None
  }

  lemma FileAtFace(tree: Node, parts: seq<Path>, rules: Rules)
    ensures var face := FaceAt(tree, parts);
            FileAt(tree, parts, rules) == if Shown([], parts, rules) && face.Filed? then Some(face.file) else None
  {}

  lemma ExpectedFile(files: Files, writable: seq<Path>, p: Path)
    ensures var face := Expected(files, writable, Split(p));
            if p in files then face == Filed(files[p], 1) else !face.Filed?
  {
    IsFileWhen(files, p);
  }

  lemma CarriesAt(tree: Node, files: Files, writable: seq<Path>, q: seq<Path>)
    requires Carries(tree, files, writable) && Outside(q, writable)
    ensures FaceAt(tree, q) == Expected(files, writable, q)
  {}

  lemma ShowsItsFile(tree: Node, files: Files, writable: seq<Path>, p: Path)
    requires Admitted(files, writable) && Carries(tree, files, writable)
    ensures FileAt(tree, Split(p), RulesFor(writable)) == At(files, p)
  {
    FileAtFace(tree, Split(p), RulesFor(writable));
    ExpectedFile(files, writable, p);
    if p in files { FileIsShown(files, writable, p); }
    if Shown([], Split(p), RulesFor(writable)) {
      ShownIsOutside(Split(p), writable);
      CarriesAt(tree, files, writable, Split(p));
    }
  }

  lemma FoundAt(tree: Node, files: Files, writable: seq<Path>, p: Path)
    requires Met(tree, tree, [], files, writable)
    ensures At(Gather(tree, [], RulesFor(writable)).files, p) == At(files, p)
  {
    DirectoryOk(tree, tree, [], files, writable);
    GatherExact(tree, RulesFor(writable), p);
    ShowsItsFile(tree, files, writable, p);
  }

  lemma SameFiles(found: Files, files: Files)
    requires forall p :: At(found, p) == At(files, p)
    ensures found == files
  {
    assert forall p :: p in found <==> p in files by {
      forall p ensures p in found <==> p in files { assert At(found, p) == At(files, p); }
    }
    forall p | p in found ensures found[p] == files[p] { assert At(found, p) == At(files, p); }
  }

  lemma FoundAll(tree: Node, files: Files, writable: seq<Path>)
    requires Met(tree, tree, [], files, writable)
    ensures Gather(tree, [], RulesFor(writable)).files == files
  {
    forall p ensures At(Gather(tree, [], RulesFor(writable)).files, p) == At(files, p) { FoundAt(tree, files, writable, p); }
    SameFiles(Gather(tree, [], RulesFor(writable)).files, files);
  }

  // ---- The space they take -----------------------------------------------------------------

  function Total(files: Files): nat { SpaceOf(Listing(files)) }

  lemma TotalFront(files: Files)
    requires files != map[]
    ensures var f := First(files.Keys); Total(files) == Space(files[f]) + Total(Without(files, f))
  {
    ListingFront(files);
    SpaceFront(Listing(files));
  }

  lemma WithoutBoth(files: Files, p: Path, q: Path)
    ensures Without(Without(files, p), q) == Without(Without(files, q), p)
  {
    assert Without(Without(files, p), q).Keys == Without(Without(files, q), p).Keys;
  }

  lemma FirstStays(files: Files, p: Path)
    requires p in files && p != First(files.Keys)
    ensures Without(files, p) != map[] && First(Without(files, p).Keys) == First(files.Keys)
  {
    var f, rest := First(files.Keys), Without(files, p);
    assert f in rest;
    FirstIsUnique(rest.Keys);
    assert IsFirst(f, rest.Keys);
  }

  lemma {:induction false} TotalWithout(files: Files, p: Path)
    requires p in files
    ensures Total(files) == Space(files[p]) + Total(Without(files, p))
    decreases |files.Keys|
  {
    TotalFront(files);
    var f := First(files.Keys);
    if p != f {
      TotalWithout(Without(files, f), p);
      FirstStays(files, p);
      TotalFront(Without(files, p));
      WithoutBoth(files, p, f);
    }
  }

  lemma MapWithoutFromSum<K, V>(a: map<K, V>, b: map<K, V>, k: K)
    requires a.Keys !! b.Keys && k in b
    ensures k in a + b && (a + b)[k] == b[k] && (a + b) - {k} == a + (b - {k})
  {
    assert ((a + b) - {k}).Keys == (a + (b - {k})).Keys;
  }

  lemma WithoutFromSum(a: Files, b: Files, p: Path)
    requires a.Keys !! b.Keys && p in b
    ensures p in a + b && (a + b)[p] == b[p] && Without(a + b, p) == a + Without(b, p)
  {
    MapWithoutFromSum(a, b, p);
  }

  lemma {:induction false} TotalOfSum(a: Files, b: Files)
    requires a.Keys !! b.Keys
    ensures Total(a + b) == Total(a) + Total(b)
    decreases |b.Keys|
  {
    if b == map[] {
      assert a + b == a;
    } else {
      var p := First(b.Keys);
      WithoutFromSum(a, b, p);
      TotalWithout(a + b, p);
      TotalWithout(b, p);
      TotalOfSum(a, Without(b, p));
    }
  }

  lemma TotalOfOne(path: Path, file: File)
    ensures Total(map[path := file]) == Space(file)
  {
    var files: Files := map[path := file];
    TotalFront(files);
    assert Without(files, path) == map[];
  }

  /** The space counted is that of the files found. */
  ghost predicate Balanced(t: Tally) { t.space == Total(t.files) }

  lemma NothingBalances()
    ensures Balanced(NOTHING) && Balanced(FORBIDDEN)
  {}

  lemma FileBalances(item: Item)
    ensures Balanced(Entry(Some(item)))
  {
    TotalOfOne(item.path, item.file);
  }

  lemma EntryBalances(inside: Tally)
    requires Balanced(inside)
    ensures Balanced(Plus(Entry(None), inside))
  {
    EntryPlus(inside);
  }

  lemma NodeCases(name: Path, node: Node, above: seq<Path>, rules: Rules)
    ensures var t := GatherNode(name, node, above, rules);
            || t == NOTHING || t == FORBIDDEN
            || (node.Regular? && t == Entry(Some(Item(Join(above + [name]), FileOf(node)))))
            || (node.Directory? && t == Plus(Entry(None), Gather(node, above + [name], rules)))
  {}

  lemma {:induction false} NodeSpace(name: Path, node: Node, above: seq<Path>, rules: Rules)
    requires Named(node) && AllPlain(above) && Plain(name)
    ensures Balanced(GatherNode(name, node, above, rules))
    decreases node, 2
  {
    NodeCases(name, node, above, rules);
    NothingBalances();
    if node.Regular? { FileBalances(Item(Join(above + [name]), FileOf(node))); }
    if node.Directory? {
      PlainMore(above, name);
      DirectorySpace(node, above + [name], rules);
      EntryBalances(Gather(node, above + [name], rules));
    }
  }

  lemma Separate(first: Files, others: Files, above: seq<Path>, names: seq<Path>)
    requires names != [] && KeysUnder(first, above + [names[0]]) && KeysAmong(others, above, names[1..])
    requires names[0] !in names[1..]
    ensures first.Keys !! others.Keys
  {
    forall p | p in first ensures p !in others {
      assert above + [names[0]] <= Split(p) && (above + [names[0]])[|above|] == names[0];
    }
  }

  lemma {:induction false} ListSpace(dir: Node, names: seq<Path>, above: seq<Path>, rules: Rules)
    requires dir.Directory? && Named(dir) && AllPlain(above) && Entries(dir, names)
    ensures Balanced(GatherList(dir, names, above, rules))
    decreases dir, 0, |names|
  {
    if names != [] {
      EntriesRest(dir, names);
      var node := dir.entries[names[0]];
      NodeSpace(names[0], node, above, rules);
      ListSpace(dir, names[1..], above, rules);
      NodeKeys(names[0], node, above, rules);
      ListKeys(dir, names[1..], above, rules);
      Separate(GatherNode(names[0], node, above, rules).files, GatherList(dir, names[1..], above, rules).files, above, names);
      TotalOfSum(GatherNode(names[0], node, above, rules).files, GatherList(dir, names[1..], above, rules).files);
    }
  }

  lemma {:induction false} DirectorySpace(dir: Node, above: seq<Path>, rules: Rules)
    requires dir.Directory? && Named(dir) && AllPlain(above)
    ensures Balanced(Gather(dir, above, rules))
    decreases dir, 1
  {
    SortedEntries(dir);
    ListSpace(dir, Sorted(dir.entries.Keys), above, rules);
    DirectoryFiles(dir, above, rules);
  }

  // ---- The result --------------------------------------------------------------------------

  /** No directory read has too many entries, and all entries met together are within the limit. */
  ghost predicate FewEntries(tree: Node, writable: seq<Path>)
    requires tree.Directory?
  {
    var t := Gather(tree, [], RulesFor(writable));
    t.widest <= MAX_BUNDLE_FILES && t.count <= MAX_BUNDLE_FILES
  }

  lemma RootIsMet(before: Node, after: Node, files: Files, writable: seq<Path>)
    requires Laid(before, files, writable) && SameOutside(before, after, writable)
    requires Admitted(files, writable) && Named(after)
    ensures after.Directory? && Met(after, after, [], files, writable)
  {
    assert Outside([], writable);
    assert FaceAt(after, []) == FaceAt(before, []) == Expected(files, writable, []);
    forall q | Outside(q, writable) ensures FaceAt(after, q) == Expected(files, writable, q) {
      assert FaceAt(after, q) == FaceAt(before, q);
    }
  }

  /** Freezing again gives exactly the bundle's files: `before` is the workspace as it was prepared, `after` any
      tree that agrees with it outside the writable directories. */
  lemma ReinventoryReturns(before: Node, after: Node, files: Files, writable: seq<Path>)
    requires Laid(before, files, writable) && SameOutside(before, after, writable) && Named(after)
    requires Admitted(files, writable) && |writable| <= 16
    ensures after.Directory? && (FewEntries(after, writable) ==> Inventoried(after, writable, files))
  {
    RootIsMet(before, after, files, writable);
    DirectoryOk(after, after, [], files, writable);
    FoundAll(after, files, writable);
    DirectorySpace(after, [], RulesFor(writable));
  }

  /** The whole course: prepared, changed inside the writable directories only, and frozen. */
  method FreezeAgain(files: Files, writable: seq<Path>, before: Node, after: Node) returns (r: Option<Files>)
    requires Admitted(files, writable) && |writable| <= 16 && Canonical(files).Some?
    requires Laid(before, files, writable) && SameOutside(before, after, writable) && Named(after)
    ensures after.Directory? && (FewEntries(after, writable) ==> r == Some(files))
  {
    ReinventoryReturns(before, after, files, writable);
    r := Freeze(after, after, writable);
  }

  /** With a hash that tells archives apart, the digest of what is found equals the bundle's exactly when the
      files are the bundle's. */
  lemma DigestTells(hash: Bytes -> string, files: Files, found: Files)
    requires forall x, y :: hash(x) == hash(y) ==> x == y
    requires Valid(files) && Canonical(files).Some? && Valid(found) && Canonical(found).Some?
    ensures hash(Canonical(found).value) == hash(Canonical(files).value) <==> found == files
  {
    if Canonical(found) == Canonical(files) { ArchiveDetermines(found, files); }
  }
}
