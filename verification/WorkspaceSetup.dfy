/** Laying a bundle out as a workspace: extraction, frozen modes and the declared writable directories. */
module WorkspaceSetup {
  import opened Common
  import opened BundlePath
  import opened BundleEntry
  import opened Bundle
  import opened BundleTree
  import opened Workspace

  // ---- Paths above paths -------------------------------------------------------------------

  lemma {:induction false} JoinTogether(a: seq<Path>, b: seq<Path>)
    requires a != [] && b != []
    ensures Join(a + b) == Join(a) + [SLASH] + Join(b)
  {
    if |a| == 1 {
      assert (a + b)[1..] == b;
    } else {
      JoinTogether(a[1..], b);
      assert (a + b)[1..] == a[1..] + b;
    }
  }

  /** One path is a directory above another exactly when the other continues it after a slash. */
  lemma InsideMeans(a: Path, p: Path)
    ensures Inside(Split(a), Split(p)) <==> a + [SLASH] <= p
  {
    if Inside(Split(a), Split(p)) {
      var rest := Split(p)[|Split(a)|..];
      assert Split(p) == Split(a) + rest;
      JoinTogether(Split(a), rest);
      JoinReturns(a);
      JoinReturns(p);
    }
    if a + [SLASH] <= p {
      var rest := p[|a| + 1..];
      assert p == a + [SLASH] + rest;
      SplitJoined(a, rest);
    }
  }

  lemma PrefixIsSplit(q: seq<Path>, p: Path)
    requires q != [] && q <= Split(p)
    ensures Split(Join(q)) == q
  {
    SplitIsPlain(p);
    assert forall part :: part in q ==> part in Split(p);
    SplitReturns(q);
  }

  /** No file is a directory above another. */
  ghost predicate NoNesting(files: Files) {
    forall p, q :: p in files && q in files ==> !Inside(Split(p), Split(q))
  }

  lemma ValidHasNoNesting(files: Files)
    requires Valid(files)
    ensures NoNesting(files)
  {
    forall p, q | p in files && q in files ensures !Inside(Split(p), Split(q)) {
      ValidAt(files, q);
      InsideMeans(p, q);
      ContinuedIsAncestor(p, q);
    }
  }

  lemma ContinuedIsAncestor(a: Path, p: Path)
    ensures a + [SLASH] <= p ==> a in Ancestors(p)
  {
    if a + [SLASH] <= p {
      assert p[|a|] == SLASH && p[..|a|] == a;
    }
  }

  // ---- What a laid out workspace shows -----------------------------------------------------

  ghost predicate IsFile(files: Files, q: seq<Path>) { q != [] && Join(q) in files && Split(Join(q)) == q }

  ghost predicate OnTheWay(files: Files, made: seq<Path>, q: seq<Path>) {
    || q == []
    || (exists p :: p in files && Inside(q, Split(p)))
    || (exists d :: d in made && q <= Split(d))
  }

  ghost function Expected(files: Files, made: seq<Path>, q: seq<Path>): Face {
    if IsFile(files, q) then Filed(files[Join(q)], 1) else if OnTheWay(files, made, q) then Folder else Nothing
  }

  /** The tree holds exactly these files and directories. */
  ghost predicate Laid(tree: Node, files: Files, made: seq<Path>) {
    forall q :: FaceAt(tree, q) == Expected(files, made, q)
  }

  lemma IsFileWhen(files: Files, p: Path)
    ensures Split(p) != [] && Join(Split(p)) == p && (IsFile(files, Split(p)) <==> p in files)
  {
    JoinReturns(p);
  }

  lemma NotFileInside(files: Files, p: Path, q: seq<Path>)
    requires NoNesting(files) && p in files && Inside(q, Split(p))
    ensures !IsFile(files, q)
  {
    var name := if q == [] then [] else Join(q);
    assert name in files ==> !Inside(Split(name), Split(p));
  }

  // ---- Extraction --------------------------------------------------------------------------

  function LeafFor(file: File): (leaf: Node)
    ensures leaf.Regular? && FaceOf(leaf) == Filed(file, 1)
  {
    Regular(file.data, if file.executable then MODE_EXECUTABLE else MODE_FILE, 1)
  }

  ghost predicate Part(done: Files, all: Files) { forall p :: p in done ==> p in all && done[p] == all[p] }

  lemma FreeForNext(tree: Node, done: Files, all: Files, p: Path)
    requires Laid(tree, done, []) && Part(done, all) && NoNesting(all) && p in all && p !in done
    ensures Free(tree, Split(p))
  {
    IsFileWhen(done, p);
    assert FaceAt(tree, Split(p)) == Expected(done, [], Split(p));
    assert !OnTheWay(done, [], Split(p));
    forall k | 0 <= k < |Split(p)| ensures FaceAt(tree, Split(p)[..k]).Nothing? || FaceAt(tree, Split(p)[..k]).Folder? {
      var q := Split(p)[..k];
      assert FaceAt(tree, q) == Expected(done, [], q);
      assert !IsFile(done, q) by {
        NotFileInside(all, p, q);
        assert IsFile(done, q) ==> IsFile(all, q);
      }
    }
  }

  lemma ExpectedNext(done: Files, all: Files, p: Path, q: seq<Path>)
    requires Part(done, all) && NoNesting(all) && p in all && p !in done
    ensures Expected(done[p := all[p]], [], q) ==
              if q == Split(p) then Filed(all[p], 1) else if Inside(q, Split(p)) then Folder else Expected(done, [], q)
  {
    var more := done[p := all[p]];
    IsFileWhen(more, p);
    assert IsFile(more, q) ==> IsFile(all, q);
    if Inside(q, Split(p)) {
      NotFileInside(all, p, q);
      assert OnTheWay(more, [], q);
    } else if q != Split(p) {
      assert OnTheWay(more, [], q) <==> OnTheWay(done, [], q) by {
        if x :| x in more && Inside(q, Split(x)) { assert x in done; }
        if x :| x in done && Inside(q, Split(x)) { assert x in more; }
      }
    }
  }

  lemma LaidNext(tree: Node, done: Files, all: Files, p: Path)
    requires Laid(tree, done, []) && Part(done, all) && NoNesting(all) && p in all && p !in done
    ensures Put(tree, Split(p), LeafFor(all[p])).Some?
    ensures Laid(Put(tree, Split(p), LeafFor(all[p])).value, done[p := all[p]], [])
  {
    FreeForNext(tree, done, all, p);
    PutWorks(tree, Split(p), LeafFor(all[p]));
    var after := Put(tree, Split(p), LeafFor(all[p])).value;
    forall q ensures FaceAt(after, q) == Expected(done[p := all[p]], [], q) {
      PutFaces(tree, Split(p), LeafFor(all[p]), q);
      ExpectedNext(done, all, p, q);
    }
  }

  lemma LaidAtFirst()
    ensures Laid(Directory(map[]), map[], [])
  {
    forall q ensures FaceAt(Directory(map[]), q) == Expected(map[], [], q) {
      if q != [] { FaceStep(Directory(map[]), q); }
    }
  }

  ghost predicate Among(items: seq<Item>, i: nat, p: Path) { exists k :: 0 <= k < i && k < |items| && items[k].path == p }

  /** The files of the first `i` items. */
  ghost predicate Done(done: Files, all: Files, items: seq<Item>, i: nat) {
    Part(done, all) && forall p :: p in done <==> Among(items, i, p)
  }

  lemma AmongNext(items: seq<Item>, i: nat, p: Path)
    requires i < |items|
    ensures Among(items, i + 1, p) <==> Among(items, i, p) || p == items[i].path
  {
    if Among(items, i + 1, p) && p != items[i].path {
      var k :| 0 <= k < i + 1 && items[k].path == p;
      assert 0 <= k < i;
    }
  }

  lemma ListedOnce(all: Files, i: nat)
    requires i < |Listing(all)|
    ensures var item := Listing(all)[i]; item.path in all && all[item.path] == item.file && !Among(Listing(all), i, item.path)
  {
    ListingHolds(all);
    ListingAscends(all);
    var items := Listing(all);
    assert items[i] in items;
    forall k | 0 <= k < i ensures items[k].path != items[i].path {
      LessIsTotal(items[k].path, items[i].path);
    }
  }

  lemma DoneStep(done: Files, all: Files, items: seq<Item>, i: nat)
    requires i < |items| && Done(done, all, items, i)
    requires items[i].path in all && !Among(items, i, items[i].path)
    ensures items[i].path !in done && Done(done[items[i].path := all[items[i].path]], all, items, i + 1)
  {
    var p := items[i].path;
    var more := done[p := all[p]];
    forall q ensures q in more <==> Among(items, i + 1, q) { AmongNext(items, i, q); }
  }

  lemma DoneAtLast(done: Files, all: Files)
    requires Done(done, all, Listing(all), |Listing(all)|)
    ensures done == all
  {
    ListingHolds(all);
    forall p | p in all ensures p in done {
      assert Item(p, all[p]) in Listing(all);
      var k :| 0 <= k < |Listing(all)| && Listing(all)[k] == Item(p, all[p]);
      assert Among(Listing(all), |Listing(all)|, p);
    }
  }

  /** `extract_new_directory`: every file in turn, with the directories on its way. */
  method Extract(files: Files) returns (tree: Option<Node>)
    ensures NoNesting(files) ==> tree.Some? && Laid(tree.value, files, [])
  {
    var items, root := Listing(files), Directory(map[]);
    ghost var done: Files := map[];
    LaidAtFirst();
    for i := 0 to |items|
      invariant Done(done, files, items, i)
      invariant NoNesting(files) ==> Laid(root, done, [])
    {
      ListedOnce(files, i);
      DoneStep(done, files, items, i);
      if NoNesting(files) { LaidNext(root, done, files, items[i].path); }
      var next := Put(root, Split(items[i].path), LeafFor(items[i].file));
      if next.None? { return None; }
      root, done := next.value, done[items[i].path := files[items[i].path]];
    }
    DoneAtLast(done, files);
    return Some(root);
  }

  // ---- Frozen modes ------------------------------------------------------------------------

  const MODE_FROZEN_FILE := 0x124        // 0444
  const MODE_FROZEN_EXECUTABLE := 0x16D  // 0555

  lemma LaidThroughMode(tree: Node, files: Files, p: Path, mode: nat)
    requires Laid(tree, files, []) && p in files && Executable(mode) == files[p].executable
    ensures SetMode(tree, Split(p), mode).Some? && Laid(SetMode(tree, Split(p), mode).value, files, [])
  {
    IsFileWhen(files, p);
    assert FaceAt(tree, Split(p)) == Expected(files, [], Split(p));
    ModeFaces(tree, Split(p), mode, []);
    var after := SetMode(tree, Split(p), mode).value;
    forall q ensures FaceAt(after, q) == Expected(files, [], q) {
      ModeFaces(tree, Split(p), mode, q);
    }
  }

  /** The mode a file is frozen with. */
  function FrozenMode(file: File): nat { if file.executable then MODE_FROZEN_EXECUTABLE else MODE_FROZEN_FILE }

  function ModeAt(tree: Node, place: seq<Path>): Option<nat> {
    match Find(tree, place)
    case Some(Regular(_, mode, _)) => Some(mode)
    case _ => None
  }

  /** Setting a mode sets that mode and no other. */
  lemma {:induction false} ModeSet(tree: Node, parts: seq<Path>, mode: nat, place: seq<Path>)
    requires SetMode(tree, parts, mode).Some?
    ensures ModeAt(SetMode(tree, parts, mode).value, place) == if place == parts then Some(mode) else ModeAt(tree, place)
    decreases |parts|
  {
    if parts != [] && place != [] && place[0] == parts[0] {
      ModeSet(tree.entries[parts[0]], parts[1..], mode, place[1..]);
      assert place == [place[0]] + place[1..] && parts == [parts[0]] + parts[1..];
    }
  }

  /** The files of the first `i` items are read-only, and executable as they should be. */
  ghost predicate Frozen(tree: Node, items: seq<Item>, i: nat) {
    && i <= |items|
    && forall k :: 0 <= k < i ==> ModeAt(tree, Split(items[k].path)) == Some(if items[k].file.executable then 0x16D else 0x124)
  }

  lemma FrozenNext(tree: Node, items: seq<Item>, i: nat)
    requires i < |items| && Frozen(tree, items, i) && !Among(items, i, items[i].path)
    requires SetMode(tree, Split(items[i].path), FrozenMode(items[i].file)).Some?
    ensures Frozen(SetMode(tree, Split(items[i].path), FrozenMode(items[i].file)).value, items, i + 1)
  {
    var after := SetMode(tree, Split(items[i].path), FrozenMode(items[i].file)).value;
    forall k | 0 <= k < i + 1 ensures ModeAt(after, Split(items[k].path)) == Some(FrozenMode(items[k].file)) {
      ModeSet(tree, Split(items[i].path), FrozenMode(items[i].file), Split(items[k].path));
      JoinReturns(items[k].path);
      JoinReturns(items[i].path);
    }
  }

  /** Every file of the bundle is read-only, with its execute bits. */
  ghost predicate ReadOnly(tree: Node, files: Files) {
    forall p :: p in files ==> ModeAt(tree, Split(p)) == Some(FrozenMode(files[p]))
  }

  lemma AllFrozen(tree: Node, files: Files)
    requires Frozen(tree, Listing(files), |Listing(files)|)
    ensures ReadOnly(tree, files)
  {
    ListingHolds(files);
    forall p | p in files ensures ModeAt(tree, Split(p)) == Some(FrozenMode(files[p])) {
      assert Item(p, files[p]) in Listing(files);
      var k :| 0 <= k < |Listing(files)| && Listing(files)[k] == Item(p, files[p]);
    }
  }

  lemma ModeKeepsLaid(root: Node, files: Files, item: Item)
    requires item.path in files && files[item.path] == item.file && Laid(root, files, [])
    ensures var next := SetMode(root, Split(item.path), FrozenMode(item.file)); next.Some? && Laid(next.value, files, [])
  {
    LaidThroughMode(root, files, item.path, FrozenMode(item.file));
  }

  /** The file loop of `configure_frozen_tree`: no file stays writable, and nothing else changes. */
  method FreezeModes(tree: Node, files: Files) returns (r: Option<Node>)
    ensures Laid(tree, files, []) ==> r.Some? && Laid(r.value, files, [])
    ensures r.Some? ==> ReadOnly(r.value, files)
  {
    var items, root := Listing(files), tree;
    ghost var laid := Laid(tree, files, []);
    for i := 0 to |items|
      invariant laid ==> Laid(root, files, [])
      invariant Frozen(root, items, i)
    {
      ListedOnce(files, i);
      if laid { ModeKeepsLaid(root, files, items[i]); }
      var next := SetMode(root, Split(items[i].path), FrozenMode(items[i].file));
      if next.None? { return None; }
      FrozenNext(root, items, i);
      root := next.value;
    }
    AllFrozen(root, files);
    return Some(root);
  }

  // ---- Writable directories ----------------------------------------------------------------

  /** No declared directory is, contains or lies below a file. */
  ghost predicate Apart(files: Files, d: Path) {
    forall p :: p in files ==> !(Split(p) <= Split(d)) && !(Split(d) <= Split(p))
  }

  /** The overlap test of `validate_bundle_policy`, on strings. */
  predicate Overlaps(p: Path, d: Path) { p == d || d + [SLASH] <= p || p + [SLASH] <= d }

  lemma OverlapMeans(p: Path, d: Path)
    ensures Overlaps(p, d) <==> Split(p) <= Split(d) || Split(d) <= Split(p)
  {
    InsideMeans(p, d);
    InsideMeans(d, p);
    SplitDistinguishes(p, d);
  }

  /** The directory part of `validate_bundle_policy`. */
  method CheckDirectories(files: Files, directories: seq<Path>) returns (ok: bool)
    ensures ok <==> forall d :: d in directories ==> Apart(files, d)
  {
    for i := 0 to |directories|
      invariant forall k :: 0 <= k < i ==> Apart(files, directories[k])
    {
      var d := directories[i];
      forall p | p in files ensures Overlaps(p, d) <==> Split(p) <= Split(d) || Split(d) <= Split(p) { OverlapMeans(p, d); }
      if exists p :: p in files && Overlaps(p, d) {
        assert !Apart(files, d);
        return false;
      }
    }
    return true;
  }

  lemma LaidWithDirectory(tree: Node, files: Files, made: seq<Path>, d: Path)
    requires Laid(tree, files, made) && Apart(files, d)
    ensures MakeDirectories(tree, Split(d)).Some? && Laid(MakeDirectories(tree, Split(d)).value, files, made + [d])
  {
    assert FaceAt(tree, []) == Expected(files, made, []);
    forall k | 0 <= k <= |Split(d)| ensures FaceAt(tree, Split(d)[..k]).Nothing? || FaceAt(tree, Split(d)[..k]).Folder? {
      assert FaceAt(tree, Split(d)[..k]) == Expected(files, made, Split(d)[..k]);
    }
    DirectoriesWork(tree, Split(d));
    var after := MakeDirectories(tree, Split(d)).value;
    forall q ensures FaceAt(after, q) == Expected(files, made + [d], q) {
      DirectoriesFaces(tree, Split(d), q);
      assert OnTheWay(files, made + [d], q) <==> OnTheWay(files, made, q) || q <= Split(d);
    }
  }

  /** The loop of `run` that makes the writable directories. */
  method MakeWritable(tree: Node, files: Files, directories: seq<Path>) returns (r: Option<Node>)
    ensures Laid(tree, files, []) && (forall d :: d in directories ==> Apart(files, d)) ==>
              r.Some? && Laid(r.value, files, directories)
  {
    var root := tree;
    for i := 0 to |directories|
      invariant Laid(tree, files, []) && (forall d :: d in directories ==> Apart(files, d)) ==>
                  Laid(root, files, directories[..i])
    {
      assert directories[..i + 1] == directories[..i] + [directories[i]];
      if Laid(root, files, directories[..i]) && Apart(files, directories[i]) {
        LaidWithDirectory(root, files, directories[..i], directories[i]);
      }
      var next := MakeDirectories(root, Split(directories[i]));
      if next.None? { return None; }
      root := next.value;
    }
    assert directories[..|directories|] == directories;
    return Some(root);
  }

  /** The workspace as the first command finds it. */
  method PrepareWorkspace(files: Files, directories: seq<Path>) returns (tree: Option<Node>)
    ensures Valid(files) && (forall d :: d in directories ==> Apart(files, d)) ==>
              tree.Some? && Laid(tree.value, files, directories)
    ensures (exists d :: d in directories && !Apart(files, d)) ==> tree.None?
  {
    var ok := CheckDirectories(files, directories);
    if !ok { return None; }
    if Valid(files) { ValidHasNoNesting(files); }
    var extracted := Extract(files);
    if extracted.None? { return None; }
    var frozen := FreezeModes(extracted.value, files);
    if frozen.None? { return None; }
    tree := MakeWritable(frozen.value, files, directories);
  }
}
