/** What a walk gathers, said without walking: exactly the regular files that no rule hides. */
module BundleInventory {
  import opened Common
  import opened BundlePath
  import opened BundleEntry
  import opened Bundle
  import opened BundleTree

  function At(files: Files, p: Path): Option<File> { if p in files then Some(files[p]) else None }

  ghost predicate AllPlain(parts: seq<Path>) { forall i :: 0 <= i < |parts| ==> Plain(parts[i]) }

  ghost predicate ShownAt(above: seq<Path>, below: seq<Path>, k: nat, rules: Rules)
    requires k < |below|
  {
    Join(above + below[..k + 1]) !in rules.ignored && !rules.excluded(below[k])
  }

  /** The place is hidden by no rule on the way from `above`. */
  ghost predicate Shown(above: seq<Path>, below: seq<Path>, rules: Rules) {
    forall k :: 0 <= k < |below| ==> ShownAt(above, below, k, rules)
  }

  ghost predicate Hidden(name: Path, above: seq<Path>, rules: Rules) {
    Join(above + [name]) in rules.ignored || rules.excluded(name)
  }

  /** The file at a place, following entries and rules step by step. */
  ghost function Lookup(dir: Node, above: seq<Path>, below: seq<Path>, rules: Rules): Option<File>
    requires below != []
    decreases |below|, 0
  {
    if dir.Directory? && below[0] in dir.entries then LookupNode(below[0], dir.entries[below[0]], above, below[1..], rules)
    else None
  }

  ghost function LookupNode(name: Path, node: Node, above: seq<Path>, rest: seq<Path>, rules: Rules): Option<File>
    decreases |rest|, 1
  {
    if Hidden(name, above, rules) then None
    else if rest == [] then (if node.Regular? then Some(FileOf(node)) else None)
    else Lookup(node, above + [name], rest, rules)
  }

  lemma HeadMoved<T>(above: seq<T>, below: seq<T>)
    requires below != []
    ensures above + below == above + [below[0]] + below[1..]
  {}

  lemma EmptyFront<T>(parts: seq<T>)
    ensures [] + parts == parts
  {}

  // ---- The files of one step of a walk -----------------------------------------------------

  lemma EmptyPlus<K, V>(m: map<K, V>)
    ensures map[] + m == m
  {}

  lemma DirectoryFiles(dir: Node, above: seq<Path>, rules: Rules)
    requires dir.Directory?
    ensures var t, inside := Gather(dir, above, rules), GatherList(dir, Sorted(dir.entries.Keys), above, rules);
            if Legible(dir) then t.files == inside.files && t.ok == inside.ok else t.files == map[] && !t.ok
  {
    EmptyPlus(GatherList(dir, Sorted(dir.entries.Keys), above, rules).files);
  }

  lemma EntryPlus(inside: Tally)
    ensures Plus(Entry(None), inside).files == inside.files && Plus(Entry(None), inside).ok == inside.ok
  {
    EmptyPlus(inside.files);
  }

  lemma NodeFiles(name: Path, node: Node, above: seq<Path>, rules: Rules)
    ensures var t, path := GatherNode(name, node, above, rules), Join(above + [name]);
            && (Hidden(name, above, rules) ==> t.files == map[])
            && (!Hidden(name, above, rules) && t.ok ==>
                  match node
                  case Special => false
                  case Regular(_, _, _) => t.files == map[path := FileOf(node)]
                  case Directory(_) => Gather(node, above + [name], rules).ok && t.files == Gather(node, above + [name], rules).files)
            && (|| t.files == map[]
                || (node.Regular? && t.files == map[path := FileOf(node)])
                || (node.Directory? && t.files == Gather(node, above + [name], rules).files))
  {
    if node.Directory? { EntryPlus(Gather(node, above + [name], rules)); }
  }

  // ---- Where a walk's files lie ------------------------------------------------------------

  ghost predicate KeysUnder(files: Files, above: seq<Path>) { forall p :: p in files ==> above <= Split(p) }

  ghost predicate KeysAmong(files: Files, above: seq<Path>, names: seq<Path>) {
    forall p :: p in files ==> |above| < |Split(p)| && above <= Split(p) && Split(p)[|above|] in names
  }

  lemma PlainMore(above: seq<Path>, name: Path)
    requires AllPlain(above) && Plain(name)
    ensures AllPlain(above + [name]) && Split(Join(above + [name])) == above + [name]
  {
    SplitReturns(above + [name]);
  }

  lemma PlainTogether(above: seq<Path>, below: seq<Path>)
    requires AllPlain(above) && AllPlain(below) && above + below != []
    ensures Split(Join(above + below)) == above + below
  {
    SplitReturns(above + below);
  }

  lemma {:induction false} NodeKeys(name: Path, node: Node, above: seq<Path>, rules: Rules)
    requires Named(node) && AllPlain(above) && Plain(name)
    ensures KeysUnder(GatherNode(name, node, above, rules).files, above + [name])
    decreases node, 2
  {
    PlainMore(above, name);
    NodeFiles(name, node, above, rules);
    if node.Directory? { DirectoryKeys(node, above + [name], rules); }
  }

  lemma {:induction false} ListKeys(dir: Node, names: seq<Path>, above: seq<Path>, rules: Rules)
    requires dir.Directory? && Named(dir) && AllPlain(above) && forall name :: name in names ==> name in dir.entries
    ensures KeysAmong(GatherList(dir, names, above, rules).files, above, names)
    decreases dir, 0, |names|
  {
    if names != [] {
      NodeKeys(names[0], dir.entries[names[0]], above, rules);
      ListKeys(dir, names[1..], above, rules);
      KeysTogether(GatherNode(names[0], dir.entries[names[0]], above, rules).files,
                   GatherList(dir, names[1..], above, rules).files, above, names);
    }
  }

  lemma KeysTogether(first: Files, others: Files, above: seq<Path>, names: seq<Path>)
    requires names != [] && KeysUnder(first, above + [names[0]]) && KeysAmong(others, above, names[1..])
    ensures KeysAmong(first + others, above, names)
  {
    forall p | p in first + others ensures |above| < |Split(p)| && above <= Split(p) && Split(p)[|above|] in names {
      if p !in others { assert above + [names[0]] <= Split(p) && Split(p)[|above|] == (above + [names[0]])[|above|]; }
    }
  }

  lemma {:induction false} DirectoryKeys(dir: Node, above: seq<Path>, rules: Rules)
    requires dir.Directory? && Named(dir) && AllPlain(above)
    ensures KeysUnder(Gather(dir, above, rules).files, above)
    ensures Legible(dir) ==> KeysAmong(Gather(dir, above, rules).files, above, Sorted(dir.entries.Keys))
    decreases dir, 1
  {
    ListKeys(dir, Sorted(dir.entries.Keys), above, rules);
    DirectoryFiles(dir, above, rules);
  }

  // ---- And which they are ------------------------------------------------------------------

  lemma {:induction false} NodeExact(name: Path, node: Node, above: seq<Path>, rest: seq<Path>, rules: Rules)
    requires Named(node) && AllPlain(above) && Plain(name) && AllPlain(rest)
    requires GatherNode(name, node, above, rules).ok
    ensures At(GatherNode(name, node, above, rules).files, Join(above + [name] + rest)) == LookupNode(name, node, above, rest, rules)
    decreases node, 2
  {
    var here := above + [name];
    PlainMore(above, name);
    NodeFiles(name, node, above, rules);
    PlainTogether(here, rest);
    if rest == [] {
      assert here + rest == here;
      if node.Directory? { NoFileHere(node, here, rules); }
    } else {
      SplitDistinguishes(Join(here), Join(here + rest));
      if node.Directory? && !Hidden(name, above, rules) {
        DirectoryExact(node, here, rest, rules);
      }
    }
  }

  lemma NoFileHere(dir: Node, here: seq<Path>, rules: Rules)
    requires dir.Directory? && Named(dir) && AllPlain(here) && here != []
    ensures Join(here) !in Gather(dir, here, rules).files
  {
    SplitReturns(here);
    DirectoryKeys(dir, here, rules);
  }

  /** Different names, all of them in the directory. */
  ghost predicate Entries(dir: Node, names: seq<Path>)
    requires dir.Directory?
  {
    && (forall name :: name in names ==> name in dir.entries)
    && (forall i, j :: 0 <= i < j < |names| ==> names[i] != names[j])
  }

  lemma EntriesRest(dir: Node, names: seq<Path>)
    requires dir.Directory? && Entries(dir, names) && names != []
    ensures names[0] in dir.entries && names[0] !in names[1..] && Entries(dir, names[1..])
  {
    assert names[0] in names && forall name :: name in names[1..] ==> name in names;
  }

  lemma {:induction false} ListExact(dir: Node, names: seq<Path>, above: seq<Path>, below: seq<Path>, rules: Rules)
    requires dir.Directory? && Named(dir) && AllPlain(above) && AllPlain(below) && below != []
    requires Entries(dir, names) && below[0] in names
    requires GatherList(dir, names, above, rules).ok
    ensures At(GatherList(dir, names, above, rules).files, Join(above + below)) == Lookup(dir, above, below, rules)
    decreases dir, 0, |names|
  {
    EntriesRest(dir, names);
    var first, others := GatherNode(names[0], dir.entries[names[0]], above, rules), GatherList(dir, names[1..], above, rules);
    var p := Join(above + below);
    PlainTogether(above, below);
    AtPlus(first.files, others.files, p);
    if below[0] == names[0] {
      ListKeys(dir, names[1..], above, rules);
      NotAmong(others.files, above, names[1..], below, p);
      HeadMoved(above, below);
      NodeExact(names[0], dir.entries[names[0]], above, below[1..], rules);
    } else {
      NodeKeys(names[0], dir.entries[names[0]], above, rules);
      NotUnder(first.files, above, names[0], below, p);
      ListExact(dir, names[1..], above, below, rules);
    }
  }

  lemma AtPlus(first: Files, others: Files, p: Path)
    ensures At(first + others, p) == if p in others then At(others, p) else At(first, p)
  {}

  lemma NotAmong(files: Files, above: seq<Path>, names: seq<Path>, below: seq<Path>, p: Path)
    requires KeysAmong(files, above, names) && Split(p) == above + below && below != [] && below[0] !in names
    ensures p !in files
  {
    assert (above + below)[|above|] == below[0];
  }

  lemma NotUnder(files: Files, above: seq<Path>, name: Path, below: seq<Path>, p: Path)
    requires KeysUnder(files, above + [name]) && Split(p) == above + below && below != [] && below[0] != name
    ensures p !in files
  {
    assert (above + below)[|above|] == below[0] && (above + [name])[|above|] == name;
  }

  lemma {:induction false} DirectoryExact(dir: Node, above: seq<Path>, below: seq<Path>, rules: Rules)
    requires dir.Directory? && Named(dir) && AllPlain(above) && AllPlain(below) && below != []
    requires Gather(dir, above, rules).ok
    ensures At(Gather(dir, above, rules).files, Join(above + below)) == Lookup(dir, above, below, rules)
    decreases dir, 1
  {
    DirectoryFiles(dir, above, rules);
    if below[0] in dir.entries {
      SortedEntries(dir);
      ListExact(dir, Sorted(dir.entries.Keys), above, below, rules);
    } else {
      NoSuchEntry(dir, above, below, rules);
    }
  }

  lemma SortedEntries(dir: Node)
    requires dir.Directory?
    ensures Entries(dir, Sorted(dir.entries.Keys)) && forall name :: name in dir.entries ==> name in Sorted(dir.entries.Keys)
  {}

  lemma NoSuchEntry(dir: Node, above: seq<Path>, below: seq<Path>, rules: Rules)
    requires dir.Directory? && Named(dir) && AllPlain(above) && AllPlain(below) && below != []
    requires Legible(dir) && below[0] !in dir.entries
    ensures Join(above + below) !in Gather(dir, above, rules).files
  {
    DirectoryKeys(dir, above, rules);
    PlainTogether(above, below);
    NotAmong(Gather(dir, above, rules).files, above, Sorted(dir.entries.Keys), below, Join(above + below));
  }

  lemma {:induction false} LookupMeans(dir: Node, above: seq<Path>, below: seq<Path>, rules: Rules)
    requires below != []
    ensures Lookup(dir, above, below, rules) ==
              if Shown(above, below, rules) && Find(dir, below).Some? && Find(dir, below).value.Regular?
              then Some(FileOf(Find(dir, below).value)) else None
    decreases |below|
  {
    ShownNext(above, below, rules);
    if dir.Directory? && below[0] in dir.entries && |below| > 1 {
      LookupMeans(dir.entries[below[0]], above + [below[0]], below[1..], rules);
    }
  }

  lemma ShownAtNext(above: seq<Path>, below: seq<Path>, k: nat, rules: Rules)
    requires k < |below|
    ensures k == 0 ==> (ShownAt(above, below, k, rules) <==> !Hidden(below[0], above, rules))
    ensures k > 0 ==> (ShownAt(above, below, k, rules) <==> ShownAt(above + [below[0]], below[1..], k - 1, rules))
  {
    if k == 0 {
      assert below[..1] == [below[0]];
    } else {
      assert above + [below[0]] + below[1..][..k] == above + below[..k + 1];
    }
  }

  lemma ShownNext(above: seq<Path>, below: seq<Path>, rules: Rules)
    requires below != []
    ensures Shown(above, below, rules) <==>
              !Hidden(below[0], above, rules) && Shown(above + [below[0]], below[1..], rules)
  {
    forall k | 0 <= k < |below|
      ensures ShownAt(above, below, k, rules) <==>
                if k == 0 then !Hidden(below[0], above, rules) else ShownAt(above + [below[0]], below[1..], k - 1, rules)
    {
      ShownAtNext(above, below, k, rules);
    }
    if Shown(above, below, rules) {
      assert ShownAt(above, below, 0, rules);
      forall k | 0 <= k < |below[1..]| ensures ShownAt(above + [below[0]], below[1..], k, rules) {
        assert ShownAt(above, below, k + 1, rules);
      }
    } else {
      var k :| 0 <= k < |below| && !ShownAt(above, below, k, rules);
      assert k > 0 ==> !ShownAt(above + [below[0]], below[1..], k - 1, rules);
    }
  }

  /** The gathered files are exactly the regular files of the tree that lie in no ignored place and have no
      excluded component, each with its data and whether it is executable. */
  lemma GatherExact(root: Node, rules: Rules, p: Path)
    requires root.Directory? && Named(root) && Gather(root, [], rules).ok
    ensures var parts := Split(p);
            At(Gather(root, [], rules).files, p) ==
              if Shown([], parts, rules) && Find(root, parts).Some? && Find(root, parts).value.Regular?
              then Some(FileOf(Find(root, parts).value)) else None
  {
    SplitIsPlain(p);
    JoinReturns(p);
    PlaceExact(root, rules, Split(p), p);
  }

  lemma PlaceExact(root: Node, rules: Rules, parts: seq<Path>, p: Path)
    requires root.Directory? && Named(root) && Gather(root, [], rules).ok
    requires parts != [] && AllPlain(parts) && p == Join(parts)
    ensures At(Gather(root, [], rules).files, p) ==
              if Shown([], parts, rules) && Find(root, parts).Some? && Find(root, parts).value.Regular?
              then Some(FileOf(Find(root, parts).value)) else None
  {
    EmptyFront(parts);
    DirectoryExact(root, [], parts, rules);
    LookupMeans(root, [], parts, rules);
  }
}
