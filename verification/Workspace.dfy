/** A job's workspace: a bundle laid out as a tree, its modes frozen, writable directories added, and then
    whatever the commands do inside those. */
module Workspace {
  import opened Common
  import opened BundlePath
  import opened BundleEntry
  import opened BundleTree

  // ---- Trees seen place by place -----------------------------------------------------------

  /** What is at a place, permissions other than execution aside. */
  datatype Face = Nothing | Folder | Filed(file: File, links: nat) | Odd

  function FaceOf(node: Node): Face {
    match node
    case Regular(_, _, links) => Filed(FileOf(node), links)
    case Directory(_) => Folder
    case Special => Odd
  }

  function FaceAt(tree: Node, place: seq<Path>): Face {
    match Find(tree, place)
    case None => Nothing
    case Some(node) => FaceOf(node)
  }

  /** A proper prefix. */
  predicate Inside(place: seq<Path>, parts: seq<Path>) { place <= parts && place != parts }

  lemma FaceStep(tree: Node, place: seq<Path>)
    requires place != []
    ensures FaceAt(tree, place) ==
              if tree.Directory? && place[0] in tree.entries then FaceAt(tree.entries[place[0]], place[1..]) else Nothing
  {}

  // ---- Changing a tree ---------------------------------------------------------------------

  /** Put a new file at a place, making the directories on the way. */
  function Put(node: Node, parts: seq<Path>, leaf: Node): Option<Node>
    requires parts != []
    decreases |parts|
  {
    if !node.Directory? then None
    else if |parts| == 1 then
      if parts[0] in node.entries then None else Some(Directory(node.entries[parts[0] := leaf]))
    else
      var child := if parts[0] in node.entries then node.entries[parts[0]] else Directory(map[]);
      var inner := Put(child, parts[1..], leaf);
      if inner.None? then None else Some(Directory(node.entries[parts[0] := inner.value]))
  }

  /** Make a directory and those on the way. */
  function MakeDirectories(node: Node, parts: seq<Path>): Option<Node>
    decreases |parts|
  {
    if !node.Directory? then None
    else if parts == [] then Some(node)
    else
      var child := if parts[0] in node.entries then node.entries[parts[0]] else Directory(map[]);
      var inner := MakeDirectories(child, parts[1..]);
      if inner.None? then None else Some(Directory(node.entries[parts[0] := inner.value]))
  }

  /** Set the mode of a file. */
  function SetMode(node: Node, parts: seq<Path>, mode: nat): Option<Node>
    decreases |parts|
  {
    if parts == [] then (if node.Regular? then Some(node.(mode := mode)) else None)
    else if !node.Directory? || parts[0] !in node.entries then None
    else
      var inner := SetMode(node.entries[parts[0]], parts[1..], mode);
      if inner.None? then None else Some(Directory(node.entries[parts[0] := inner.value]))
  }

  /** The way to a new file is free. */
  ghost predicate Free(tree: Node, parts: seq<Path>) {
    && FaceAt(tree, parts) == Nothing
    && forall k :: 0 <= k < |parts| ==> FaceAt(tree, parts[..k]).Nothing? || FaceAt(tree, parts[..k]).Folder?
  }

  lemma EmptyIsFree(parts: seq<Path>)
    requires parts != []
    ensures Free(Directory(map[]), parts)
  {
    forall k | 0 <= k < |parts|
      ensures FaceAt(Directory(map[]), parts[..k]).Nothing? || FaceAt(Directory(map[]), parts[..k]).Folder?
    {
      if k > 0 { FaceStep(Directory(map[]), parts[..k]); }
    }
    FaceStep(Directory(map[]), parts);
  }

  lemma FreeBelow(tree: Node, parts: seq<Path>)
    requires Free(tree, parts) && parts != []
    ensures tree.Directory?
    ensures |parts| == 1 ==> parts[0] !in tree.entries
    ensures |parts| > 1 && parts[0] in tree.entries ==> Free(tree.entries[parts[0]], parts[1..])
  {
    assert parts[..0] == [];
    FaceStep(tree, parts);
    assert |parts| == 1 ==> parts[1..] == [];
    if |parts| > 1 && parts[0] in tree.entries {
      forall k | 0 <= k < |parts[1..]|
        ensures var f := FaceAt(tree.entries[parts[0]], parts[1..][..k]); f.Nothing? || f.Folder?
      {
        assert parts[..k + 1][0] == parts[0] && parts[..k + 1][1..] == parts[1..][..k];
        FaceStep(tree, parts[..k + 1]);
      }
    }
  }

  lemma {:induction false} PutWorks(tree: Node, parts: seq<Path>, leaf: Node)
    requires Free(tree, parts) && parts != []
    ensures Put(tree, parts, leaf).Some?
    decreases |parts|
  {
    FreeBelow(tree, parts);
    if |parts| > 1 {
      if parts[0] in tree.entries {
        PutWorks(tree.entries[parts[0]], parts[1..], leaf);
      } else {
        EmptyIsFree(parts[1..]);
        PutWorks(Directory(map[]), parts[1..], leaf);
      }
    }
  }

  /** A file put into a tree changes nothing else but the directories on its way. */
  lemma {:induction false} PutFaces(tree: Node, parts: seq<Path>, leaf: Node, place: seq<Path>)
    requires parts != [] && Put(tree, parts, leaf).Some? && leaf.Regular?
    ensures FaceAt(Put(tree, parts, leaf).value, place) ==
              if place == parts then FaceOf(leaf) else if Inside(place, parts) then Folder else FaceAt(tree, place)
    decreases |parts|
  {
    var after := Put(tree, parts, leaf).value;
    if place != [] {
      FaceStep(tree, place);
      FaceStep(after, place);
      if place[0] == parts[0] {
        HeadAndTail(place, parts);
        if |parts| == 1 {
          if place != parts { FaceStep(leaf, place[1..]); }
        } else {
          var child := if parts[0] in tree.entries then tree.entries[parts[0]] else Directory(map[]);
          PutFaces(child, parts[1..], leaf, place[1..]);
          if parts[0] !in tree.entries && place[1..] != [] { FaceStep(child, place[1..]); }
        }
      }
    }
  }

  lemma HeadAndTail(place: seq<Path>, parts: seq<Path>)
    requires place != [] && parts != [] && place[0] == parts[0]
    ensures place == parts <==> place[1..] == parts[1..]
    ensures place <= parts <==> place[1..] <= parts[1..]
    ensures |parts| == 1 ==> (place == parts <==> place[1..] == []) && !Inside(place, parts)
  {
    assert place == [place[0]] + place[1..] && parts == [parts[0]] + parts[1..];
  }

  lemma {:induction false} DirectoriesWork(tree: Node, parts: seq<Path>)
    requires forall k :: 0 <= k <= |parts| ==> FaceAt(tree, parts[..k]).Nothing? || FaceAt(tree, parts[..k]).Folder?
    requires tree.Directory?
    ensures MakeDirectories(tree, parts).Some?
    decreases |parts|
  {
    if parts != [] {
      var child := if parts[0] in tree.entries then tree.entries[parts[0]] else Directory(map[]);
      forall k | 0 <= k <= |parts[1..]|
        ensures FaceAt(child, parts[1..][..k]).Nothing? || FaceAt(child, parts[1..][..k]).Folder?
      {
        assert parts[..k + 1][0] == parts[0] && parts[..k + 1][1..] == parts[1..][..k];
        FaceStep(tree, parts[..k + 1]);
        if parts[0] !in tree.entries && k > 0 { FaceStep(child, parts[1..][..k]); }
      }
      assert parts[1..][..0] == [];
      assert FaceAt(child, []).Nothing? || FaceAt(child, []).Folder?;
      DirectoriesWork(child, parts[1..]);
    }
  }

  /** Made directories change nothing else. */
  lemma {:induction false} DirectoriesFaces(tree: Node, parts: seq<Path>, place: seq<Path>)
    requires MakeDirectories(tree, parts).Some?
    ensures FaceAt(MakeDirectories(tree, parts).value, place) == if place <= parts then Folder else FaceAt(tree, place)
    decreases |parts|
  {
    if parts != [] && place != [] {
      FaceStep(tree, place);
      FaceStep(MakeDirectories(tree, parts).value, place);
      if place[0] == parts[0] {
        HeadAndTail(place, parts);
        var child := if parts[0] in tree.entries then tree.entries[parts[0]] else Directory(map[]);
        DirectoriesFaces(child, parts[1..], place[1..]);
        if parts[0] !in tree.entries && place[1..] != [] { FaceStep(child, place[1..]); }
      }
    }
  }

  /** A change of mode that keeps the execute bit, or its absence, shows nowhere. */
  lemma {:induction false} ModeFaces(tree: Node, parts: seq<Path>, mode: nat, place: seq<Path>)
    requires FaceAt(tree, parts).Filed? && FaceAt(tree, parts).file.executable == Executable(mode)
    ensures SetMode(tree, parts, mode).Some? && FaceAt(SetMode(tree, parts, mode).value, place) == FaceAt(tree, place)
    decreases |parts|
  {
    if parts != [] {
      FaceStep(tree, parts);
      ModeFaces(tree.entries[parts[0]], parts[1..], mode, if place == [] then [] else place[1..]);
      if place != [] {
        FaceStep(tree, place);
        FaceStep(SetMode(tree, parts, mode).value, place);
      }
    } else if place != [] {
      FaceStep(tree, place);
      FaceStep(SetMode(tree, parts, mode).value, place);
    }
  }
}
