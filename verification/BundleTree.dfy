/** Freezing a directory tree: every regular file outside the ignored and excluded places, or an error. */
module BundleTree {
  import opened Common
  import opened BundlePath
  import opened BundleEntry
  import opened Bundle
  import Utf8

  // ---- Trees -------------------------------------------------------------------------------

  datatype Node =
    | Regular(data: Bytes, mode: nat, links: nat)
    | Directory(entries: map<Path, Node>)
    | Special  // a symbolic link, socket, pipe or device

  /** Any execute permission (`mode & 0o111`). */
  predicate Executable(mode: nat) { mode % 2 == 1 || mode / 8 % 2 == 1 || mode / 64 % 2 == 1 }

  lemma SameParity(n: nat, k: nat)
    ensures (2 * n + k) % 2 == k % 2
  {}

  lemma Shifted(n: nat, k: nat)
    requires k < 8
    ensures (8 * n + k) / 8 == n
  {}

  /** The execute bits are the lowest bits of the three lowest octal digits. */
  lemma ExecutableMeans(special: nat, user: nat, group: nat, other: nat)
    requires user < 8 && group < 8 && other < 8
    ensures var mode := 512 * special + 64 * user + 8 * group + other;
            Executable(mode) <==> user % 2 == 1 || group % 2 == 1 || other % 2 == 1
  {
    var mode := 512 * special + 64 * user + 8 * group + other;
    var eighth := 64 * special + 8 * user + group;
    Shifted(eighth, other);
    Shifted(8 * special + user, group);
    assert mode / 8 == eighth && mode / 64 == mode / 8 / 8 == 8 * special + user;
    SameParity(256 * special + 32 * user + 4 * group, other);
    SameParity(32 * special + 4 * user, group);
    SameParity(4 * special, user);
  }

  function FileOf(node: Node): File
    requires node.Regular?
  {
    File(node.data, Executable(node.mode))
  }

  /** Entry names are what a file system allows: not empty and without a slash. */
  ghost predicate Named(node: Node)
    decreases node
  {
    node.Directory? ==> forall name :: name in node.entries ==> name != [] && Plain(name) && Named(node.entries[name])
  }

  /** The node at a place below another. */
  function Find(node: Node, parts: seq<Path>): Option<Node>
    decreases |parts|
  {
    if parts == [] then Some(node)
    else if node.Directory? && parts[0] in node.entries then Find(node.entries[parts[0]], parts[1..])
    else None
  }

  // ---- What a walk goes by -----------------------------------------------------------------

  /** The declared directories to leave alone, the names passed over, and the paths that are allowed. */
  datatype Rules = Rules(ignored: seq<Path>, excluded: Path -> bool, safe: Path -> bool)

  function RulesFor(ignored: seq<Path>): Rules { Rules(ignored, Excluded, SafePath) }

  // ---- What a walk comes to ----------------------------------------------------------------

  /** `ok`: nothing forbidden was met; `widest`: the entries of the largest directory read. */
  datatype Tally = Tally(ok: bool, widest: nat, count: nat, space: nat, files: Files)

  const NOTHING := Tally(true, 0, 0, 0, map[])
  const FORBIDDEN := Tally(false, 0, 0, 0, map[])

  function Plus(a: Tally, b: Tally): Tally {
    Tally(a.ok && b.ok, Max(a.widest, b.widest), a.count + b.count, a.space + b.space, a.files + b.files)
  }

  function Entry(file: Option<Item>): Tally {
    match file
    case None => Tally(true, 0, 1, 0, map[])
    case Some(item) => Tally(true, 0, 1, Space(item.file), map[item.path := item.file])
  }

  /** An entry of the directory at `above`. */
  function GatherNode(name: Path, node: Node, above: seq<Path>, rules: Rules): Tally
    decreases node, 3
  {
    var path := Join(above + [name]);
    if path in rules.ignored || rules.excluded(name) then NOTHING
    else if !rules.safe(path) then FORBIDDEN
    else match node
      case Special => FORBIDDEN
      case Regular(data, mode, links) =>
        if links == 1 && |data| <= MAX_BUNDLE_BYTES then Entry(Some(Item(path, FileOf(node)))) else FORBIDDEN
      case Directory(_) => Plus(Entry(None), Gather(node, above + [name], rules))
  }

  function GatherList(dir: Node, names: seq<Path>, above: seq<Path>, rules: Rules): Tally
    requires dir.Directory? && forall name :: name in names ==> name in dir.entries
    decreases dir, 1, |names|
  {
    if names == [] then NOTHING
    else Plus(GatherNode(names[0], dir.entries[names[0]], above, rules), GatherList(dir, names[1..], above, rules))
  }

  /** Every name in the directory is text. */
  predicate Legible(dir: Node)
    requires dir.Directory?
  {
    forall name :: name in dir.entries ==> Utf8.Text(name)
  }

  /** The directory at `above`. */
  function Gather(dir: Node, above: seq<Path>, rules: Rules): Tally
    requires dir.Directory?
    decreases dir, 2
  {
    if !Legible(dir) then FORBIDDEN
    else Plus(Tally(true, |dir.entries|, 0, 0, map[]), GatherList(dir, Sorted(dir.entries.Keys), above, rules))
  }

  // ---- The walk ----------------------------------------------------------------------------

  /** The accumulators of a walk: the files so far, the archive size they make, the entries met. */
  datatype Account = Account(files: Files, budget: nat, entries: nat)

  predicate Within(a: Account, t: Tally) {
    && t.ok && t.widest <= 8192
    && a.entries + t.count <= 8192 && a.budget + t.space <= 32 * 1024 * 1024
  }

  function Grown(a: Account, t: Tally): Account {
    Account(a.files + t.files, a.budget + t.space, a.entries + t.count)
  }

  /** What remains to be walked decides the result. */
  function Outcome(a: Account, t: Tally): Option<Account> { if Within(a, t) then Some(Grown(a, t)) else None }

  predicate InLimits(a: Account) { a.entries <= MAX_BUNDLE_FILES && a.budget <= MAX_BUNDLE_BYTES }

  lemma OutcomeOfSum(a: Account, t: Tally, rest: Tally)
    ensures Outcome(a, Plus(t, rest)) == if Within(a, t) then Outcome(Grown(a, t), rest) else None
  {
    assert a.files + (t.files + rest.files) == a.files + t.files + rest.files;
  }

  lemma OutcomeOfNothing(a: Account)
    requires InLimits(a)
    ensures Outcome(a, NOTHING) == Some(a)
  {
    assert a.files + map[] == a.files;
  }

  lemma OutcomeOfFile(a: Account, item: Item)
    requires InLimits(a)
    ensures Outcome(a, Entry(Some(item))) ==
              if a.entries + 1 > MAX_BUNDLE_FILES || a.budget + Space(item.file) > MAX_BUNDLE_BYTES then None
              else Some(Account(a.files[item.path := item.file], a.budget + Space(item.file), a.entries + 1))
  {
    assert a.files + map[item.path := item.file] == a.files[item.path := item.file];
  }

  lemma OutcomeOfDirectory(a: Account, inside: Tally)
    requires InLimits(a)
    ensures Outcome(a, Plus(Entry(None), inside)) ==
              if a.entries + 1 > MAX_BUNDLE_FILES then None else Outcome(a.(entries := a.entries + 1), inside)
  {
    OutcomeOfSum(a, Entry(None), inside);
    assert a.files + map[] == a.files;
  }

  lemma OutcomeOfSize(a: Account, n: nat, inside: Tally)
    requires InLimits(a)
    ensures Outcome(a, Plus(Tally(true, n, 0, 0, map[]), inside)) == if n <= MAX_BUNDLE_FILES then Outcome(a, inside) else None
  {
    OutcomeOfSum(a, Tally(true, n, 0, 0, map[]), inside);
    assert a.files + map[] == a.files;
  }

  lemma OutcomeStart(dir: Node, a: Account, above: seq<Path>, rules: Rules)
    requires dir.Directory? && InLimits(a)
    ensures Outcome(a, Gather(dir, above, rules)) ==
              if Legible(dir) && |dir.entries| <= MAX_BUNDLE_FILES
              then Outcome(a, GatherList(dir, Sorted(dir.entries.Keys), above, rules)) else None
  {
    if Legible(dir) {
      OutcomeOfSize(a, |dir.entries|, GatherList(dir, Sorted(dir.entries.Keys), above, rules));
    }
  }

  lemma OutcomeNext(dir: Node, names: seq<Path>, i: nat, a: Account, above: seq<Path>, rules: Rules)
    requires dir.Directory? && (forall name :: name in names ==> name in dir.entries) && i < |names|
    ensures names[i] in dir.entries
    ensures Outcome(a, GatherList(dir, names[i..], above, rules)) ==
              match Outcome(a, GatherNode(names[i], dir.entries[names[i]], above, rules))
              case None => None
              case Some(next) => Outcome(next, GatherList(dir, names[i + 1..], above, rules))
  {
    assert names[i..][1..] == names[i + 1..] && names[i] in names;
    OutcomeOfSum(a, GatherNode(names[i], dir.entries[names[i]], above, rules), GatherList(dir, names[i + 1..], above, rules));
  }

  /** The path of an entry: the prefix, a slash unless the prefix is empty, and the name. */
  function Under(prefix: Path, name: Path): Path { if prefix == [] then name else prefix + [SLASH] + name }

  function PathOf(above: seq<Path>): Path { if above == [] then [] else Join(above) }

  lemma {:induction false} JoinMore(above: seq<Path>, name: Path)
    requires above != []
    ensures Join(above + [name]) == Join(above) + [SLASH] + name
  {
    if |above| > 1 {
      JoinMore(above[1..], name);
      assert (above + [name])[1..] == above[1..] + [name];
    } else {
      assert (above + [name])[1..] == [name];
    }
  }

  lemma UnderIsJoin(above: seq<Path>, name: Path)
    requires above != [] ==> above[0] != []
    ensures Under(PathOf(above), name) == Join(above + [name])
  {
    if above == [] {
      assert above + [name] == [name];
    } else {
      JoinMore(above, name);
    }
  }

  /** One entry of a directory. */
  method WalkEntry(dir: Node, name: Path, prefix: Path, a: Account, rules: Rules, ghost above: seq<Path>)
    returns (r: Option<Account>)
    requires dir.Directory? && name in dir.entries && name != []
    requires Named(dir) && prefix == PathOf(above) && (above != [] ==> above[0] != []) && InLimits(a)
    ensures r == Outcome(a, GatherNode(name, dir.entries[name], above, rules))
    ensures r.Some? ==> InLimits(r.value)
    decreases dir, 0
  {
    var path, node := Under(prefix, name), dir.entries[name];
    UnderIsJoin(above, name);
    OutcomeOfNothing(a);
    if path in rules.ignored || rules.excluded(name) { return Some(a); }
    if !rules.safe(path) { return None; }
    if a.entries + 1 > MAX_BUNDLE_FILES {
      CountExceeded(name, node, a, above, rules);
      return None;
    }
    match node
    case Special => return None;
    case Regular(data, mode, links) =>
      if links != 1 || |data| > MAX_BUNDLE_BYTES { return None; }
      OutcomeOfFile(a, Item(path, FileOf(node)));
      var budget := a.budget + Space(FileOf(node));
      if budget > MAX_BUNDLE_BYTES { return None; }
      return Some(Account(a.files[path := FileOf(node)], budget, a.entries + 1));
    case Directory(_) =>
      OutcomeOfDirectory(a, Gather(node, above + [name], rules));
      PathOfMore(above, name);
      r := Walk(node, path, a.(entries := a.entries + 1), rules, above + [name]);
  }

  lemma CountExceeded(name: Path, node: Node, a: Account, above: seq<Path>, rules: Rules)
    requires InLimits(a) && a.entries + 1 > MAX_BUNDLE_FILES
    requires Join(above + [name]) !in rules.ignored && !rules.excluded(name)
    ensures Outcome(a, GatherNode(name, node, above, rules)).None?
  {
    if node.Directory? { OutcomeOfDirectory(a, Gather(node, above + [name], rules)); }
  }

  lemma PathOfMore(above: seq<Path>, name: Path)
    requires name != [] && (above != [] ==> above[0] != [])
    ensures PathOf(above + [name]) == Join(above + [name]) && (above + [name])[0] != []
  {}

  /** `walk`: descend through a directory, entry by entry in name order. */
  method Walk(dir: Node, prefix: Path, a: Account, rules: Rules, ghost above: seq<Path>) returns (r: Option<Account>)
    requires Named(dir) && prefix == PathOf(above) && (above != [] ==> above[0] != []) && InLimits(a)
    ensures r == if dir.Directory? then Outcome(a, Gather(dir, above, rules)) else None
    ensures r.Some? ==> InLimits(r.value)
    decreases dir, 1
  {
    if !dir.Directory? { return None; }
    OutcomeStart(dir, a, above, rules);
    if !Legible(dir) || |dir.entries| > MAX_BUNDLE_FILES { return None; }
    var names := Sorted(dir.entries.Keys);
    var now := a;
    assert names[0..] == names;
    for i := 0 to |names|
      invariant InLimits(now)
      invariant Outcome(a, Gather(dir, above, rules)) == Outcome(now, GatherList(dir, names[i..], above, rules))
    {
      OutcomeNext(dir, names, i, now, above, rules);
      var next := WalkEntry(dir, names[i], prefix, now, rules, above);
      if next.None? { return None; }
      now := next.value;
    }
    OutcomeOfNothing(now);
    return Some(now);
  }

  const START := Account(map[], 1024, 0)

  lemma OutcomeFromStart(t: Tally)
    ensures Outcome(START, t).Some? <==> Within(START, t)
    ensures Outcome(START, t).Some? ==> Outcome(START, t).value.files == t.files
  {
    assert map[] + t.files == t.files;
  }

  /** One observation of a whole tree. */
  method Snapshot(root: Node, rules: Rules) returns (r: Option<Files>)
    requires Named(root)
    ensures r.Some? <==> root.Directory? && Within(START, Gather(root, [], rules))
    ensures r.Some? ==> r.value == Gather(root, [], rules).files
  {
    var a := Walk(root, [], START, rules, []);
    if root.Directory? { OutcomeFromStart(Gather(root, [], rules)); }
    if a.None? { return None; }
    return Some(a.value.files);
  }

  /** The tree passes the walk's checks, and these are the files it meets. */
  predicate Inventoried(root: Node, ignored: seq<Path>, files: Files) {
    && |ignored| <= 16 && (forall p :: p in ignored ==> SafePath(p))
    && root.Directory? && Within(START, Gather(root, [], RulesFor(ignored))) && files == Gather(root, [], RulesFor(ignored)).files
  }

  /** `freeze_directory_excluding`: two walks that must agree, then an archive of what they found. `first` and
      `second` are the tree as each walk finds it. */
  method Freeze(first: Node, second: Node, ignored: seq<Path>) returns (r: Option<Files>)
    requires Named(first) && Named(second)
    ensures r.Some? ==> Inventoried(first, ignored, r.value) && Valid(r.value) && Canonical(r.value).Some?
    ensures r.None? && first == second ==> forall files :: Inventoried(first, ignored, files) ==> !(Valid(files) && Canonical(files).Some?)
  {
    if |ignored| > 16 || exists p :: p in ignored && !SafePath(p) { return None; }
    var one := Snapshot(first, RulesFor(ignored));
    if one.None? { return None; }
    var two := Snapshot(second, RulesFor(ignored));
    if two != one { return None; }
    var archive := FromFiles(one.value);
    if archive.None? { return None; }
    return one;
  }
}
