/** What a job's verdict says about the source tree its commands ran in. */
module JobSource {
  import opened Common
  import opened BundlePath
  import opened BundleEntry
  import opened Bundle
  import opened BundleTree
  import opened BundleInventory
  import opened WorkspaceSetup
  import opened Reinventory
  import Runner = JobRunner
  import Result = JobResult

  type Hash = Bytes -> string

  ghost predicate TellsApart(hash: Hash) { forall x, y :: hash(x) == hash(y) ==> x == y }

  function DigestOf(hash: Hash, files: Files): string
    requires Canonical(files).Some?
  {
    hash(Canonical(files).value)
  }

  /** The digest is that of the files a walk of the tree meets outside the writable directories. */
  ghost predicate Describes(digest: string, hash: Hash, tree: Node, writable: seq<Path>) {
    exists found :: Valid(found) && Canonical(found).Some? && Inventoried(tree, writable, found) && digest == DigestOf(hash, found)
  }

  /** The look at the workspace after the commands; `first` and `second` are the tree as its two walks find it. */
  method Look(first: Node, second: Node, writable: seq<Path>, hash: Hash, error: Result.Text) returns (r: Runner.Inventory)
    requires Named(first) && Named(second)
    ensures r.Inventoried? ==> Describes(r.digest, hash, first, writable)
    ensures r.NotInventoried? && first == second ==> forall digest :: !Describes(digest, hash, first, writable)
  {
    var found := Freeze(first, second, writable);
    if found.None? { return Runner.NotInventoried(error); }
    return Runner.Inventoried(DigestOf(hash, found.value));
  }

  lemma DescribedFiles(hash: Hash, tree: Node, writable: seq<Path>, files: Files)
    requires TellsApart(hash) && Valid(files) && Canonical(files).Some? && Describes(DigestOf(hash, files), hash, tree, writable)
    ensures Inventoried(tree, writable, files)
  {
    var found :| Valid(found) && Canonical(found).Some? && Inventoried(tree, writable, found)
                 && DigestOf(hash, files) == DigestOf(hash, found);
    DigestTells(hash, files, found);
  }

  /** A job called complete leaves the source tree with exactly the bundle's files outside the writable
      directories: same paths, same bytes, same execute bits. */
  lemma CompletedKeepsSource(m: Result.Manifest, spec: Result.JobSpec, world: Runner.World, heard: seq<seq<octet>>,
                             hash: Hash, tree: Node, writable: seq<Path>, files: Files, p: Path)
    requires Runner.Fits(spec, world) && Runner.Account(m, spec, world, heard) && m.outcome == Result.Completed
    requires world.inventory.Inventoried? ==> Describes(world.inventory.digest, hash, tree, writable)
    requires TellsApart(hash) && Valid(files) && Canonical(files).Some? && spec.source.digest == DigestOf(hash, files)
    requires Named(tree)
    ensures FileAt(tree, Split(p), RulesFor(writable)) == At(files, p)
  {
    Runner.CompletedExactly(m, spec, world, heard);
    DescribedFiles(hash, tree, writable, files);
    GatherExact(tree, RulesFor(writable), p);
  }

  /** And commands that keep to the writable directories are not blamed for a change. */
  lemma UntouchedIsUnchanged(m: Result.Manifest, spec: Result.JobSpec, world: Runner.World,
                             hash: Hash, before: Node, after: Node, writable: seq<Path>, files: Files)
    requires Runner.TellsSource(m, spec, world) && Runner.AllTerminated(m.commands)
    requires Admitted(files, writable) && |writable| <= 16 && Canonical(files).Some? && spec.source.digest == DigestOf(hash, files)
    requires Laid(before, files, writable) && SameOutside(before, after, writable) && Named(after)
    requires after.Directory? && FewEntries(after, writable)
    requires if world.inventory.Inventoried? then Describes(world.inventory.digest, hash, after, writable)
             else forall digest :: !Describes(digest, hash, after, writable)
    ensures m.sourceChanged == Some(false)
  {
    ReinventoryReturns(before, after, files, writable);
    assert Describes(DigestOf(hash, files), hash, after, writable);
    if world.inventory.Inventoried? { OneDescription(world.inventory.digest, hash, after, writable, files); }
  }

  lemma OneDescription(digest: string, hash: Hash, tree: Node, writable: seq<Path>, files: Files)
    requires Describes(digest, hash, tree, writable) && Inventoried(tree, writable, files) && Canonical(files).Some?
    ensures digest == DigestOf(hash, files)
  {}
}
