/** The part of the guest disk the session store owns, with what a crash may undo. */
module SessionDisk {
  import opened Common

  type Id = string

  datatype SessionState = Running | Completed | Cancelled | TimedOut | Interrupted

  /** Who wrote a status: the start transaction, the worker that ran the command, or a reader
      that found nobody supervising it. */
  datatype Author = Starter | Supervisor | Reader

  datatype Status = Status(state: SessionState, author: Author)

  /** A disk object: its present version, and every version a crash may bring back. A write adds a
      version; a sync leaves only the present one. */
  datatype Kept<T> = Kept(live: T, restorable: set<T>) {
    ghost predicate Sound() { live in restorable }

    function Written(v: T): Kept<T> { Kept(v, restorable + {v}) }

    function Synced(): Kept<T> { Kept(live, {live}) }

    ghost predicate RestoredTo(after: Kept<T>) {
      after.live in restorable && after.restorable == {after.live}
    }
  }

  /** The names in one session directory. `status.json` arrives by renaming a synced file, so its
      contents are as atomic as its name. */
  datatype Entries = Entries(status: Option<Status>, receipt: bool, log: bool)

  const EMPTY := Entries(None, false, false)

  /** The bytes of `request.sha256`: all of the digest, or anything short of it. */
  datatype Text = Partial | Whole(digest: string)

  datatype Node = Node(entries: Kept<Entries>, receipt: Kept<Text>, output: Kept<bool>)

  const FRESH := Node(Kept(EMPTY, {EMPTY}), Kept(Partial, {Partial}), Kept(false, {false}))

  /** The store's own directory: session names to inodes, and whether `.removed` exists. */
  datatype Root = Root(sessions: map<Id, nat>, tombstones: bool)

  datatype Disk = Disk(root: Kept<Root>, removed: Kept<set<Id>>, nodes: map<nat, Node>)

  const BLANK := Disk(Kept(Root(map[], false), {Root(map[], false)}), Kept({}, {{}}), map[])

  ghost predicate NodeSound(n: Node) {
    n.entries.Sound() && n.receipt.Sound() && n.output.Sound()
  }

  ghost predicate NodesSound(d: Disk) { forall n :: n in d.nodes ==> NodeSound(d.nodes[n]) }

  /** Every restorable version of the root names existing directories, each under one id only. */
  ghost predicate RootSound(d: Disk) {
    && d.root.Sound()
    && (forall v, id :: v in d.root.restorable && id in v.sessions ==> v.sessions[id] in d.nodes)
    && (forall v :: v in d.root.restorable ==> OneName(v.sessions))
  }

  ghost predicate OneName(m: map<Id, nat>) { forall i, j :: i in m && j in m && m[i] == m[j] ==> i == j }

  ghost predicate RemovedSound(d: Disk) {
    && d.removed.Sound()
    && (forall r :: r in d.removed.restorable ==> r <= d.removed.live)
    && (!d.root.live.tombstones ==> d.removed == Kept({}, {{}}))
  }

  ghost predicate DiskSound(d: Disk) { NodesSound(d) && RootSound(d) && RemovedSound(d) }

  predicate Exists(d: Disk, id: Id) { id in d.root.live.sessions && d.root.live.sessions[id] in d.nodes }

  function NodeOf(d: Disk, id: Id): Node
    requires Exists(d, id)
  {
    d.nodes[d.root.live.sessions[id]]
  }

  function Tombstones(d: Disk): set<Id> { d.removed.live }

  function PutRoot(d: Disk, r: Root): Disk { d.(root := d.root.Written(r)) }

  function PutEntries(d: Disk, n: nat, e: Entries): Disk
    requires n in d.nodes
  {
    d.(nodes := d.nodes[n := d.nodes[n].(entries := d.nodes[n].entries.Written(e))])
  }

  function PutStatus(d: Disk, n: nat, s: Status): Disk
    requires n in d.nodes
  {
    PutEntries(d, n, d.nodes[n].entries.live.(status := Some(s)))
  }

  function SyncEntries(d: Disk, n: nat): Disk
    requires n in d.nodes
  {
    d.(nodes := d.nodes[n := d.nodes[n].(entries := d.nodes[n].entries.Synced())])
  }

  function PutReceipt(d: Disk, n: nat, t: Text): Disk
    requires n in d.nodes
  {
    d.(nodes := d.nodes[n := d.nodes[n].(receipt := d.nodes[n].receipt.Written(t))])
  }

  function SyncReceipt(d: Disk, n: nat): Disk
    requires n in d.nodes
  {
    d.(nodes := d.nodes[n := d.nodes[n].(receipt := d.nodes[n].receipt.Synced())])
  }

  function PutOutput(d: Disk, n: nat): Disk
    requires n in d.nodes
  {
    d.(nodes := d.nodes[n := d.nodes[n].(output := d.nodes[n].output.Written(true))])
  }

  function MakeDirectory(d: Disk, id: Id, n: nat): Disk {
    PutRoot(d, d.root.live.(sessions := d.root.live.sessions[id := n])).(nodes := d.nodes[n := FRESH])
  }

  function DropDirectory(d: Disk, id: Id): Disk {
    PutRoot(d, d.root.live.(sessions := d.root.live.sessions - {id}))
  }

  function SyncRoot(d: Disk): Disk { d.(root := d.root.Synced()) }

  function MakeTombstones(d: Disk): Disk {
    if d.root.live.tombstones then d
    else PutRoot(d, d.root.live.(tombstones := true)).(removed := Kept({}, {{}}))
  }

  function Bury(d: Disk, id: Id): Disk { d.(removed := d.removed.Written(d.removed.live + {id})) }

  function SyncTombstones(d: Disk): Disk { d.(removed := d.removed.Synced()) }

  ghost predicate NodeRestoredTo(n: Node, m: Node) {
    n.entries.RestoredTo(m.entries) && n.receipt.RestoredTo(m.receipt) && n.output.RestoredTo(m.output)
  }

  /** `after` is a disk that may be found when the machine comes back: each object independently in
      one of its restorable versions, and no tombstones without their directory. */
  ghost predicate CrashImage(d: Disk, after: Disk) {
    && d.root.RestoredTo(after.root)
    && after.removed.restorable == {after.removed.live}
    && (if after.root.live.tombstones then after.removed.live in d.removed.restorable
        else after.removed.live == {})
    && after.nodes.Keys == d.nodes.Keys
    && forall n :: n in d.nodes ==> NodeRestoredTo(d.nodes[n], after.nodes[n])
  }
}
