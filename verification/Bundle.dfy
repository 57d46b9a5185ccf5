/** The frozen bundle: a map of files and its one canonical archive. */
module Bundle {
  import opened Common
  import opened BundlePath
  import opened BundleEntry

  const MAX_BUNDLE_FILES := 8192

  type Files = map<Path, File>

  // ---- A map in path order -----------------------------------------------------------------

  /** The files in the order of their paths. */
  function Listing(files: Files): seq<Item>
    decreases |files.Keys|
  {
    if files == map[] then []
    else
      var p := First(files.Keys);
      [Item(p, files[p])] + Listing(Without(files, p))
  }

  function Without(files: Files, p: Path): (r: Files)
    ensures r.Keys == files.Keys - {p} && (p in files ==> |r.Keys| < |files.Keys|)
    ensures forall q :: q in r ==> r[q] == files[q]
  {
    var r := files - {p};
    assert r.Keys == files.Keys - {p};
    r
  }

  /** Inserting one by one. */
  function AddAll(files: Files, items: seq<Item>): Files
    decreases |items|
  {
    if items == [] then files else AddAll(files[items[0].path := items[0].file], items[1..])
  }

  predicate Ascending(items: seq<Item>) {
    forall i, j :: 0 <= i < j < |items| ==> Less(items[i].path, items[j].path)
  }

  lemma {:induction false} ListingHolds(files: Files)
    ensures forall item :: item in Listing(files) <==> item.path in files && files[item.path] == item.file
    ensures |Listing(files)| == |files|
    decreases |files.Keys|
  {
    if files != map[] {
      var p := First(files.Keys);
      ListingHolds(Without(files, p));
      assert |files| == |files.Keys| && |Without(files, p)| == |Without(files, p).Keys|;
    }
  }

  lemma {:induction false} ListingAscends(files: Files)
    ensures Ascending(Listing(files))
    decreases |files.Keys|
  {
    if files != map[] {
      var p := First(files.Keys);
      var rest := Without(files, p);
      ListingAscends(rest);
      ListingHolds(rest);
      forall i | 0 <= i < |Listing(rest)| ensures Less(p, Listing(rest)[i].path) {
        assert Listing(rest)[i] in Listing(rest);
      }
    }
  }

  lemma MovingOver<K, V>(here: map<K, V>, there: map<K, V>, less: map<K, V>, k: K)
    requires here.Keys !! there.Keys && k in there
    requires less.Keys == there.Keys - {k} && forall q :: q in less ==> less[q] == there[q]
    ensures here[k := there[k]].Keys !! less.Keys
    ensures here[k := there[k]] + less == here + there
  {
    var moved, all := here[k := there[k]] + less, here + there;
    assert moved.Keys == all.Keys;
    forall q | q in all ensures moved[q] == all[q] {}
  }

  lemma ListingFront(files: Files)
    requires files != map[]
    ensures var p := First(files.Keys); Listing(files) != [] && Listing(files)[0] == Item(p, files[p])
                                        && Listing(files)[1..] == Listing(Without(files, p))
  {}

  /** Adding a listing to files with none of its paths gives both together. */
  lemma {:induction false} AddingListing(files: Files, more: Files)
    requires files.Keys !! more.Keys
    ensures AddAll(files, Listing(more)) == files + more
    decreases |more.Keys|
  {
    if more != map[] {
      var p := First(more.Keys);
      ListingFront(more);
      MovingOver(files, more, Without(more, p), p);
      AddingListing(files[p := more[p]], Without(more, p));
    } else {
      assert files + more == files;
    }
  }

  // ---- Validation --------------------------------------------------------------------------

  /** No file is used as a directory by this path. */
  predicate NoFileAbove(files: Files, p: Path) { forall q :: q in Ancestors(p) ==> q !in files }

  function SpaceOf(items: seq<Item>): nat {
    if items == [] then 0 else SpaceOf(items[..|items| - 1]) + Space(items[|items| - 1].file)
  }

  function ArchiveSize(files: Files): nat { 1024 + SpaceOf(Listing(files)) }

  predicate ValidFile(files: Files, item: Item) {
    |item.file.data| <= MAX_BUNDLE_BYTES && SafePath(item.path) && NoFileAbove(files, item.path)
  }

  function Validity(files: Files): Item -> bool { item => ValidFile(files, item) }

  ghost predicate All(files: Files, good: Item -> bool) { forall p :: p in files ==> good(Item(p, files[p])) }

  ghost predicate Valid(files: Files) {
    |files| <= 8192 && All(files, Validity(files)) && ArchiveSize(files) <= 32 * 1024 * 1024
  }

  lemma ValidAt(files: Files, p: Path)
    requires Valid(files) && p in files
    ensures ValidFile(files, Item(p, files[p]))
  {
    assert Validity(files)(Item(p, files[p]));
  }

  lemma {:induction false} SpaceGrows(items: seq<Item>, i: nat)
    requires i <= |items|
    ensures SpaceOf(items[..i]) <= SpaceOf(items)
    decreases |items| - i
  {
    if i < |items| {
      SpaceGrows(items, i + 1);
      assert items[..i + 1][..i] == items[..i];
    } else {
      assert items[..i] == items;
    }
  }

  /** One by one, with the size added up: every item is good and all fit. */
  method CheckAll(items: seq<Item>, good: Item -> bool) returns (ok: bool)
    ensures ok <==> (forall i :: 0 <= i < |items| ==> good(items[i])) && 1024 + SpaceOf(items) <= MAX_BUNDLE_BYTES
  {
    var size := 1024;
    for i := 0 to |items|
      invariant size == 1024 + SpaceOf(items[..i]) <= MAX_BUNDLE_BYTES
      invariant forall k :: 0 <= k < i ==> good(items[k])
    {
      if !good(items[i]) { return false; }
      size := size + Space(items[i].file);
      assert items[..i + 1][..i] == items[..i];
      if size > MAX_BUNDLE_BYTES { SpaceGrows(items, i + 1); return false; }
    }
    assert items[..|items|] == items;
    return true;
  }

  lemma AllListed(files: Files, good: Item -> bool)
    ensures (forall i :: 0 <= i < |Listing(files)| ==> good(Listing(files)[i])) <==> All(files, good)
  {
    ListingHolds(files);
    var items := Listing(files);
    if forall i :: 0 <= i < |items| ==> good(items[i]) {
      forall p | p in files ensures good(Item(p, files[p])) { assert Item(p, files[p]) in items; }
    }
    if All(files, good) {
      forall i | 0 <= i < |items| ensures good(items[i]) { assert items[i] in items; }
    }
  }

  /** `validate_files`. */
  method Validate(files: Files) returns (ok: bool)
    ensures ok <==> Valid(files)
  {
    if |files| > MAX_BUNDLE_FILES { return false; }
    AllListed(files, Validity(files));
    ok := CheckAll(Listing(files), Validity(files));
  }

  // ---- Encoding ----------------------------------------------------------------------------

  /** The entries one after another, if all can be written, and two zero blocks. */
  function Concatenated(write: Item -> Option<Bytes>, items: seq<Item>): Option<Bytes> {
    if items == [] then Some(Zeros(1024))
    else
      var entry, rest := write(items[0]), Concatenated(write, items[1..]);
      if entry.None? || rest.None? then None else Some(entry.value + rest.value)
  }

  /** The archive of these files, if every path can be placed. */
  function Canonical(files: Files): Option<Bytes> { Concatenated(Written, Listing(files)) }

  /** What is still to be written comes after what has been. */
  function After(out: Bytes, rest: Option<Bytes>): Option<Bytes> { if rest.None? then None else Some(out + rest.value) }

  lemma ConcatenatedFrom(write: Item -> Option<Bytes>, items: seq<Item>, i: nat, out: Bytes)
    requires i < |items|
    ensures write(items[i]).None? ==> Concatenated(write, items[i..]).None?
    ensures write(items[i]).Some? ==>
              After(out, Concatenated(write, items[i..])) ==
              After(out + write(items[i]).value, Concatenated(write, items[i + 1..]))
  {
    assert items[i..][1..] == items[i + 1..] && items[i..][0] == items[i];
    var entry, rest := write(items[i]), Concatenated(write, items[i + 1..]);
    if entry.Some? && rest.Some? { assert out + (entry.value + rest.value) == out + entry.value + rest.value; }
  }

  /** The loop of `encode`. */
  method WriteAll(write: Item -> Option<Bytes>, items: seq<Item>) returns (r: Option<Bytes>)
    ensures r == Concatenated(write, items)
  {
    var out: Bytes := [];
    assert items[0..] == items;
    assert After([], Concatenated(write, items)) == Concatenated(write, items) by {
      if Concatenated(write, items).Some? { assert [] + Concatenated(write, items).value == Concatenated(write, items).value; }
    }
    for i := 0 to |items|
      invariant Concatenated(write, items) == After(out, Concatenated(write, items[i..]))
    {
      ConcatenatedFrom(write, items, i, out);
      var entry := write(items[i]);
      if entry.None? { return None; }
      out := out + entry.value;
    }
    return Some(out + Zeros(1024));
  }

  /** `encode`: header, data and padding of each file in path order, then two zero blocks. */
  method Encode(files: Files) returns (r: Option<Bytes>)
    ensures r == Canonical(files)
  {
    r := WriteAll(Written, Listing(files));
  }

  lemma {:induction false} SpaceFront(items: seq<Item>)
    requires items != []
    ensures SpaceOf(items) == Space(items[0].file) + SpaceOf(items[1..])
  {
    if |items| > 1 {
      SpaceFront(items[..|items| - 1]);
      assert items[..|items| - 1][1..] == items[1..][..|items| - 2];
    }
  }

  lemma {:induction false} ConcatenatedLength(write: Item -> Option<Bytes>, items: seq<Item>)
    requires forall item :: write(item).Some? ==> |write(item).value| == Space(item.file)
    requires Concatenated(write, items).Some?
    ensures |Concatenated(write, items).value| == 1024 + SpaceOf(items)
  {
    if items != [] {
      ConcatenatedLength(write, items[1..]);
      SpaceFront(items);
    }
  }

  /** The archive takes 1024 bytes, and for each file 512 and its data in whole blocks. */
  lemma CanonicalLength(files: Files)
    requires Canonical(files).Some?
    ensures |Canonical(files).value| == ArchiveSize(files)
  {
    ConcatenatedLength(Written, Listing(files));
  }

  // ---- Decoding ----------------------------------------------------------------------------

  datatype Turn = Next(item: Item, rest: Bytes) | End | Bad

  /** What the reader makes of the front of the remaining bytes. */
  function ReadTurn(b: Bytes): (t: Turn)
    ensures t.Next? ==> |t.rest| < |b|
  {
    if b == [] then End
    else if |b| < BLOCK then Bad
    else if b[..BLOCK] == Zeros(BLOCK) then End
    else
      var r := ReadEntry(b);
      if r.None? || !SafePath(r.value.0.path) then Bad else Next(r.value.0, r.value.1)
  }

  ghost predicate Advances(read: Bytes -> Turn) { forall b :: read(b).Next? ==> |read(b).rest| < |b| }

  /** The file may join those already read. */
  predicate Joins(files: Files, item: Item, expanded: nat) {
    |files| < MAX_BUNDLE_FILES && item.path !in files && expanded + |item.file.data| <= MAX_BUNDLE_BYTES
  }

  /** All entries, added to the files read so far. */
  function ReadAll(read: Bytes -> Turn, b: Bytes, files: Files, expanded: nat): Option<Files>
    requires Advances(read)
    decreases |b|
  {
    match read(b)
    case End => Some(files)
    case Bad => None
    case Next(item, rest) =>
      if Joins(files, item, expanded)
      then ReadAll(read, rest, files[item.path := item.file], expanded + |item.file.data|)
      else None
  }

  /** The loop of `decode`. */
  method ReadFiles(read: Bytes -> Turn, bytes: Bytes) returns (r: Option<Files>)
    requires Advances(read)
    ensures r == ReadAll(read, bytes, map[], 0)
  {
    var rest, files: Files := bytes, map[];
    var expanded: nat := 0;
    while true
      invariant ReadAll(read, bytes, map[], 0) == ReadAll(read, rest, files, expanded)
      decreases |rest|
    {
      var turn := read(rest);
      match turn
      case End => return Some(files);
      case Bad => return None;
      case Next(item, more) =>
        if !Joins(files, item, expanded) { return None; }
        rest, files, expanded := more, files[item.path := item.file], expanded + |item.file.data|;
    }
  }

  /** `from_files`: an archive for valid files whose paths can be placed, and no other. */
  method FromFiles(files: Files) returns (r: Option<Bytes>)
    ensures r == if Valid(files) then Canonical(files) else None
    ensures r.Some? ==> |r.value| == ArchiveSize(files) <= MAX_BUNDLE_BYTES
  {
    var ok := Validate(files);
    if !ok { return None; }
    r := Encode(files);
    if r.Some? { CanonicalLength(files); }
  }

  /** Some valid files have this archive. */
  ghost predicate IsArchive(bytes: Bytes) { exists files :: Valid(files) && Canonical(files) == Some(bytes) }

  lemma ArchivesRead(bytes: Bytes)
    requires IsArchive(bytes)
    ensures |bytes| <= MAX_BUNDLE_BYTES
    ensures exists files :: ReadAll(ReadTurn, bytes, map[], 0) == Some(files) && Valid(files) && Canonical(files) == Some(bytes)
  {
    var files :| Valid(files) && Canonical(files) == Some(bytes);
    CanonicalLength(files);
    ArchiveReturns(files);
  }

  /** `decode`: the digest and size are those of the specification; only a canonical archive passes, and it
      gives the files it is the archive of. */
  method Decode(bytes: Bytes, expectedDigest: string, expectedSize: nat, hash: Bytes -> string) returns (r: Option<Files>)
    ensures r.Some? <==> |bytes| == expectedSize && hash(bytes) == expectedDigest && IsArchive(bytes)
    ensures r.Some? ==> Valid(r.value) && Canonical(r.value) == Some(bytes) && |bytes| <= MAX_BUNDLE_BYTES
    ensures r.Some? ==> forall files :: Valid(files) && Canonical(files) == Some(bytes) ==> files == r.value
  {
    forall files, others | Valid(files) && Canonical(files) == Some(bytes) && Valid(others) && Canonical(others) == Some(bytes)
      ensures files == others
    {
      ArchiveDetermines(files, others);
    }
    if IsArchive(bytes) { ArchivesRead(bytes); }
    if |bytes| > MAX_BUNDLE_BYTES || |bytes| != expectedSize || hash(bytes) != expectedDigest { return None; }
    r := ReadFiles(ReadTurn, bytes);
    if r.None? { return; }
    var ok := Validate(r.value);
    if !ok { return None; }
    var again := Encode(r.value);
    if again != Some(bytes) { return None; }
  }

  // ---- The round trip ----------------------------------------------------------------------

  /** These files fit after the ones read so far. */
  ghost predicate Fits(files: Files, items: seq<Item>, expanded: nat) {
    && |files| + |items| <= MAX_BUNDLE_FILES && expanded + SpaceOf(items) <= MAX_BUNDLE_BYTES
    && (forall i :: 0 <= i < |items| ==> items[i].path !in files)
    && (forall i, j :: 0 <= i < j < |items| ==> items[i].path != items[j].path)
  }

  lemma DataWithinSpace(file: File)
    ensures |file.data| <= Space(file)
  {
    PaddingFills(|file.data|);
  }

  lemma FitsNext(files: Files, items: seq<Item>, expanded: nat)
    requires Fits(files, items, expanded) && items != []
    ensures Joins(files, items[0], expanded) && |items[0].file.data| <= MAX_BUNDLE_BYTES
    ensures Fits(files[items[0].path := items[0].file], items[1..], expanded + |items[0].file.data|)
  {
    SpaceFront(items);
    DataWithinSpace(items[0].file);
    var more := files[items[0].path := items[0].file];
    assert more.Keys == files.Keys + {items[0].path} && |more| == |more.Keys| && |files| == |files.Keys|;
  }

  /** The reader finds exactly these items. */
  ghost predicate Reads(read: Bytes -> Turn, b: Bytes, items: seq<Item>)
    decreases |items|
  {
    if items == [] then read(b) == End
    else read(b).Next? && read(b).item == items[0] && Reads(read, read(b).rest, items[1..])
  }

  /** Reading items that fit adds them all. */
  lemma {:induction false} ReadingAdds(read: Bytes -> Turn, b: Bytes, items: seq<Item>, files: Files, expanded: nat)
    requires Advances(read) && Reads(read, b, items) && Fits(files, items, expanded)
    ensures ReadAll(read, b, files, expanded) == Some(AddAll(files, items))
    decreases |items|
  {
    if items != [] {
      FitsNext(files, items, expanded);
      ReadingAdds(read, read(b).rest, items[1..], files[items[0].path := items[0].file], expanded + |items[0].file.data|);
    }
  }

  lemma SafeHasNoZero(p: Path)
    requires SafePath(p)
    ensures 0 !in p
  {}

  lemma HeaderIsNotZero(item: Item, rest: Bytes)
    requires Written(item).Some?
    ensures var b := Written(item).value + rest; |b| >= BLOCK && b[..BLOCK] != Zeros(BLOCK)
  {
    var h := HeaderFor(Place(item.path).value, item.file);
    var b := Written(item).value + rest;
    CutReturns(h);
    assert b[..BLOCK] == Layout(h);
    assert Cut(b[..BLOCK]).magic[0] == 0x75;
  }

  lemma TurnReturns(item: Item, rest: Bytes)
    requires Written(item).Some? && SafePath(item.path) && |item.file.data| <= MAX_BUNDLE_BYTES
    ensures ReadTurn(Written(item).value + rest) == Next(item, rest)
  {
    SafeHasNoZero(item.path);
    EntryReturns(item, rest);
    HeaderIsNotZero(item, rest);
  }

  predicate Readable(item: Item) { SafePath(item.path) && |item.file.data| <= MAX_BUNDLE_BYTES }

  lemma EndReturns()
    ensures ReadTurn(Zeros(1024)) == End
  {
    assert Zeros(1024)[..BLOCK] == Zeros(BLOCK);
  }

  lemma {:induction false} ItemsReturn(items: seq<Item>)
    requires Concatenated(Written, items).Some? && forall i :: 0 <= i < |items| ==> Readable(items[i])
    ensures Reads(ReadTurn, Concatenated(Written, items).value, items)
  {
    if items == [] {
      EndReturns();
    } else {
      var rest := Concatenated(Written, items[1..]).value;
      assert Readable(items[0]);
      TurnReturns(items[0], rest);
      ItemsReturn(items[1..]);
    }
  }

  lemma ListingFits(files: Files)
    requires |files| <= MAX_BUNDLE_FILES && ArchiveSize(files) <= MAX_BUNDLE_BYTES
    ensures Fits(map[], Listing(files), 0)
  {
    var items := Listing(files);
    ListingHolds(files);
    ListingAscends(files);
    forall i, j | 0 <= i < j < |items| ensures items[i].path != items[j].path {
      LessIsTotal(items[i].path, items[j].path);
    }
  }

  lemma ListedAreReadable(files: Files)
    requires Valid(files)
    ensures forall i :: 0 <= i < |Listing(files)| ==> Readable(Listing(files)[i])
  {
    AllListed(files, Validity(files));
    forall i | 0 <= i < |Listing(files)| ensures Readable(Listing(files)[i]) {
      assert Validity(files)(Listing(files)[i]);
    }
  }

  lemma ListingReads(files: Files)
    requires Valid(files) && Canonical(files).Some?
    ensures Reads(ReadTurn, Canonical(files).value, Listing(files))
  {
    ListedAreReadable(files);
    ItemsReturn(Listing(files));
  }

  lemma ListingAdds(files: Files)
    ensures AddAll(map[], Listing(files)) == files
  {
    AddingListing(map[], files);
    assert map[] + files == files;
  }

  /** Reading the archive of valid files gives the files back. */
  lemma ArchiveReturns(files: Files)
    requires Valid(files) && Canonical(files).Some?
    ensures ReadAll(ReadTurn, Canonical(files).value, map[], 0) == Some(files)
  {
    ListingReads(files);
    ListingFits(files);
    ReadingAdds(ReadTurn, Canonical(files).value, Listing(files), map[], 0);
    ListingAdds(files);
  }

  /** Two maps of valid files with the same archive are the same. */
  lemma ArchiveDetermines(files: Files, others: Files)
    requires Valid(files) && Valid(others) && Canonical(files).Some? && Canonical(files) == Canonical(others)
    ensures files == others
  {
    ArchiveReturns(files);
    ArchiveReturns(others);
  }
}
