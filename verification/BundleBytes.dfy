/** The bytes of a bundle's archive, block by block, as the ustar Interchange Format of pax in POSIX.1-2017 lays
    them out. */
module BundleBytes {
  import opened Common
  import opened BundlePath
  import opened BundleEntry
  import opened Bundle

  const ZERO: octet := 0x30  // the digit

  const TEXT_0755: Bytes := [0x30, 0x30, 0x30, 0x30, 0x37, 0x35, 0x35, 0]
  const TEXT_0644: Bytes := [0x30, 0x30, 0x30, 0x30, 0x36, 0x34, 0x34, 0]
  const NO_ONE: Bytes := [0x30, 0x30, 0x30, 0x30, 0x30, 0x30, 0x30, 0]
  const NEVER: Bytes := [0x30, 0x30, 0x30, 0x30, 0x30, 0x30, 0x30, 0x30, 0x30, 0x30, 0x30, 0]
  const USTAR: Bytes := [0x75, 0x73, 0x74, 0x61, 0x72, 0, 0x30, 0x30]

  /** A path that fits is the name. Another is cut at a slash, and the prefix is as long as it can be. */
  ghost predicate CutAt(path: Path, prefix: Bytes, name: Bytes) {
    if |path| <= 100 then prefix == [] && name == path
    else
      && 0 < |prefix| <= 155 && |name| <= 100 && path == prefix + [SLASH] + name
      && forall i :: |prefix| < i <= 155 && i < |path| ==> path[i] != SLASH
  }

  ghost predicate Bears(name: Bytes, prefix: Bytes, path: Path) {
    exists n: Bytes, p: Bytes :: |n| <= 100 && |p| <= 155 && CutAt(path, p, n)
                                 && name == n + Zeros(100 - |n|) && prefix == p + Zeros(155 - |p|)
  }

  /** A path can be placed exactly if it fits, or if some slash leaves both sides short enough. */
  lemma PlacedExactly(path: Path)
    ensures Place(path).Some? <==> |path| <= 100 || exists i :: 0 < i <= 155 && i < |path| <= i + 101 && path[i] == SLASH
    ensures Place(path).Some? ==> CutAt(path, Place(path).value.0, Place(path).value.1)
  {
    var i := LastSlash(path, 155);
    assert |path| > 100 && i.Some? && 0 < i.value && |path| - i.value - 1 <= 100 ==> path[i.value] == SLASH;
  }

  ghost predicate Mode(block: Bytes, executable: bool)
    requires |block| == 512
  {
    block[100..108] == if executable then TEXT_0755 else TEXT_0644
  }

  /** The digits of the sum of all other bytes and of eight blanks. */
  ghost predicate Summed(block: Bytes)
    requires |block| == 512
  {
    FromOctal(block[148..155]) == Some(Sum(block[..148]) + 8 * 0x20 + Sum(block[156..])) && block[155] == 0
  }

  /** The header block of a regular file that belongs to nobody and was never changed. */
  ghost predicate Heads(block: Bytes, path: Path, file: File)
    requires |block| == 512
  {
    && Bears(block[..100], block[345..500], path) && Mode(block, file.executable)
    && block[108..116] == NO_ONE && block[116..124] == NO_ONE
    && FromOctal(block[124..135]) == Some(|file.data|) && block[135] == 0
    && block[136..148] == NEVER && Summed(block) && block[156] == ZERO
    && block[157..257] == Zeros(100) && block[257..265] == USTAR && block[265..345] == Zeros(80) && block[500..] == Zeros(12)
  }

  // ---- The fields --------------------------------------------------------------------------

  lemma ZeroDigits()
    ensures Number(0, 8) == NO_ONE && Number(0, 12) == NEVER
  {
    assert Octal(0, 4) == [0x30, 0x30, 0x30, 0x30];
    assert Octal(0, 7) == Octal(0, 4) + [0x30] + [0x30] + [0x30];
    assert Octal(0, 11) == Octal(0, 7) + [0x30] + [0x30] + [0x30] + [0x30];
  }

  lemma ModeDigits()
    ensures Number(MODE_EXECUTABLE, 8) == TEXT_0755 && Number(MODE_FILE, 8) == TEXT_0644
  {
    assert Octal(0, 4) == [0x30, 0x30, 0x30, 0x30];
    assert Octal(7, 5) == Octal(0, 4) + [0x37];
    assert Octal(61, 6) == Octal(7, 5) + [0x35];
    assert Octal(493, 7) == Octal(61, 6) + [0x35];
    assert Octal(6, 5) == Octal(0, 4) + [0x36];
    assert Octal(52, 6) == Octal(6, 5) + [0x34];
    assert Octal(420, 7) == Octal(52, 6) + [0x34];
  }

  lemma NumberDigits(n: nat, width: nat)
    requires 1 < width && n < Capacity(width - 1)
    ensures FromOctal(Number(n, width)[..width - 1]) == Some(n) && Number(n, width)[width - 1] == 0
  {
    OctalReturns(n, width - 1);
    assert Number(n, width)[..width - 1] == Octal(n, width - 1);
  }

  lemma {:induction false} SumJoin(a: Bytes, b: Bytes)
    ensures Sum(a + b) == Sum(a) + Sum(b)
  {
    if a == [] {
      assert a + b == b;
    } else {
      SumJoin(a[1..], b);
      assert (a + b)[1..] == a[1..] + b;
    }
  }

  lemma {:induction false} SumOf(c: octet, n: nat, s: Bytes)
    requires |s| == n && forall i :: 0 <= i < n ==> s[i] == c
    ensures Sum(s) == n * c
  {
    if n > 0 { SumOf(c, n - 1, s[1..]); }
  }

  lemma ChecksumIs(h: Header)
    requires Sized(h)
    ensures Checksum(h) == Sum(Identity(h)) + 8 * 0x20 + Sum(Remainder(h))
  {
    var blank := h.(checksum := SPACES);
    assert Identity(blank) == Identity(h) && Remainder(blank) == Remainder(h);
    SumJoin(Identity(h), SPACES + Remainder(h));
    SumJoin(SPACES, Remainder(h));
    SumOf(0x20, 8, SPACES);
  }

  lemma LayoutParts(h: Header)
    requires Sized(h)
    ensures Layout(h)[..148] == Identity(h) && Layout(h)[148..156] == h.checksum && Layout(h)[156..] == Remainder(h)
  {
    var b := Layout(h);
    assert |Identity(h)| == 148 && b == Identity(h) + (h.checksum + Remainder(h));
    Piece(Identity(h), h.checksum, Remainder(h), b);
  }

  lemma ChecksumFits(h: Header)
    requires Sized(h)
    ensures Checksum(h) < Capacity(7)
  {
    Capacities();
  }

  lemma LayoutIsSummed(place: (Bytes, Bytes), file: File)
    requires |place.0| <= 155 && |place.1| <= 100
    ensures Summed(Layout(HeaderFor(place, file)))
  {
    var u, h := Unsummed(place, file), HeaderFor(place, file);
    ChecksumIs(u);
    ChecksumFits(u);
    NumberDigits(Checksum(u), 8);
    LayoutParts(h);
    assert Identity(h) == Identity(u) && Remainder(h) == Remainder(u);
    var b := Layout(h);
    assert b[148..155] == b[148..156][..7] && b[155] == b[148..156][7];
  }

  lemma FieldsOf(place: (Bytes, Bytes), file: File, b: Bytes)
    requires |place.0| <= 155 && |place.1| <= 100 && |file.data| <= MAX_BUNDLE_BYTES && b == Layout(HeaderFor(place, file))
    ensures b[..100] == place.1 + Zeros(100 - |place.1|) && b[345..500] == place.0 + Zeros(155 - |place.0|)
    ensures Mode(b, file.executable) && b[108..116] == NO_ONE && b[116..124] == NO_ONE && b[136..148] == NEVER
    ensures FromOctal(b[124..135]) == Some(|file.data|) && b[135] == 0 && b[156] == ZERO
    ensures b[157..257] == Zeros(100) && b[257..265] == USTAR && b[265..345] == Zeros(80) && b[500..] == Zeros(12)
  {
    var h := HeaderFor(place, file);
    CutReturns(h);
    ZeroDigits();
    ModeDigits();
    Capacities();
    NumberDigits(|file.data|, 12);
    assert Cut(b) == h;
    assert b[124..135] == b[124..136][..11] && b[135] == b[124..136][11] && b[156] == b[156..157][0];
  }

  lemma Borne(place: (Bytes, Bytes), path: Path, name: Bytes, prefix: Bytes)
    requires |place.0| <= 155 && |place.1| <= 100 && CutAt(path, place.0, place.1)
    requires name == place.1 + Zeros(100 - |place.1|) && prefix == place.0 + Zeros(155 - |place.0|)
    ensures Bears(name, prefix, path)
  {}

  lemma HeadOf(item: Item, place: (Bytes, Bytes))
    requires Place(item.path) == Some(place) && |item.file.data| <= MAX_BUNDLE_BYTES
    ensures Heads(Layout(HeaderFor(place, item.file)), item.path, item.file)
  {
    var block := Layout(HeaderFor(place, item.file));
    FieldsOf(place, item.file, block);
    LayoutIsSummed(place, item.file);
    PlacedExactly(item.path);
    Borne(place, item.path, block[..100], block[345..500]);
  }

  /** A header block, the data, and fewer than a block of zeros up to a whole block. */
  ghost predicate Entry(e: Bytes, item: Item) {
    var size := |item.file.data|;
    && 512 + size <= |e| < 1024 + size && |e| % 512 == 0 && Heads(e[..512], item.path, item.file)
    && e[512..512 + size] == item.file.data && e[512 + size..] == Zeros(|e| - 512 - size)
  }

  lemma WholeBlocks(file: File)
    ensures 512 + |file.data| <= Space(file) < 1024 + |file.data| && Space(file) % 512 == 0
  {}

  lemma Parts(head: Bytes, data: Bytes, padding: Bytes, e: Bytes)
    requires e == head + (data + padding)
    ensures e[..|head|] == head && e[|head|..|head| + |data|] == data && e[|head| + |data|..] == padding
  {}

  lemma EntryBytes(item: Item)
    requires Written(item).Some? && |item.file.data| <= MAX_BUNDLE_BYTES
    ensures Entry(Written(item).value, item)
  {
    var place := Place(item.path).value;
    var block, padding := Layout(HeaderFor(place, item.file)), Zeros(Padding(|item.file.data|));
    HeadOf(item, place);
    WholeBlocks(item.file);
    Parts(block, item.file.data, padding, Written(item).value);
  }

  // ---- The archive -------------------------------------------------------------------------

  lemma {:induction false} Located(write: Item -> Option<Bytes>, items: seq<Item>, k: nat)
    requires forall item :: write(item).Some? ==> |write(item).value| == Space(item.file)
    requires Concatenated(write, items).Some? && k < |items|
    ensures write(items[k]).Some? && SpaceOf(items[..k]) + Space(items[k].file) + 1024 <= |Concatenated(write, items).value|
    ensures Concatenated(write, items).value[SpaceOf(items[..k])..][..Space(items[k].file)] == write(items[k]).value
    decreases |items|
  {
    var all, first, rest := Concatenated(write, items).value, write(items[0]).value, Concatenated(write, items[1..]).value;
    ConcatenatedLength(write, items);
    if k == 0 {
      assert items[..0] == [] && all[0..] == all;
      assert all[..|first|] == first;
      SpaceFront(items);
    } else {
      Located(write, items[1..], k - 1);
      SpaceFront(items[..k]);
      assert items[..k][1..] == items[1..][..k - 1];
      assert all[SpaceOf(items[..k])..] == rest[SpaceOf(items[1..][..k - 1])..];
    }
  }

  lemma {:induction false} EndsInZeros(write: Item -> Option<Bytes>, items: seq<Item>)
    requires Concatenated(write, items).Some?
    ensures var all := Concatenated(write, items).value; |all| >= 1024 && all[|all| - 1024..] == Zeros(1024)
    decreases |items|
  {
    if items != [] {
      EndsInZeros(write, items[1..]);
      var all, first, rest := Concatenated(write, items).value, write(items[0]).value, Concatenated(write, items[1..]).value;
      assert all == first + rest && all[|all| - 1024..] == rest[|rest| - 1024..];
    }
  }

  /** Every byte of a valid bundle's archive: the files in the order of their paths, each with its ustar header, its
      data and zeros up to a whole block, and two blocks of zeros. */
  lemma ArchiveBytes(files: Files, k: nat)
    requires Valid(files) && Canonical(files).Some? && k < |files|
    ensures |Listing(files)| == |files| && forall j :: k < j < |files| ==> Precedes(Listing(files)[k].path, Listing(files)[j].path)
    ensures var all, item, at := Canonical(files).value, Listing(files)[k], SpaceOf(Listing(files)[..k]);
            && item.path in files && files[item.path] == item.file
            && at + Space(item.file) + 1024 <= |all| && Entry(all[at..][..Space(item.file)], item)
  {
    var items := Listing(files);
    ListingHolds(files);
    ListingAscends(files);
    assert items[k] in items;
    forall j | k < j < |files| ensures Precedes(items[k].path, items[j].path) {
      LessMeans(items[k].path, items[j].path);
    }
    ValidAt(files, items[k].path);
    Located(Written, items, k);
    EntryBytes(items[k]);
  }

  lemma ArchiveEnd(files: Files)
    requires Canonical(files).Some?
    ensures var all := Canonical(files).value;
            |all| == SpaceOf(Listing(files)) + 1024 && all[|all| - 1024..] == Zeros(1024)
  {
    CanonicalLength(files);
    EndsInZeros(Written, Listing(files));
  }
}
