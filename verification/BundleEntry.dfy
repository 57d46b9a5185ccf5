/** One archive entry: a ustar header (the ustar Interchange Format of pax in POSIX.1-2017), the file's bytes
    and the padding to a whole block. */
module BundleEntry {
  import opened Common
  import opened BundlePath

  type Bytes = seq<octet>

  const BLOCK := 512
  const MAX_BUNDLE_BYTES := 32 * 1024 * 1024

  datatype File = File(data: Bytes, executable: bool)

  datatype Item = Item(path: Path, file: File)

  // ---- Numbers and names in fixed fields ---------------------------------------------------

  function Zeros(n: nat): (z: Bytes)
    ensures |z| == n && forall i :: 0 <= i < n ==> z[i] == 0
  {
    seq(n, _ => 0)
  }

  /** The low `width` octal digits. */
  function Octal(n: nat, width: nat): (r: Bytes)
    ensures |r| == width && 0 !in r
  {
    if width == 0 then [] else Octal(n / 8, width - 1) + [0x30 + n % 8]
  }

  function FromOctal(s: Bytes): Option<nat> {
    if s == [] then Some(0)
    else
      var front, d := FromOctal(s[..|s| - 1]), s[|s| - 1];
      if front.None? || d < 0x30 || d > 0x37 then None else Some(8 * front.value + d - 0x30)
  }

  function Capacity(width: nat): nat { if width == 0 then 1 else 8 * Capacity(width - 1) }

  lemma {:induction false} OctalReturns(n: nat, width: nat)
    requires n < Capacity(width)
    ensures FromOctal(Octal(n, width)) == Some(n)
  {
    if width > 0 {
      OctalReturns(n / 8, width - 1);
      var front := Octal(n / 8, width - 1);
      assert (front + [0x30 + n % 8])[..|front|] == front;
    }
  }

  /** The bytes before the first zero. */
  function Until(s: Bytes): Bytes {
    if s == [] || s[0] == 0 then [] else [s[0]] + Until(s[1..])
  }

  lemma {:induction false} UntilReturns(s: Bytes, n: nat)
    requires 0 !in s
    ensures Until(s + Zeros(n)) == s
  {
    if s != [] {
      assert s[0] in s && forall c :: c in s[1..] ==> c in s;
      UntilReturns(s[1..], n);
      assert (s + Zeros(n))[1..] == s[1..] + Zeros(n);
    } else {
      assert s + Zeros(n) == Zeros(n);
    }
  }

  /** A string field. */
  function Padded(s: Bytes, width: nat): (r: Bytes)
    requires |s| <= width
    ensures |r| == width
  {
    s + Zeros(width - |s|)
  }

  /** A number field: octal digits and a zero. */
  function Number(n: nat, width: nat): (r: Bytes)
    requires 0 < width
    ensures |r| == width
  {
    Padded(Octal(n, width - 1), width)
  }

  function ReadNumber(field: Bytes): Option<nat> {
    if Until(field) == [] then None else FromOctal(Until(field))
  }

  lemma NumberReturns(n: nat, width: nat)
    requires 1 < width && n < Capacity(width - 1)
    ensures ReadNumber(Number(n, width)) == Some(n)
  {
    OctalReturns(n, width - 1);
    UntilReturns(Octal(n, width - 1), 1);
  }

  // ---- The header as a record and as a block -----------------------------------------------

  datatype Header = Header(
    name: Bytes, mode: Bytes, uid: Bytes, gid: Bytes, size: Bytes, mtime: Bytes, checksum: Bytes, kind: Bytes,
    link: Bytes, magic: Bytes, owner: Bytes, prefix: Bytes, spare: Bytes)

  predicate Sized(h: Header) {
    && |h.name| == 100 && |h.mode| == 8 && |h.uid| == 8 && |h.gid| == 8 && |h.size| == 12 && |h.mtime| == 12
    && |h.checksum| == 8 && |h.kind| == 1 && |h.link| == 100 && |h.magic| == 8 && |h.owner| == 80
    && |h.prefix| == 155 && |h.spare| == 12
  }

  function Identity(h: Header): Bytes { h.name + (h.mode + (h.uid + (h.gid + (h.size + h.mtime)))) }

  function Remainder(h: Header): Bytes { h.kind + (h.link + (h.magic + (h.owner + (h.prefix + h.spare)))) }

  function Layout(h: Header): (b: Bytes)
    requires Sized(h)
    ensures |b| == BLOCK
  {
    Identity(h) + (h.checksum + Remainder(h))
  }

  function Cut(b: Bytes): (h: Header)
    requires |b| == BLOCK
    ensures Sized(h)
  {
    Header(b[..100], b[100..108], b[108..116], b[116..124], b[124..136], b[136..148], b[148..156], b[156..157],
           b[157..257], b[257..265], b[265..345], b[345..500], b[500..])
  }

  lemma Piece(before: Bytes, piece: Bytes, after: Bytes, b: Bytes)
    requires b == before + (piece + after)
    ensures b[|before|..|before| + |piece|] == piece
  {}

  lemma IdentityCut(h: Header, b: Bytes)
    requires Sized(h) && b == Identity(h)
    ensures b[..100] == h.name && b[100..108] == h.mode && b[108..116] == h.uid && b[116..124] == h.gid
    ensures b[124..136] == h.size && b[136..148] == h.mtime && |b| == 148
  {}

  lemma RemainderCut(h: Header, b: Bytes)
    requires Sized(h) && b == Remainder(h)
    ensures b[..1] == h.kind && b[1..101] == h.link && b[101..109] == h.magic && b[109..189] == h.owner
    ensures b[189..344] == h.prefix && b[344..] == h.spare && |b| == 356
  {}

  lemma Shifted(front: Bytes, back: Bytes, i: nat, j: nat)
    requires i <= j <= |back|
    ensures (front + back)[|front| + i..|front| + j] == back[i..j]
  {}

  lemma Unshifted(front: Bytes, back: Bytes, i: nat, j: nat)
    requires i <= j <= |front|
    ensures (front + back)[i..j] == front[i..j]
  {}

  lemma CutReturns(h: Header)
    requires Sized(h)
    ensures Cut(Layout(h)) == h
  {
    var b, front, back := Layout(h), Identity(h), Remainder(h);
    IdentityCut(h, front);
    RemainderCut(h, back);
    assert b == front + (h.checksum + back) && b == (front + h.checksum) + back;
    Unshifted(front, h.checksum + back, 0, 100);
    Unshifted(front, h.checksum + back, 100, 108);
    Unshifted(front, h.checksum + back, 108, 116);
    Unshifted(front, h.checksum + back, 116, 124);
    Unshifted(front, h.checksum + back, 124, 136);
    Unshifted(front, h.checksum + back, 136, 148);
    Piece(front, h.checksum, back, b);
    Shifted(front + h.checksum, back, 0, 1);
    Shifted(front + h.checksum, back, 1, 101);
    Shifted(front + h.checksum, back, 101, 109);
    Shifted(front + h.checksum, back, 109, 189);
    Shifted(front + h.checksum, back, 189, 344);
    Shifted(front + h.checksum, back, 344, 356);
  }

  // ---- The checksum ------------------------------------------------------------------------

  function Sum(s: Bytes): (n: nat)
    ensures n <= 255 * |s|
  {
    if s == [] then 0 else s[0] + Sum(s[1..])
  }

  const SPACES: Bytes := [0x20, 0x20, 0x20, 0x20, 0x20, 0x20, 0x20, 0x20]

  /** The sum of the header's bytes, the checksum field read as spaces. */
  function Checksum(h: Header): nat
    requires Sized(h)
  {
    Sum(Layout(h.(checksum := SPACES)))
  }

  // ---- Where the path goes -----------------------------------------------------------------

  /** The last slash at or before `limit`. */
  function LastSlash(p: Path, limit: nat): (i: Option<nat>)
    ensures i.Some? ==> i.value <= limit && i.value < |p| && p[i.value] == SLASH
    ensures forall j :: 0 <= j <= limit && j < |p| && p[j] == SLASH ==> i.Some? && j <= i.value
  {
    if limit < |p| && p[limit] == SLASH then Some(limit)
    else if limit == 0 then None
    else LastSlash(p, limit - 1)
  }

  /** A path of up to 100 bytes is the name; a longer one is cut at the last slash that leaves at most 155
      bytes for the prefix, if the rest then fits the name. */
  function Place(p: Path): (r: Option<(Bytes, Bytes)>)
    ensures r.Some? ==> |r.value.0| <= 155 && |r.value.1| <= 100
    ensures r.Some? ==> p == if r.value.0 == [] then r.value.1 else r.value.0 + [SLASH] + r.value.1
  {
    if |p| <= 100 then Some(([], p))
    else
      var i := LastSlash(p, 155);
      if i.None? || i.value == 0 || |p| - i.value - 1 > 100 then None
      else
        assert p == p[..i.value] + [SLASH] + p[i.value + 1..];
        Some((p[..i.value], p[i.value + 1..]))
  }

  function PathOf(h: Header): Path {
    var prefix, name := Until(h.prefix), Until(h.name);
    if prefix == [] then name else prefix + [SLASH] + name
  }

  // ---- Writing an entry --------------------------------------------------------------------

  const MODE_FILE := 0x1A4        // 0644
  const MODE_EXECUTABLE := 0x1ED  // 0755
  const REGULAR: Bytes := [0x30]
  const MAGIC: Bytes := [0x75, 0x73, 0x74, 0x61, 0x72, 0, 0x30, 0x30]  // "ustar", zero, version "00"

  function Unsummed(place: (Bytes, Bytes), file: File): (h: Header)
    requires |place.0| <= 155 && |place.1| <= 100
    ensures Sized(h)
  {
    Header(Padded(place.1, 100), Number(if file.executable then MODE_EXECUTABLE else MODE_FILE, 8), Number(0, 8), Number(0, 8),
           Number(|file.data|, 12), Number(0, 12), SPACES, REGULAR, Zeros(100), MAGIC, Zeros(80), Padded(place.0, 155), Zeros(12))
  }

  function HeaderFor(place: (Bytes, Bytes), file: File): (h: Header)
    requires |place.0| <= 155 && |place.1| <= 100
    ensures Sized(h)
  {
    var h := Unsummed(place, file);
    h.(checksum := Number(Checksum(h), 8))
  }

  function Padding(n: nat): nat { (BLOCK - n % BLOCK) % BLOCK }

  /** The space a file takes in the archive. */
  function Space(file: File): nat { BLOCK + (|file.data| + BLOCK - 1) / BLOCK * BLOCK }

  lemma PaddingFills(n: nat)
    ensures n + Padding(n) == (n + BLOCK - 1) / BLOCK * BLOCK
  {
    assert n == n / BLOCK * BLOCK + n % BLOCK;
    if n % BLOCK == 0 {
      assert (n + BLOCK - 1) / BLOCK == n / BLOCK;
    } else {
      assert (n + BLOCK - 1) / BLOCK == n / BLOCK + 1;
    }
  }

  /** The entry for a file, if its path can be placed. */
  function Written(item: Item): (r: Option<Bytes>)
    ensures r.Some? ==> |r.value| == Space(item.file)
  {
    PaddingFills(|item.file.data|);
    var place := Place(item.path);
    if place.None? then None
    else Some(Layout(HeaderFor(place.value, item.file)) + (item.file.data + Zeros(Padding(|item.file.data|))))
  }

  // ---- Reading an entry --------------------------------------------------------------------

  function ModeOf(h: Header): Option<bool> {
    var mode := ReadNumber(h.mode);
    if mode == Some(MODE_FILE) then Some(false) else if mode == Some(MODE_EXECUTABLE) then Some(true) else None
  }

  predicate Regular(h: Header) { h.kind == REGULAR || h.kind == [0] }

  /** A header with a matching checksum for a regular file of a permitted mode: its path, size and mode. */
  function ReadHeader(h: Header): Option<(Path, nat, bool)>
    requires Sized(h)
  {
    var size, executable := ReadNumber(h.size), ModeOf(h);
    if ReadNumber(h.checksum) != Some(Checksum(h)) || !Regular(h) || size.None? || executable.None? then None
    else Some((PathOf(h), size.value, executable.value))
  }

  /** The entry in front, and what follows it. */
  function ReadEntry(b: Bytes): (r: Option<(Item, Bytes)>)
    requires |b| >= BLOCK
    ensures r.Some? ==> |r.value.1| < |b|
  {
    var read := ReadHeader(Cut(b[..BLOCK]));
    if read.None? || |b| - BLOCK < read.value.1 then None
    else
      var (path, size, executable) := read.value;
      Some((Item(path, File(b[BLOCK..BLOCK + size], executable)), b[Min(|b|, BLOCK + size + Padding(size))..]))
  }

  lemma Capacities()
    ensures Capacity(7) == 0x20_0000 && Capacity(11) == 0x2_0000_0000
  {
    assert Capacity(3) == 512;
    assert Capacity(5) == 0x8000;
    assert Capacity(7) == 0x20_0000;
    assert Capacity(9) == 0x800_0000;
  }

  lemma NamesReturn(place: (Bytes, Bytes))
    requires |place.0| <= 155 && |place.1| <= 100 && 0 !in place.0 && 0 !in place.1
    ensures Until(Padded(place.0, 155)) == place.0 && Until(Padded(place.1, 100)) == place.1
  {
    UntilReturns(place.0, 155 - |place.0|);
    UntilReturns(place.1, 100 - |place.1|);
  }

  lemma NumbersReturn(n: nat, mode: nat)
    requires n <= MAX_BUNDLE_BYTES && mode < 0x200
    ensures ReadNumber(Number(n, 12)) == Some(n) && ReadNumber(Number(mode, 8)) == Some(mode)
  {
    Capacities();
    NumberReturns(n, 12);
    NumberReturns(mode, 8);
  }

  lemma FieldsReturn(place: (Bytes, Bytes), file: File)
    requires |place.0| <= 155 && |place.1| <= 100 && 0 !in place.0 && 0 !in place.1 && |file.data| <= MAX_BUNDLE_BYTES
    ensures var h := Unsummed(place, file);
            && Until(h.prefix) == place.0 && Until(h.name) == place.1
            && ReadNumber(h.size) == Some(|file.data|) && ModeOf(h) == Some(file.executable)
  {
    NamesReturn(place);
    NumbersReturn(|file.data|, if file.executable then MODE_EXECUTABLE else MODE_FILE);
  }

  lemma ChecksumReturns(place: (Bytes, Bytes), file: File)
    requires |place.0| <= 155 && |place.1| <= 100
    ensures var h := HeaderFor(place, file); ReadNumber(h.checksum) == Some(Checksum(h))
  {
    var u := Unsummed(place, file);
    var h := HeaderFor(place, file);
    assert h.(checksum := SPACES) == u == u.(checksum := SPACES);
    Capacities();
    NumberReturns(Checksum(u), 8);
  }

  lemma HeaderReturns(item: Item)
    requires Place(item.path).Some? && 0 !in item.path && |item.file.data| <= MAX_BUNDLE_BYTES
    ensures ReadHeader(HeaderFor(Place(item.path).value, item.file)) ==
              Some((item.path, |item.file.data|, item.file.executable))
  {
    var place := Place(item.path).value;
    assert forall c :: c in place.0 || c in place.1 ==> c in item.path;
    FieldsReturn(place, item.file);
    ChecksumReturns(place, item.file);
  }

  lemma BodyReturns(head: Bytes, data: Bytes, pad: Bytes, rest: Bytes)
    ensures var b := head + (data + pad) + rest;
            && b[..|head|] == head && b[|head|..|head| + |data|] == data && b[|head| + |data| + |pad|..] == rest
  {}

  lemma BlockReturns(head: Bytes, item: Item, rest: Bytes)
    requires |head| == BLOCK && ReadHeader(Cut(head)) == Some((item.path, |item.file.data|, item.file.executable))
    ensures ReadEntry(head + (item.file.data + Zeros(Padding(|item.file.data|))) + rest) == Some((item, rest))
  {
    BodyReturns(head, item.file.data, Zeros(Padding(|item.file.data|)), rest);
  }

  /** Reading what was written, whatever follows it. */
  lemma EntryReturns(item: Item, rest: Bytes)
    requires Written(item).Some? && 0 !in item.path && |item.file.data| <= MAX_BUNDLE_BYTES
    ensures ReadEntry(Written(item).value + rest) == Some((item, rest))
  {
    var h := HeaderFor(Place(item.path).value, item.file);
    CutReturns(h);
    HeaderReturns(item);
    BlockReturns(Layout(h), item, rest);
  }
}
