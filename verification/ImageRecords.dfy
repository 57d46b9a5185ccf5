/** The header fields an image is written with, entry by entry. */
module ImageRecords {
  import opened Common
  import opened BundlePath
  import opened ImageLayers
  import opened ImageMerge
  import opened ImageWrite
  import ImageContents
  import SafePaths

  /** A name of up to 100 bytes is in the name field. Another is cut at a slash, and the prefix is as short as it can be. */
  ghost predicate CutAt(name: Path, prefix: Path, field: Path) {
    if |name| <= 100 then prefix == [] && field == name
    else
      && |prefix| <= 155 && |field| <= 100 && name == prefix + [0x2F] + field
      && forall i :: 0 <= i < |prefix| && name[i] == 0x2F ==> |name| - i - 1 > 100
  }

  /** Some slash has at most 155 bytes before it and at most 100 after it. */
  ghost predicate CanBeCut(name: Path) { exists i :: 0 <= i < |name| && i <= 155 && name[i] == 0x2F && |name| <= i + 101 }

  lemma PlacedExactly(name: Path)
    ensures Place(name).Some? <==> |name| <= 100 || CanBeCut(name)
    ensures Place(name).Some? ==> CutAt(name, Place(name).value.0, Place(name).value.1)
  {
    if |name| > 100 {
      var cut := FirstCut(name, 0);
      if CanBeCut(name) {
        var i :| 0 <= i < |name| && i <= 155 && name[i] == 0x2F && |name| <= i + 101;
        assert CutsAt(name, i);
      }
      if cut.Some? {
        assert name == name[..cut.value] + [SLASH] + name[cut.value + 1..];
        forall i | 0 <= i < cut.value && name[i] == 0x2F ensures |name| - i - 1 > 100 { assert !CutsAt(name, i); }
      }
    }
  }

  /** The record of an entry: what its fields hold. */
  ghost predicate Records(r: Record, n: Path, e: Entry) {
    var h := r.header;
    match e
    case Folder(mode) =>
      CutAt(n + [0x2F], h.prefix, h.name) && h == Header(h.prefix, h.name, ADirectory, mode, 0, []) && r.data == []
    case Filed(mode, data) =>
      CutAt(n, h.prefix, h.name) && h == Header(h.prefix, h.name, AFile, mode, |data|, []) && r.data == data
    case Linked(target) =>
      CutAt(n, h.prefix, h.name) && h == Header(h.prefix, h.name, ALink, 0x1FF, 0, target) && r.data == []
  }

  /** An entry can be written exactly if its name, a directory's with its slash, can be placed, its target has at most
      100 bytes and its data is below 8 GiB. */
  lemma WritableExactly(n: Path, e: Entry)
    ensures Writable(n, e) <==>
            && (var name := if e.Folder? then n + [0x2F] else n; |name| <= 100 || CanBeCut(name))
            && (e.Linked? ==> |e.target| <= 100) && (e.Filed? ==> |e.data| < 8 * 1024 * 1024 * 1024)
  {
    PlacedExactly(NameField(n, e));
    assert Placeable(NameField(n, e)) <==> Place(NameField(n, e)).Some?;
  }

  lemma RecordOf(n: Path, e: Entry)
    requires (e.Folder? ==> e.mode < 4096) && (e.Filed? ==> e.mode < 4096) && Writable(n, e)
    ensures Records(RecordFor(n, e).value, n, e)
  {
    PlacedExactly(NameField(n, e));
  }

  /** The archive of an image made from layers: record by record, in byte order of the paths. */
  lemma ArchiveRecords(image: Image, layers: seq<seq<Member>>, records: seq<Record>, i: nat)
    requires ImageOf(image, layers) && WrittenFor(records, Sorted(image.Keys), image) && i < |records|
    ensures var names := Sorted(image.Keys);
            && |records| == |names| && names[i] in image && Records(records[i], names[i], image[names[i]])
            && forall j :: i < j < |names| ==> Precedes(names[i], names[j])
  {
    var names := Sorted(image.Keys);
    ImageContents.ImageIsSafe(image, layers, names[i]);
    RecordOf(names[i], image[names[i]]);
    forall j | i < j < |names| ensures Precedes(names[i], names[j]) { SafePaths.SortedAscends(image.Keys, i, j); }
  }
}
