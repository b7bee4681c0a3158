/** General archives: the two-pass writer, and opening and reading what it wrote. */
module Ba2General {
  import opened Wrappers
  import opened Bytes
  import opened Ba2Format
  import opened Ba2Blobs

  /** One entry of an opened archive. */
  datatype Entry = Entry(name: Blob, path: PathHash, flags: nat, blob: BlobRef)

  datatype Archive = Archive(data: Blob, entries: seq<Entry>, byName: map<Blob, nat>)

  // ------------------------------------------------------------------ what is written

  function Raws(files: seq<SourceFile>): (raws: seq<Blob>)
    ensures |raws| == |files|
  {
    seq(|files|, i requires 0 <= i < |files| => files[i].raw)
  }

  function Names(w: World, files: seq<SourceFile>): (names: seq<Blob>)
    ensures |names| == |files|
  {
    seq(|files|, i requires 0 <= i < |files| => w.normalize(files[i].path))
  }

  function DataStart(files: seq<SourceFile>): nat {
    HEADER_SIZE + RECORD_SIZE * |files|
  }

  function RecordAt(w: World, opts: Options, files: seq<SourceFile>, i: nat): Record
    requires i < |files|
  {
    Record(w.hash(w.normalize(files[i].path)), RECORD_FLAGS, RefAt(w, opts, DataStart(files), Raws(files), i))
  }

  /** The records of the first `k` entries. */
  function Records(w: World, opts: Options, files: seq<SourceFile>, k: nat): Blob
    requires k <= |files|
  {
    if k == 0 then [] else Records(w, opts, files, k - 1) + WriteRecord(RecordAt(w, opts, files, k - 1))
  }

  /** The whole archive. */
  function Image(w: World, opts: Options, files: seq<SourceFile>): Blob {
    WriteHeader(VERSION, Gnrl, |files| % U32, NameTableOffset(w, opts, files))
    + Records(w, opts, files, |files|) + StoredAll(w, opts, Raws(files)) + NameTable(Names(w, files))
  }

  function NameTableOffset(w: World, opts: Options, files: seq<SourceFile>): nat {
    DataStart(files) + |StoredAll(w, opts, Raws(files))|
  }

  /** What the writer refuses about one file. */
  function FileError(w: World, file: SourceFile): Option<WriteError> {
    if |file.raw| >= U32 then Some(TooLarge)
    else if |w.normalize(file.path)| >= U16 then Some(PathTooLong)
    else None
  }

  ghost predicate Accepted(w: World, opts: Options, files: seq<SourceFile>) {
    && |files| < U32 && NameTableOffset(w, opts, files) < U64
    && forall i | 0 <= i < |files| :: FileError(w, files[i]).None?
  }

  // --------------------------------------------------------------------------- writing

  datatype Meta = Meta(name: Blob, path: PathHash, blobOffset: nat, packedSize: nat, unpackedSize: nat)

  ghost function MetaAt(w: World, opts: Options, files: seq<SourceFile>, i: nat): Meta
    requires i < |files|
  {
    var b := RefAt(w, opts, 0, Raws(files), i);
    Meta(w.normalize(files[i].path), w.hash(w.normalize(files[i].path)), b.offset, b.packedSize, b.unpackedSize)
  }

  /** Pass one: every file is compressed into a temporary run of blobs. */
  method FirstPass(w: World, opts: Options, files: seq<SourceFile>) returns (out: Result<(Blob, seq<Meta>), WriteError>)
    ensures out.Ok? ==> out.value.0 == StoredAll(w, opts, Raws(files)) && |out.value.0| < U64
    ensures out.Ok? ==> |out.value.1| == |files| && forall j | 0 <= j < |files| :: out.value.1[j] == MetaAt(w, opts, files, j)
    ensures out.Ok? ==> forall j | 0 <= j < |files| :: FileError(w, files[j]).None?
    ensures out.Err? ==> !Accepted(w, opts, files)
  {
    hide Stored, StoredAll, PackedSize;
    var temp: Blob := [];
    var metas: seq<Meta> := [];
    ghost var raws := Raws(files);
    NothingStored(w, opts);
    assert raws[..0] == [];
    for i := 0 to |files|
      invariant temp == StoredAll(w, opts, raws[..i]) && |temp| < U64
      invariant |metas| == i && forall j | 0 <= j < i :: metas[j] == MetaAt(w, opts, files, j)
      invariant forall j | 0 <= j < i :: FileError(w, files[j]).None?
    {
      var file := files[i];
      var name := w.normalize(file.path);
      if |file.raw| >= U32 {
        return Err(TooLarge);
      }
      if |name| >= U16 {
        return Err(PathTooLong);
      }
      var blob, packed := Stored(w, opts, file.raw), PackedSize(w, opts, file.raw);
      StoredAllSplit(w, opts, raws, i);
      if |temp| + |blob| >= U64 {
        return Err(Overflow);
      }
      metas := metas + [Meta(name, w.hash(name), |temp|, packed, |file.raw|)];
      temp := temp + blob;
    }
    assert raws[..|files|] == raws;
    out := Ok((temp, metas));
  }

  /** Pass two puts out the header, the records with their final offsets, the blobs and
      the names. */
  method WriteGnrl(w: World, opts: Options, files: seq<SourceFile>) returns (out: Result<Blob, WriteError>)
    ensures out.Ok? <==> Accepted(w, opts, files)
    ensures out.Ok? ==> out.value == Image(w, opts, files)
  {
    hide StoredAll, MetaAt, FileError, Records, NameTable, WriteHeader;
    if |files| >= U32 {
      return Err(TooManyFiles);
    }
    var pass := FirstPass(w, opts, files);
    if pass.Err? {
      return Err(pass.error);
    }
    var (temp, metas) := pass.value;
    var dataStart := HEADER_SIZE + RECORD_SIZE * |files|;
    if dataStart + |temp| >= U64 {
      return Err(Overflow);
    }
    var bytes := WriteHeader(VERSION, Gnrl, |files|, dataStart + |temp|);
    var records := PutRecords(w, opts, files, dataStart, metas);
    var table := PutNames(w, opts, files, metas);
    assert |files| % U32 == |files|;
    out := Ok(bytes + records + temp + table);
  }

  method PutNames(w: World, opts: Options, files: seq<SourceFile>, metas: seq<Meta>) returns (table: Blob)
    requires |metas| == |files| && forall j | 0 <= j < |metas| :: metas[j] == MetaAt(w, opts, files, j)
    ensures table == NameTable(Names(w, files))
  {
    var names := seq(|metas|, i requires 0 <= i < |metas| => metas[i].name);
    table := WriteNameTable(names);
    assert names == Names(w, files);
  }

  method PutRecords(w: World, opts: Options, files: seq<SourceFile>, dataStart: nat, metas: seq<Meta>) returns (records: Blob)
    requires |metas| == |files| && dataStart == DataStart(files)
    requires forall j | 0 <= j < |metas| :: metas[j] == MetaAt(w, opts, files, j)
    ensures records == Records(w, opts, files, |files|)
  {
    hide WriteRecord, StoredAll, PackedSize;
    records := [];
    for i := 0 to |metas|
      invariant records == Records(w, opts, files, i)
    {
      var m := metas[i];
      records := records + WriteRecord(Record(m.path, RECORD_FLAGS, BlobRef(dataStart + m.blobOffset, m.packedSize, m.unpackedSize)));
    }
  }

  // --------------------------------------------------------------------------- opening

  function EntriesOf(data: Blob, names: seq<Blob>): (entries: seq<Entry>)
    requires HEADER_SIZE + RECORD_SIZE * |names| <= |data|
    ensures |entries| == |names|
  {
    seq(|names|, i requires 0 <= i < |names| =>
      var r := ReadRecord(data, HEADER_SIZE + RECORD_SIZE * i);
      Entry(names[i], r.path, r.flags, r.blob))
  }

  function Open(w: World, data: Blob): Result<seq<Entry>, FormatError> {
    var header := ReadHeader(data);
    if header.Err? then Err(header.error)
    else
      var h := header.value;
      if h.version != VERSION then Err(BadVersion)
      else if KindOf(h.archiveType) != Ok(Gnrl) then Err(BadKind)
      else if h.nameTableOffset > |data| then Err(Truncated)
      else if HEADER_SIZE + h.fileCount * RECORD_SIZE > |data| then Err(Truncated)
      else
        var names := NamesFrom(w, data, h.nameTableOffset, h.fileCount);
        if names.None? then Err(Truncated)
        else
          NamesCount(w, data, h.nameTableOffset, h.fileCount);
          Ok(EntriesOf(data, names.value))
  }

  /** Which data opens: the magic, version 1, the kind, all records and a complete name
      table, whose place must lie inside; and how many entries it then has. */
  lemma OpensIff(w: World, data: Blob)
    ensures Open(w, data).Ok? <==>
      && |data| >= 24 && data[..4] == [0x42, 0x54, 0x44, 0x58] && Word4(data[4], data[5], data[6], data[7]) == 1
      && data[8..12] == [0x47, 0x4E, 0x52, 0x4C]
      && var count := Word4(data[12], data[13], data[14], data[15]);
         var names := Word8(data[16], data[17], data[18], data[19], data[20], data[21], data[22], data[23]);
         && names <= |data| && 24 + 36 * count <= |data| && NamesFrom(w, data, names, count).Some?
    ensures Open(w, data).Ok? ==> |Open(w, data).value| == Word4(data[12], data[13], data[14], data[15])
  {
    hide Read, ReadHeader, ReadRecord, NamesFrom, Word4, Word8;
    if |data| >= HEADER_SIZE {
      HeaderBytes(data);
      if ReadHeader(data).Ok? {
        NamesCount(w, data, ReadHeader(data).value.nameTableOffset, ReadHeader(data).value.fileCount);
      }
    } else {
      TooSmallToOpen(data);
    }
  }

  lemma TooSmallToOpen(data: Blob)
    requires |data| < HEADER_SIZE
    ensures ReadHeader(data).Err?
  {}

  /** Reads the header, the fixed-size records and the name table. */
  method OpenArchive(w: World, data: Blob) returns (archive: Result<Archive, FormatError>)
    ensures archive.Ok? <==> Open(w, data).Ok?
    ensures archive.Err? ==> archive.error == Open(w, data).error
    ensures archive.Ok? ==> IsOpen(w, archive.value, data)
  {
    hide ReadRecord, ReadHeader, KindOf, NamesFrom;
    var header := ReadHeader(data);
    if header.Err? {
      return Err(header.error);
    }
    var h := header.value;
    if h.version != VERSION {
      return Err(BadVersion);
    }
    if KindOf(h.archiveType) != Ok(Gnrl) {
      return Err(BadKind);
    }
    if h.nameTableOffset > |data| || HEADER_SIZE + h.fileCount * RECORD_SIZE > |data| {
      return Err(Truncated);
    }
    var raw: seq<Record> := [];
    for i := 0 to h.fileCount
      invariant |raw| == i && forall j | 0 <= j < i :: raw[j] == ReadRecord(data, HEADER_SIZE + RECORD_SIZE * j)
    {
      raw := raw + [ReadRecord(data, HEADER_SIZE + RECORD_SIZE * i)];
    }
    var names := ParseNames(w, data, h.nameTableOffset, h.fileCount);
    if names.None? {
      return Err(Truncated);
    }
    NamesCount(w, data, h.nameTableOffset, h.fileCount);
    var entries := seq(|raw|, i requires 0 <= i < |raw| => Entry(names.value[i], raw[i].path, raw[i].flags, raw[i].blob));
    assert entries == EntriesOf(data, names.value);
    var byName := IndexNames(names.value);
    assert names.value == EntryNames(entries);
    archive := Ok(Archive(data, entries, byName));
  }

  function EntryNames(entries: seq<Entry>): seq<Blob> {
    seq(|entries|, i requires 0 <= i < |entries| => entries[i].name)
  }

  /** An opened archive: its entries are those of the data, and names lead to the last
      entry that has them. */
  ghost predicate IsOpen(w: World, a: Archive, data: Blob) {
    && a.data == data && Open(w, data) == Ok(a.entries)
    && forall name :: Find(a.byName, name) == LastNamed(EntryNames(a.entries), name)
  }

  /** The content of the entry the name leads to. */
  function ReadEntry(w: World, a: Archive, name: Blob): Result<Blob, ReadError> {
    var found := Find(a.byName, w.normalize(name));
    if found.None? || found.value >= |a.entries| then Err(NotFound)
    else
      var content := ReadBlob(w, a.data, a.entries[found.value].blob);
      if content.Some? then Ok(content.value) else Err(Broken)
  }

  // ------------------------------------------------------------------------ round trip

  lemma {:induction false} RecordsLength(w: World, opts: Options, files: seq<SourceFile>, k: nat)
    requires k <= |files|
    ensures |Records(w, opts, files, k)| == RECORD_SIZE * k
  {
    hide RecordAt;
    if k > 0 {
      RecordsLength(w, opts, files, k - 1);
    }
  }

  lemma {:induction false} RecordsPrefix(w: World, opts: Options, files: seq<SourceFile>, i: nat, k: nat)
    requires i < k <= |files|
    ensures Records(w, opts, files, i) + WriteRecord(RecordAt(w, opts, files, i)) <= Records(w, opts, files, k)
    decreases k
  {
    hide RecordAt, WriteRecord;
    if i + 1 < k {
      RecordsPrefix(w, opts, files, i, k - 1);
    }
  }

  lemma RecordFits(w: World, opts: Options, files: seq<SourceFile>, i: nat)
    requires Lawful(w) && Accepted(w, opts, files) && i < |files|
    ensures var r := RecordAt(w, opts, files, i); FitsPathHash(r.path) && FitsBlobRef(r.blob) && r.flags < U32
  {
    hide Stored, StoredAll;
    StoredAllSplit(w, opts, Raws(files), i);
  }

  /** Every record is found again at its place. */
  lemma RecordReadsBack(w: World, opts: Options, files: seq<SourceFile>, i: nat)
    requires Lawful(w) && Accepted(w, opts, files) && i < |files|
    ensures |Image(w, opts, files)| >= DataStart(files)
    ensures ReadRecord(Image(w, opts, files), 24 + 36 * i) == RecordAt(w, opts, files, i)
  {
    hide WriteRecord, RecordAt, ReadRecord, Records, StoredAll, NameTable, WriteHeader, Accepted, Lawful, NameTableOffset;
    var header := WriteHeader(VERSION, Gnrl, |files| % U32, NameTableOffset(w, opts, files));
    var records, r := Records(w, opts, files, |files|), WriteRecord(RecordAt(w, opts, files, i));
    var before := Records(w, opts, files, i);
    var rest := StoredAll(w, opts, Raws(files)) + NameTable(Names(w, files));
    RecordsLength(w, opts, files, i);
    RecordsLength(w, opts, files, |files|);
    RecordsPrefix(w, opts, files, i, |files|);
    RecordFits(w, opts, files, i);
    var post := records[|before| + |r|..] + rest;
    assert records == before + r + records[|before| + |r|..];
    assert Image(w, opts, files) == (header + before) + r + post;
    RecordRoundTrip(header + before, RecordAt(w, opts, files, i), post);
  }

  lemma NamesAreNormal(w: World, opts: Options, files: seq<SourceFile>)
    requires Lawful(w) && Accepted(w, opts, files)
    ensures Normalised(w, Names(w, files))
  {
    forall i | 0 <= i < |files| ensures |Names(w, files)[i]| < U16 {
      assert FileError(w, files[i]).None?;
    }
  }

  lemma ImageParts(w: World, opts: Options, files: seq<SourceFile>)
    ensures var header := WriteHeader(VERSION, Gnrl, |files| % U32, NameTableOffset(w, opts, files));
      var pre := header + Records(w, opts, files, |files|);
      && Image(w, opts, files) == pre + StoredAll(w, opts, Raws(files)) + NameTable(Names(w, files))
      && |pre| == DataStart(files)
      && Image(w, opts, files)
         == header + (Records(w, opts, files, |files|) + StoredAll(w, opts, Raws(files)) + NameTable(Names(w, files)))
  {
    hide StoredAll, NameTable, WriteHeader, Records;
    RecordsLength(w, opts, files, |files|);
  }

  /** Opening what was written gives the normalised names in order, each with its hashes
      and the place of its blob. */
  lemma WrittenOpens(w: World, opts: Options, files: seq<SourceFile>)
    requires Lawful(w) && Accepted(w, opts, files)
    ensures Open(w, Image(w, opts, files)).Ok?
    ensures var entries := Open(w, Image(w, opts, files)).value;
      && |entries| == |files|
      && forall i | 0 <= i < |files| ::
           && entries[i].name == w.normalize(files[i].path) && entries[i].path == w.hash(entries[i].name)
           && entries[i].flags == 0x0010_0100
           && entries[i].blob == RefAt(w, opts, DataStart(files), Raws(files), i)
  {
    hide Lawful, StoredAll, NameTable, WriteHeader, ReadHeader, ReadRecord, Records, RefAt, NamesFrom;
    var data, names := Image(w, opts, files), Names(w, files);
    ImageParts(w, opts, files);
    HeaderRoundTrip(VERSION, Gnrl, |files|, NameTableOffset(w, opts, files),
                    Records(w, opts, files, |files|) + StoredAll(w, opts, Raws(files)) + NameTable(names));
    assert |files| % U32 == |files|;
    NamesAreNormal(w, opts, files);
    NoNames();
    var pre := data[..NameTableOffset(w, opts, files)];
    assert data == pre + NameTable(names);
    assert names[..0] == [] && names[0..] == names;
    NamesReadBack(w, pre, names, 0);
    if |files| == 0 {
      assert |data| >= HEADER_SIZE;
    } else {
      RecordReadsBack(w, opts, files, 0);
    }
    NamesCount(w, data, NameTableOffset(w, opts, files), |files|);
    var entries := EntriesOf(data, names);
    assert Open(w, data) == Ok(entries);
    forall i | 0 <= i < |files|
      ensures entries[i] == Entry(names[i], w.hash(names[i]), RECORD_FLAGS, RefAt(w, opts, DataStart(files), Raws(files), i))
    {
      RecordReadsBack(w, opts, files, i);
    }
  }

  lemma NoNames()
    ensures NameTable([]) == []
  {}

  /** Reading a name of a written archive gives the content of the last file written under
      it, exactly when that content is recoverable; other names are not found. */
  lemma WrittenReadsBack(w: World, opts: Options, files: seq<SourceFile>, a: Archive, name: Blob)
    requires Lawful(w) && Accepted(w, opts, files) && IsOpen(w, a, Image(w, opts, files))
    ensures var last := LastNamed(Names(w, files), w.normalize(name));
      && (last.None? ==> ReadEntry(w, a, name) == Err(NotFound))
      && (last.Some? ==>
            last.value < |files|
            && (ReadEntry(w, a, name) == Ok(files[last.value].raw) <==> Recoverable(w, opts, files[last.value].raw)))
  {
    hide Open, Image, StoredAll, NameTable, WriteHeader, Records, RefAt, LastNamed, ReadBlob, Recoverable, Lawful, Accepted;
    WrittenOpens(w, opts, files);
    var key := w.normalize(name);
    assert EntryNames(a.entries) == Names(w, files);
    var last := LastNamed(Names(w, files), key);
    LastNamedIs(Names(w, files), key);
    if last.Some? {
      var pre := WriteHeader(VERSION, Gnrl, |files| % U32, NameTableOffset(w, opts, files)) + Records(w, opts, files, |files|);
      ImageParts(w, opts, files);
      BlobReadsBackIff(w, opts, pre, Raws(files), NameTable(Names(w, files)), last.value);
    }
  }

  /** The blobs lie in order between the records and the name table and never overlap; no
      gap follows one exactly when its compressed size fits its field. */
  lemma BlobsTile(w: World, opts: Options, files: seq<SourceFile>, entries: seq<Entry>, i: nat)
    requires Lawful(w) && Accepted(w, opts, files) && i < |files|
    requires Open(w, Image(w, opts, files)) == Ok(entries)
    ensures |entries| == |files| && (i == 0 ==> entries[i].blob.offset == DataStart(files))
    ensures var end := entries[i].blob.offset + entries[i].blob.StoredLen();
      var next := if i + 1 < |files| then entries[i + 1].blob.offset else NameTableOffset(w, opts, files);
      end <= next && (end == next <==> PackedFits(w, opts, files[i].raw))
  {
    hide Open, Image, StoredAll, Lawful;
    WrittenOpens(w, opts, files);
    BlobsTouch(w, opts, DataStart(files), Raws(files), i);
    NothingStored(w, opts);
    assert Raws(files)[..0] == [];
  }

  /** The head of an archive, byte by byte: the magic, version 1, the kind, how many files
      there are, and where the names begin. */
  lemma ImageHead(w: World, opts: Options, files: seq<SourceFile>)
    requires Accepted(w, opts, files)
    ensures var data := Image(w, opts, files);
      && |data| >= 24 && data[..12] == [0x42, 0x54, 0x44, 0x58, 1, 0, 0, 0, 0x47, 0x4E, 0x52, 0x4C]
      && Word4(data[12], data[13], data[14], data[15]) == |files|
      && Word8(data[16], data[17], data[18], data[19], data[20], data[21], data[22], data[23])
           == 24 + 36 * |files| + |StoredAll(w, opts, Raws(files))|
  {
    hide LE, FromLE, Pow256, Records, StoredAll, NameTable, Word4, Word8;
    var data := Image(w, opts, files);
    ImageParts(w, opts, files);
    var rest := Records(w, opts, files, |files|) + StoredAll(w, opts, Raws(files)) + NameTable(Names(w, files));
    HeaderFields(VERSION, Gnrl, |files| % U32, NameTableOffset(w, opts, files), rest);
    HeaderRoundTrip(VERSION, Gnrl, |files| % U32, NameTableOffset(w, opts, files), rest);
    HeaderBytes(data);
    hide WriteHeader, ReadHeader, Image;
    VersionBytes();
    assert data[..12] == data[0..4] + data[4..8] + data[8..12];
  }

  /** At the place its record gives, the archive holds a file compressed if that is worth
      it, and else as it is; the record says which. */
  lemma ImageHolds(w: World, opts: Options, files: seq<SourceFile>, entries: seq<Entry>, i: nat)
    requires Lawful(w) && Accepted(w, opts, files) && i < |files|
    requires Open(w, Image(w, opts, files)) == Ok(entries)
    ensures |entries| == |files|
    ensures var data, raw, b := Image(w, opts, files), files[i].raw, entries[i].blob;
      var stored := if WorthIt(w, opts, raw) then w.deflate(raw) else raw;
      && b.offset + |stored| <= |data| && data[b.offset..b.offset + |stored|] == stored
      && b.packedSize == (if WorthIt(w, opts, raw) then |stored| % 0x1_0000_0000 else 0) && b.unpackedSize == |raw|
  {
    hide Open, WorthIt, Stored, Image, RefAt, Lawful;
    WrittenOpens(w, opts, files);
    HowStored(w, opts, DataStart(files), Raws(files), i);
    StoredInImage(w, opts, files, i);
  }

  lemma StoredInImage(w: World, opts: Options, files: seq<SourceFile>, i: nat)
    requires i < |files|
    ensures var data, s := Image(w, opts, files), Stored(w, opts, files[i].raw);
      var at := RefAt(w, opts, DataStart(files), Raws(files), i).offset;
      at + |s| <= |data| && data[at..at + |s|] == s
  {
    hide Records, NameTable, StoredAll, Stored, WriteHeader, Image;
    ImageParts(w, opts, files);
    var pre := WriteHeader(VERSION, Gnrl, |files| % U32, NameTableOffset(w, opts, files)) + Records(w, opts, files, |files|);
    StoredAt(w, opts, pre, Raws(files), NameTable(Names(w, files)), i);
  }
}
