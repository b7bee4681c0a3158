/** Texture archives: the writer that splits DDS files into chunks, and opening and
    reading what it wrote. */
module Ba2Textures {
  import opened Wrappers
  import opened Bytes
  import opened Ba2Format
  import opened Ba2Blobs
  import opened TextureChunks
  import Dds

  /** A file ready to pack: its normalised name, shape and mip chunks. */
  datatype Texture = Texture(name: Blob, desc: TextureDesc, chunks: seq<Blob>)

  datatype TextureInfo = TextureInfo(desc: TextureDesc, tileMode: nat, chunks: seq<TexChunk>)

  datatype Entry = Entry(name: Blob, path: PathHash, info: TextureInfo)

  datatype Archive = Archive(data: Blob, entries: seq<Entry>, byName: map<Blob, nat>)

  // ------------------------------------------------------------------ what is written

  /** The texture a file holds. */
  function Prepare(w: World, file: SourceFile): Result<Texture, WriteError> {
    var name := w.normalize(file.path);
    if |name| >= U16 then Err(PathTooLong)
    else
      var meta := Dds.ParseHeader(file.raw);
      if meta.Err? then Err(NotATexture)
      else
        Dds.ParsedIsSupported(file.raw);
        var chunks := ChunksOf(meta.value.desc, file.raw[meta.value.headerLen..]);
        if chunks.None? then Err(Overrun) else Ok(Texture(name, meta.value.desc, chunks.value))
  }

  /** A texture as `Prepare` makes them. */
  ghost predicate Prepared(w: World, t: Texture) {
    && |t.name| < U16 && w.normalize(t.name) == t.name
    && FitsDesc(t.desc) && Dds.SynthHeader(t.desc).Some? && t.desc.mipCount > 0
    && |t.chunks| == ChunkCount(t.desc)
  }

  ghost predicate AllPrepared(w: World, ts: seq<Texture>) {
    forall i | 0 <= i < |ts| :: Prepared(w, ts[i])
  }

  /** All chunks of all textures, in order. */
  function Pieces(ts: seq<Texture>): seq<Blob> {
    if |ts| == 0 then [] else Pieces(ts[..|ts| - 1]) + ts[|ts| - 1].chunks
  }

  /** The index of the first chunk of texture `k`. */
  function FirstPiece(ts: seq<Texture>, k: nat): nat
    requires k <= |ts|
  {
    |Pieces(ts[..k])|
  }

  lemma {:induction false} PiecesOfTexture(ts: seq<Texture>, k: nat)
    requires k < |ts|
    ensures FirstPiece(ts, k) + |ts[k].chunks| <= |Pieces(ts)|
    ensures Pieces(ts)[FirstPiece(ts, k)..FirstPiece(ts, k) + |ts[k].chunks|] == ts[k].chunks
    ensures Pieces(ts[..k + 1]) == Pieces(ts[..k]) + ts[k].chunks
    ensures Pieces(ts[..k]) + ts[k].chunks <= Pieces(ts)
    decreases |ts|
  {
    var n := |ts| - 1;
    assert ts[..k + 1][..k] == ts[..k];
    if k < n {
      PiecesOfTexture(ts[..n], k);
      assert ts[..n][..k] == ts[..k];
    } else {
      assert ts[..k + 1] == ts;
    }
  }

  function DataStart(ts: seq<Texture>): nat {
    HEADER_SIZE + TEX_RECORD_SIZE * |ts| + TEX_CHUNK_SIZE * |Pieces(ts)|
  }

  function TexRecordOf(w: World, t: Texture): TexRecord {
    TexRecord(w.hash(t.name), |t.chunks|, t.desc, TEX_TILE_MODE_LINEAR)
  }

  function ChunkAt(w: World, opts: Options, ts: seq<Texture>, start: nat, k: nat, c: nat): TexChunk
    requires k < |ts| && c < |ts[k].chunks|
  {
    PiecesOfTexture(ts, k);
    TexChunk(RefAt(w, opts, start, Pieces(ts), FirstPiece(ts, k) + c), MipFirst(c), MipLast(ts[k].desc, c))
  }

  /** The first `m` chunk records of texture `k`. */
  function ChunkRecords(w: World, opts: Options, ts: seq<Texture>, start: nat, k: nat, m: nat): Blob
    requires k < |ts| && m <= |ts[k].chunks|
  {
    if m == 0 then []
    else ChunkRecords(w, opts, ts, start, k, m - 1) + WriteTexChunk(ChunkAt(w, opts, ts, start, k, m - 1))
  }

  function EntryRecords(w: World, opts: Options, ts: seq<Texture>, start: nat, k: nat): Blob
    requires k < |ts|
  {
    WriteTexRecord(TexRecordOf(w, ts[k])) + ChunkRecords(w, opts, ts, start, k, |ts[k].chunks|)
  }

  /** The records of the first `k` textures. */
  function Records(w: World, opts: Options, ts: seq<Texture>, start: nat, k: nat): Blob
    requires k <= |ts|
  {
    if k == 0 then [] else Records(w, opts, ts, start, k - 1) + EntryRecords(w, opts, ts, start, k - 1)
  }

  function TextureNames(ts: seq<Texture>): (names: seq<Blob>)
    ensures |names| == |ts|
  {
    seq(|ts|, i requires 0 <= i < |ts| => ts[i].name)
  }

  function NameTableOffset(w: World, opts: Options, ts: seq<Texture>): nat {
    DataStart(ts) + |StoredAll(w, opts, Pieces(ts))|
  }

  /** The whole archive. */
  function Image(w: World, opts: Options, ts: seq<Texture>): Blob {
    WriteHeader(VERSION, Dx10, |ts| % U32, NameTableOffset(w, opts, ts))
    + Records(w, opts, ts, DataStart(ts), |ts|) + StoredAll(w, opts, Pieces(ts)) + NameTable(TextureNames(ts))
  }

  // --------------------------------------------------------------------------- writing

  /** What pass one remembers of a chunk: where its blob lies in the temporary run. */
  datatype ChunkMeta = ChunkMeta(blobOffset: nat, packedSize: nat, unpackedSize: nat, mipFirst: nat, mipLast: nat)

  ghost function MetaOf(w: World, opts: Options, before: seq<Blob>, desc: TextureDesc, chunks: seq<Blob>, c: nat): ChunkMeta
    requires c < |chunks|
  {
    ChunkMeta(|StoredAll(w, opts, before + chunks[..c])|, PackedSize(w, opts, chunks[c]), |chunks[c]| % U32,
              MipFirst(c), MipLast(desc, c))
  }

  lemma StoredOneMore(w: World, opts: Options, pieces: seq<Blob>, piece: Blob)
    ensures StoredAll(w, opts, pieces + [piece]) == StoredAll(w, opts, pieces) + Stored(w, opts, piece)
  {
    hide Stored;
    assert (pieces + [piece])[..|pieces|] == pieces;
  }

  lemma {:induction false} StoredGrows(w: World, opts: Options, a: seq<Blob>, b: seq<Blob>)
    ensures |StoredAll(w, opts, a)| <= |StoredAll(w, opts, a + b)|
    decreases |b|
  {
    hide Stored;
    var n := |b| - 1;
    if n < 0 {
      assert a + b == a;
    } else {
      assert a + b == (a + b[..n]) + [b[n]];
      StoredOneMore(w, opts, a + b[..n], b[n]);
      StoredGrows(w, opts, a, b[..n]);
    }
  }

  /** Splits one texture and compresses its chunks onto the temporary run. */
  method PackTexture(w: World, opts: Options, desc: TextureDesc, mipData: Blob, temp: Blob, ghost before: seq<Blob>)
    returns (out: Result<(Blob, seq<ChunkMeta>), WriteError>)
    requires temp == StoredAll(w, opts, before) && |temp| < U64
    ensures out.Ok? <==>
      ChunksOf(desc, mipData).Some? && |StoredAll(w, opts, before + ChunksOf(desc, mipData).value)| < U64
    ensures out.Ok? ==>
      var chunks := ChunksOf(desc, mipData).value;
      && out.value.0 == StoredAll(w, opts, before + chunks)
      && MetasMatch(w, opts, before, desc, chunks, out.value.1)
  {
    hide Stored, StoredAll, PackedSize, ChunkLen, MetasMatch, ChunksFrom, Joined;
    ChunkCountLaw(desc);
    var chunkCount := Dx10ChunkCount(desc);
    var cursor: Blob, metas: seq<ChunkMeta>, mipOffset: nat := temp, [], 0;
    ghost var done: seq<Blob> := [];
    ghost var all := ChunksOf(desc, mipData);
    assert before + done == before;
    NoMetas(w, opts, before, desc);
    ChunksBegin(desc, mipData);
    for i := 0 to chunkCount
      invariant mipOffset <= |mipData|
      invariant cursor == StoredAll(w, opts, before + done) && |cursor| < U64
      invariant |done| == i
      invariant all == Joined(done, ChunksFrom(desc, mipData, mipOffset, i, chunkCount))
      invariant MetasMatch(w, opts, before, desc, done, metas)
    {
      var isLast := i == chunkCount - 1;
      var len := ChunkLen(desc, mipData, mipOffset, i, chunkCount);
      ChunksStep(desc, mipData, mipOffset, i, chunkCount, done);
      if len.None? {
        return Err(Overrun);
      }
      var chunk := mipData[mipOffset..mipOffset + len.value];
      var blob, packed := Stored(w, opts, chunk), PackedSize(w, opts, chunk);
      StoredOneMore(w, opts, before + done, chunk);
      assert before + (done + [chunk]) == before + done + [chunk];
      if |cursor| + |blob| >= U64 {
        TooLong(w, opts, before, done, chunk, ChunksFrom(desc, mipData, mipOffset + len.value, i + 1, chunkCount));
        return Err(Overflow);
      }
      var mipLast := if isLast then (if desc.mipCount == 0 then 0 else desc.mipCount - 1) else i;
      MetasGrow(w, opts, before, desc, done, chunk, metas);
      metas := metas + [ChunkMeta(|cursor|, packed, len.value % U32, i, mipLast)];
      cursor := cursor + blob;
      mipOffset := mipOffset + len.value;
      done := done + [chunk];
    }
    ChunksEnd(desc, mipData, mipOffset, chunkCount, done);
    out := Ok((cursor, metas));
  }

  ghost function Joined(done: seq<Blob>, rest: Option<seq<Blob>>): Option<seq<Blob>> {
    if rest.None? then None else Some(done + rest.value)
  }

  lemma ChunksBegin(desc: TextureDesc, mipData: Blob)
    ensures ChunksOf(desc, mipData) == (ChunkCountLaw(desc); Joined([], ChunksFrom(desc, mipData, 0, 0, ChunkCount(desc))))
  {
    hide ChunksFrom;
    assert ChunksOf(desc, mipData).Some? ==> [] + ChunksOf(desc, mipData).value == ChunksOf(desc, mipData).value;
  }

  lemma ChunksEnd(desc: TextureDesc, mipData: Blob, offset: nat, count: nat, done: seq<Blob>)
    requires offset <= |mipData|
    ensures Joined(done, ChunksFrom(desc, mipData, offset, count, count)) == Some(done)
  {
    assert done + [] == done;
  }

  lemma ChunksStep(desc: TextureDesc, mipData: Blob, offset: nat, i: nat, count: nat, done: seq<Blob>)
    requires i < count && offset <= |mipData|
    ensures var len := ChunkLen(desc, mipData, offset, i, count);
      Joined(done, ChunksFrom(desc, mipData, offset, i, count)) ==
        if len.None? then None
        else Joined(done + [mipData[offset..offset + len.value]], ChunksFrom(desc, mipData, offset + len.value, i + 1, count))
  {
    hide ChunkLen;
    var len := ChunkLen(desc, mipData, offset, i, count);
    if len.Some? {
      var chunk := mipData[offset..offset + len.value];
      var rest := ChunksFrom(desc, mipData, offset + len.value, i + 1, count);
      assert rest.Some? ==> done + ([chunk] + rest.value) == (done + [chunk]) + rest.value;
    }
  }

  ghost predicate MetasMatch(w: World, opts: Options, before: seq<Blob>, desc: TextureDesc, chunks: seq<Blob>, metas: seq<ChunkMeta>) {
    |metas| == |chunks| && forall c | 0 <= c < |chunks| :: metas[c] == MetaOf(w, opts, before, desc, chunks, c)
  }

  lemma NoMetas(w: World, opts: Options, before: seq<Blob>, desc: TextureDesc)
    ensures MetasMatch(w, opts, before, desc, [], [])
  {}

  lemma MetasGrow(w: World, opts: Options, before: seq<Blob>, desc: TextureDesc, done: seq<Blob>, chunk: Blob, metas: seq<ChunkMeta>)
    requires MetasMatch(w, opts, before, desc, done, metas)
    ensures var m := ChunkMeta(|StoredAll(w, opts, before + done)|, PackedSize(w, opts, chunk), |chunk| % U32,
                               MipFirst(|done|), MipLast(desc, |done|));
      MetasMatch(w, opts, before, desc, done + [chunk], metas + [m])
  {
    hide StoredAll, PackedSize, MipLast;
    assert (done + [chunk])[..|done|] == done;
    forall c | 0 <= c < |done| ensures (done + [chunk])[..c] == done[..c] {}
  }

  lemma TooLong(w: World, opts: Options, before: seq<Blob>, done: seq<Blob>, chunk: Blob, rest: Option<seq<Blob>>)
    requires |StoredAll(w, opts, before + done + [chunk])| >= U64
    ensures var all := Joined(done + [chunk], rest); all.Some? ==> |StoredAll(w, opts, before + all.value)| >= U64
  {
    hide StoredAll;
    if rest.Some? {
      StoredGrows(w, opts, before + done + [chunk], rest.value);
      assert before + ((done + [chunk]) + rest.value) == before + done + [chunk] + rest.value;
    }
  }

  /** What `Prepare` makes of a file it accepts. */
  function TextureOf(w: World, file: SourceFile): Texture {
    var prepared := Prepare(w, file);
    if prepared.Ok? then prepared.value else Texture([], TextureDesc(0, 0, 0, 0, false), [])
  }

  function TexturesOf(w: World, files: seq<SourceFile>): (ts: seq<Texture>)
    ensures |ts| == |files|
  {
    seq(|files|, i requires 0 <= i < |files| => TextureOf(w, files[i]))
  }

  ghost predicate Accepted(w: World, opts: Options, files: seq<SourceFile>) {
    && |files| < U32 && NameTableOffset(w, opts, TexturesOf(w, files)) < U64
    && forall i | 0 <= i < |files| :: Prepare(w, files[i]).Ok?
  }

  /** What pass one remembers of a texture. */
  datatype TexMeta = TexMeta(name: Blob, desc: TextureDesc, path: PathHash, chunks: seq<ChunkMeta>)

  ghost predicate TexMetaMatches(w: World, opts: Options, ts: seq<Texture>, k: nat, m: TexMeta) {
    && k < |ts| && m.name == ts[k].name && m.desc == ts[k].desc && m.path == w.hash(ts[k].name)
    && MetasMatch(w, opts, Pieces(ts[..k]), ts[k].desc, ts[k].chunks, m.chunks)
  }

  /** One file of pass one: checked, parsed, split and compressed onto the run. */
  method PackFile(w: World, opts: Options, files: seq<SourceFile>, i: nat, temp: Blob) returns (out: Result<(Blob, TexMeta), WriteError>)
    requires i < |files| && temp == StoredAll(w, opts, Pieces(TexturesOf(w, files)[..i])) && |temp| < U64
    ensures out.Ok? ==> Prepare(w, files[i]).Ok? && TexMetaMatches(w, opts, TexturesOf(w, files), i, out.value.1)
    ensures out.Ok? ==> out.value.0 == StoredAll(w, opts, Pieces(TexturesOf(w, files)[..i + 1])) && |out.value.0| < U64
    ensures out.Err? ==>
      Prepare(w, files[i]).Err? || |StoredAll(w, opts, Pieces(TexturesOf(w, files)))| >= U64
  {
    hide StoredAll, MetasMatch, ChunksOf, Dds.ParseHeader, Pieces;
    ghost var ts := TexturesOf(w, files);
    var name := w.normalize(files[i].path);
    if |name| >= U16 {
      return Err(PathTooLong);
    }
    var parsed := Dds.ParseHeader(files[i].raw);
    if parsed.Err? {
      return Err(NotATexture);
    }
    Dds.ParsedIsSupported(files[i].raw);
    var desc, mipData := parsed.value.desc, files[i].raw[parsed.value.headerLen..];
    PiecesOfTexture(ts, i);
    var packed := PackTexture(w, opts, desc, mipData, temp, Pieces(ts[..i]));
    if packed.Err? {
      NoRoom(w, opts, ts, i);
      return Err(packed.error);
    }
    out := Ok((packed.value.0, TexMeta(name, desc, w.hash(name), packed.value.1)));
  }

  method FirstPass(w: World, opts: Options, files: seq<SourceFile>) returns (out: Result<(Blob, seq<TexMeta>), WriteError>)
    ensures out.Ok? ==> out.value.0 == StoredAll(w, opts, Pieces(TexturesOf(w, files)))
    ensures out.Ok? ==>
      |out.value.1| == |files| && forall k | 0 <= k < |files| :: TexMetaMatches(w, opts, TexturesOf(w, files), k, out.value.1[k])
    ensures out.Ok? ==> forall k | 0 <= k < |files| :: Prepare(w, files[k]).Ok?
    ensures out.Err? ==> !Accepted(w, opts, files)
  {
    hide StoredAll, TexMetaMatches, Prepare, TexturesOf, Pieces;
    var temp: Blob, metas: seq<TexMeta> := [], [];
    ghost var ts := TexturesOf(w, files);
    NothingStored(w, opts);
    NoPieces();
    assert ts[..0] == [];
    for i := 0 to |files|
      invariant temp == StoredAll(w, opts, Pieces(ts[..i])) && |temp| < U64
      invariant |metas| == i && forall k | 0 <= k < i :: TexMetaMatches(w, opts, ts, k, metas[k])
      invariant forall k | 0 <= k < i :: Prepare(w, files[k]).Ok?
    {
      var packed := PackFile(w, opts, files, i, temp);
      if packed.Err? {
        return Err(packed.error);
      }
      metas := metas + [packed.value.1];
      temp := packed.value.0;
    }
    WholeList(w, files);
    out := Ok((temp, metas));
  }

  lemma WholeList(w: World, files: seq<SourceFile>)
    ensures TexturesOf(w, files)[..|files|] == TexturesOf(w, files)
  {}

  lemma NoPieces()
    ensures Pieces([]) == []
  {}

  /** The blobs up to a texture are no more than all of them. */
  lemma NoRoom(w: World, opts: Options, ts: seq<Texture>, i: nat)
    requires i < |ts|
    ensures |StoredAll(w, opts, Pieces(ts[..i]) + ts[i].chunks)| <= |StoredAll(w, opts, Pieces(ts))|
  {
    hide StoredAll, Pieces;
    PiecesOfTexture(ts, i);
    var a, all := Pieces(ts[..i]) + ts[i].chunks, Pieces(ts);
    assert all == a + all[|a|..];
    StoredGrows(w, opts, a, all[|a|..]);
  }

  method WriteDx10(w: World, opts: Options, files: seq<SourceFile>) returns (out: Result<Blob, WriteError>)
    ensures out.Ok? <==> Accepted(w, opts, files)
    ensures out.Ok? ==> out.value == Image(w, opts, TexturesOf(w, files))
  {
    hide StoredAll, TexMetaMatches, Prepare, Records, NameTable, WriteHeader, Pieces;
    if |files| >= U32 {
      return Err(TooManyFiles);
    }
    var pass := FirstPass(w, opts, files);
    if pass.Err? {
      return Err(pass.error);
    }
    var (temp, metas) := pass.value;
    ghost var ts := TexturesOf(w, files);
    var totalChunks := CountChunks(w, opts, ts, metas);
    var dataStart := HEADER_SIZE + TEX_RECORD_SIZE * |files| + TEX_CHUNK_SIZE * totalChunks;
    if dataStart + |temp| >= U64 {
      return Err(Overflow);
    }
    var header := WriteHeader(VERSION, Dx10, |files|, dataStart + |temp|);
    var records := PutRecords(w, opts, ts, dataStart, metas);
    var table := PutNames(w, opts, ts, metas);
    assert |files| % U32 == |files|;
    out := Ok(header + records + temp + table);
  }

  method CountChunks(w: World, opts: Options, ghost ts: seq<Texture>, metas: seq<TexMeta>) returns (total: nat)
    requires |metas| == |ts| && forall k | 0 <= k < |ts| :: TexMetaMatches(w, opts, ts, k, metas[k])
    ensures total == |Pieces(ts)|
  {
    total := 0;
    assert ts[..0] == [];
    for k := 0 to |metas|
      invariant total == |Pieces(ts[..k])|
    {
      PiecesOfTexture(ts, k);
      total := total + |metas[k].chunks|;
    }
    assert ts[..|ts|] == ts;
  }

  method PutNames(w: World, opts: Options, ghost ts: seq<Texture>, metas: seq<TexMeta>) returns (table: Blob)
    requires |metas| == |ts| && forall k | 0 <= k < |ts| :: TexMetaMatches(w, opts, ts, k, metas[k])
    ensures table == NameTable(TextureNames(ts))
  {
    var names := seq(|metas|, i requires 0 <= i < |metas| => metas[i].name);
    table := WriteNameTable(names);
    assert names == TextureNames(ts);
  }

  method PutRecords(w: World, opts: Options, ghost ts: seq<Texture>, dataStart: nat, metas: seq<TexMeta>) returns (records: Blob)
    requires |metas| == |ts| && forall k | 0 <= k < |ts| :: TexMetaMatches(w, opts, ts, k, metas[k])
    ensures records == Records(w, opts, ts, dataStart, |ts|)
  {
    hide WriteTexRecord, ChunkRecords;
    records := [];
    for k := 0 to |metas|
      invariant records == Records(w, opts, ts, dataStart, k)
    {
      var m := metas[k];
      assert TexMetaMatches(w, opts, ts, k, m);
      var record := WriteTexRecord(TexRecord(m.path, |m.chunks|, m.desc, TEX_TILE_MODE_LINEAR));
      var chunks := PutChunks(w, opts, ts, dataStart, k, m.chunks);
      records := records + (record + chunks);
    }
  }

  method PutChunks(w: World, opts: Options, ghost ts: seq<Texture>, dataStart: nat, ghost k: nat, metas: seq<ChunkMeta>)
    returns (records: Blob)
    requires k < |ts| && MetasMatch(w, opts, Pieces(ts[..k]), ts[k].desc, ts[k].chunks, metas)
    ensures records == ChunkRecords(w, opts, ts, dataStart, k, |ts[k].chunks|)
  {
    hide WriteTexChunk, ChunkAt, MetaOf;
    records := [];
    for c := 0 to |metas|
      invariant records == ChunkRecords(w, opts, ts, dataStart, k, c)
    {
      var m := metas[c];
      ChunkFromMeta(w, opts, ts, dataStart, k, c);
      records := records
        + WriteTexChunk(TexChunk(BlobRef(dataStart + m.blobOffset, m.packedSize, m.unpackedSize), m.mipFirst, m.mipLast));
    }
  }

  lemma ChunkFromMeta(w: World, opts: Options, ts: seq<Texture>, start: nat, k: nat, c: nat)
    requires k < |ts| && c < |ts[k].chunks|
    ensures var m := MetaOf(w, opts, Pieces(ts[..k]), ts[k].desc, ts[k].chunks, c);
      ChunkAt(w, opts, ts, start, k, c)
      == TexChunk(BlobRef(start + m.blobOffset, m.packedSize, m.unpackedSize), m.mipFirst, m.mipLast)
  {
    hide StoredAll, PackedSize, MipLast, Pieces;
    PiecesOfTexture(ts, k);
    PieceIndex(ts, k, c);
  }

  lemma PieceIndex(ts: seq<Texture>, k: nat, c: nat)
    requires k < |ts| && c < |ts[k].chunks|
    ensures FirstPiece(ts, k) + c < |Pieces(ts)|
    ensures Pieces(ts)[FirstPiece(ts, k) + c] == ts[k].chunks[c]
    ensures Pieces(ts)[..FirstPiece(ts, k) + c] == Pieces(ts[..k]) + ts[k].chunks[..c]
  {
    hide Pieces;
    PiecesOfTexture(ts, k);
    var p, f, cs := Pieces(ts), FirstPiece(ts, k), ts[k].chunks;
    assert p[f..f + |cs|][c] == p[f + c];
    assert p[..f + |cs|] == Pieces(ts[..k]) + cs;
    assert p[..f + c] == p[..f + |cs|][..f + c];
  }

  // --------------------------------------------------------------------------- opening

  /** `count` chunk records from `pos`. */
  function ChunksAt(data: Blob, pos: nat, count: nat): Option<seq<TexChunk>>
    decreases count
  {
    if count == 0 then Some([])
    else if pos + TEX_CHUNK_SIZE > |data| then None
    else
      var rest := ChunksAt(data, pos + TEX_CHUNK_SIZE, count - 1);
      if rest.None? then None else Some([ReadTexChunk(data, pos)] + rest.value)
  }

  datatype RawTexture = RawTexture(record: TexRecord, chunks: seq<TexChunk>)

  /** `count` texture records with their chunks from `pos`, and where they end. */
  function TexturesAt(data: Blob, pos: nat, count: nat): Option<(seq<RawTexture>, nat)>
    decreases count
  {
    if count == 0 then Some(([], pos))
    else if pos + TEX_RECORD_SIZE > |data| then None
    else
      var record := ReadTexRecord(data, pos);
      if record.Err? then None
      else
        var chunks := ChunksAt(data, pos + TEX_RECORD_SIZE, record.value.chunkCount);
        if chunks.None? then None
        else
          var rest := TexturesAt(data, pos + TEX_RECORD_SIZE + TEX_CHUNK_SIZE * record.value.chunkCount, count - 1);
          if rest.None? then None else Some(([RawTexture(record.value, chunks.value)] + rest.value.0, rest.value.1))
  }

  method ParseChunks(data: Blob, start: nat, count: nat) returns (chunks: Option<seq<TexChunk>>)
    ensures chunks == ChunksAt(data, start, count)
  {
    var pos: nat, found: seq<TexChunk> := start, [];
    assert ChunksAt(data, start, count).Some? ==> [] + ChunksAt(data, start, count).value == ChunksAt(data, start, count).value;
    for c := 0 to count
      invariant ChunksAt(data, start, count)
             == (var rest := ChunksAt(data, pos, count - c); if rest.None? then None else Some(found + rest.value))
    {
      if pos + TEX_CHUNK_SIZE > |data| {
        return None;
      }
      var chunk := ReadTexChunk(data, pos);
      ghost var rest := ChunksAt(data, pos + TEX_CHUNK_SIZE, count - c - 1);
      assert rest.Some? ==> found + ([chunk] + rest.value) == found + [chunk] + rest.value;
      found := found + [chunk];
      pos := pos + TEX_CHUNK_SIZE;
    }
    assert found + [] == found;
    chunks := Some(found);
  }

  ghost function After(found: seq<RawTexture>, rest: Option<(seq<RawTexture>, nat)>): Option<(seq<RawTexture>, nat)> {
    if rest.None? then None else Some((found + rest.value.0, rest.value.1))
  }

  lemma TexturesStep(data: Blob, pos: nat, count: nat, found: seq<RawTexture>)
    requires count > 0
    ensures pos + TEX_RECORD_SIZE > |data| ==> TexturesAt(data, pos, count) == None
    ensures pos + TEX_RECORD_SIZE <= |data| && ReadTexRecord(data, pos).Err? ==> TexturesAt(data, pos, count) == None
    ensures pos + TEX_RECORD_SIZE <= |data| && ReadTexRecord(data, pos).Ok? ==>
      var record := ReadTexRecord(data, pos).value;
      var chunks := ChunksAt(data, pos + TEX_RECORD_SIZE, record.chunkCount);
      After(found, TexturesAt(data, pos, count)) ==
        if chunks.None? then None
        else After(found + [RawTexture(record, chunks.value)],
                   TexturesAt(data, pos + TEX_RECORD_SIZE + TEX_CHUNK_SIZE * record.chunkCount, count - 1))
  {
    hide ReadTexRecord, ChunksAt;
    if pos + TEX_RECORD_SIZE <= |data| && ReadTexRecord(data, pos).Ok? {
      var record := ReadTexRecord(data, pos).value;
      var chunks := ChunksAt(data, pos + TEX_RECORD_SIZE, record.chunkCount);
      var rest := TexturesAt(data, pos + TEX_RECORD_SIZE + TEX_CHUNK_SIZE * record.chunkCount, count - 1);
      if chunks.Some? && rest.Some? {
        var texture := RawTexture(record, chunks.value);
        assert found + ([texture] + rest.value.0) == (found + [texture]) + rest.value.0;
      }
    }
  }

  lemma TexturesBegin(data: Blob, pos: nat, count: nat)
    ensures After([], TexturesAt(data, pos, count)) == TexturesAt(data, pos, count)
  {
    hide TexturesAt;
    var all := TexturesAt(data, pos, count);
    assert all.Some? ==> [] + all.value.0 == all.value.0;
  }

  lemma TexturesEnd(data: Blob, pos: nat, found: seq<RawTexture>)
    ensures After(found, TexturesAt(data, pos, 0)) == Some((found, pos))
  {
    assert found + [] == found;
  }

  method ParseTextures(data: Blob, start: nat, count: nat) returns (raw: Option<(seq<RawTexture>, nat)>)
    ensures raw == TexturesAt(data, start, count)
  {
    hide ReadTexRecord, TexturesAt, After, ChunksAt;
    var pos: nat, found: seq<RawTexture> := start, [];
    TexturesBegin(data, start, count);
    for i := 0 to count
      invariant TexturesAt(data, start, count) == After(found, TexturesAt(data, pos, count - i))
    {
      TexturesStep(data, pos, count - i, found);
      if pos + TEX_RECORD_SIZE > |data| {
        NothingAfter(found);
        return None;
      }
      var record := ReadTexRecord(data, pos);
      if record.Err? {
        NothingAfter(found);
        return None;
      }
      var chunks := ParseChunks(data, pos + TEX_RECORD_SIZE, record.value.chunkCount);
      if chunks.None? {
        return None;
      }
      found := found + [RawTexture(record.value, chunks.value)];
      pos := pos + TEX_RECORD_SIZE + TEX_CHUNK_SIZE * record.value.chunkCount;
    }
    TexturesEnd(data, pos, found);
    raw := Some((found, pos));
  }

  lemma NothingAfter(found: seq<RawTexture>)
    ensures After(found, None) == None
  {}

  function EntriesOf(raw: seq<RawTexture>, names: seq<Blob>): (entries: seq<Entry>)
    requires |raw| == |names|
    ensures |entries| == |raw|
  {
    seq(|raw|, i requires 0 <= i < |raw| =>
      var r := raw[i].record;
      Entry(names[i], r.path, TextureInfo(r.desc, r.tileMode, raw[i].chunks)))
  }

  lemma {:induction false} TexturesCount(data: Blob, pos: nat, count: nat)
    ensures TexturesAt(data, pos, count).Some? ==> |TexturesAt(data, pos, count).value.0| == count
    decreases count
  {
    hide ReadTexRecord, ChunksAt;
    if count > 0 && pos + TEX_RECORD_SIZE <= |data| {
      var record := ReadTexRecord(data, pos);
      if record.Ok? {
        TexturesCount(data, pos + TEX_RECORD_SIZE + TEX_CHUNK_SIZE * record.value.chunkCount, count - 1);
      }
    }
  }

  function Open(w: World, data: Blob): Result<seq<Entry>, FormatError> {
    var header := ReadHeader(data);
    if header.Err? then Err(header.error)
    else
      var h := header.value;
      if h.version != VERSION then Err(BadVersion)
      else if KindOf(h.archiveType) != Ok(Dx10) then Err(BadKind)
      else if h.nameTableOffset > |data| then Err(Truncated)
      else
        var raw := TexturesAt(data, HEADER_SIZE, h.fileCount);
        if raw.None? || raw.value.1 > h.nameTableOffset then Err(Truncated)
        else
          var names := NamesFrom(w, data, h.nameTableOffset, h.fileCount);
          if names.None? then Err(Truncated)
          else
            NamesCount(w, data, h.nameTableOffset, h.fileCount);
            TexturesCount(data, HEADER_SIZE, h.fileCount);
            Ok(EntriesOf(raw.value.0, names.value))
  }

  /** Which data opens: the magic, version 1, the kind, all texture records with their
      chunks before the place of the names, which lies inside, and a complete name table. */
  lemma OpensIff(w: World, data: Blob)
    ensures Open(w, data).Ok? <==>
      && |data| >= 24 && data[..4] == [0x42, 0x54, 0x44, 0x58] && Word4(data[4], data[5], data[6], data[7]) == 1
      && data[8..12] == [0x44, 0x58, 0x31, 0x30]
      && var count := Word4(data[12], data[13], data[14], data[15]);
         var names := Word8(data[16], data[17], data[18], data[19], data[20], data[21], data[22], data[23]);
         && names <= |data| && TexturesAt(data, 24, count).Some? && TexturesAt(data, 24, count).value.1 <= names
         && NamesFrom(w, data, names, count).Some?
  {
    hide Read, ReadHeader, TexturesAt, NamesFrom, Word4, Word8;
    if |data| >= HEADER_SIZE {
      HeaderBytes(data);
    } else {
      TooSmallToOpen(data);
    }
  }

  lemma TooSmallToOpen(data: Blob)
    requires |data| < HEADER_SIZE
    ensures ReadHeader(data).Err?
  {}

  function EntryNames(entries: seq<Entry>): seq<Blob> {
    seq(|entries|, i requires 0 <= i < |entries| => entries[i].name)
  }

  /** An opened archive: its entries are those of the data, and names lead to the last
      entry that has them. */
  ghost predicate IsOpen(w: World, a: Archive, data: Blob) {
    && a.data == data && Open(w, data) == Ok(a.entries)
    && forall name :: Find(a.byName, name) == LastNamed(EntryNames(a.entries), name)
  }

  /** Walks the records, whose stride varies with their chunks, then the names. */
  method OpenArchive(w: World, data: Blob) returns (archive: Result<Archive, FormatError>)
    ensures archive.Ok? <==> Open(w, data).Ok?
    ensures archive.Err? ==> archive.error == Open(w, data).error
    ensures archive.Ok? ==> IsOpen(w, archive.value, data)
  {
    hide TexturesAt, NamesFrom, LastNamed;
    var header := ReadHeader(data);
    if header.Err? {
      return Err(header.error);
    }
    var h := header.value;
    if h.version != VERSION {
      return Err(BadVersion);
    }
    if KindOf(h.archiveType) != Ok(Dx10) {
      return Err(BadKind);
    }
    if h.nameTableOffset > |data| {
      return Err(Truncated);
    }
    var raw := ParseTextures(data, HEADER_SIZE, h.fileCount);
    if raw.None? || raw.value.1 > h.nameTableOffset {
      return Err(Truncated);
    }
    var names := ParseNames(w, data, h.nameTableOffset, h.fileCount);
    if names.None? {
      return Err(Truncated);
    }
    NamesCount(w, data, h.nameTableOffset, h.fileCount);
    TexturesCount(data, HEADER_SIZE, h.fileCount);
    var entries := EntriesOf(raw.value.0, names.value);
    var byName := IndexNames(names.value);
    assert names.value == EntryNames(entries);
    archive := Ok(Archive(data, entries, byName));
  }

  /** Every chunk decompressed and of its declared size, joined after `done`. */
  function ReadChunks(w: World, data: Blob, chunks: seq<TexChunk>): Option<Blob> {
    if |chunks| == 0 then Some([])
    else
      var n := |chunks| - 1;
      var before := ReadChunks(w, data, chunks[..n]);
      var mip := ReadBlob(w, data, chunks[n].blob);
      if before.None? || mip.None? || |mip.value| != chunks[n].blob.unpackedSize then None
      else Some(before.value + mip.value)
  }

  /** A complete DDS file: a fresh header, then the chunks. */
  method ReadTexture(w: World, data: Blob, info: TextureInfo) returns (out: Option<Blob>)
    ensures out == TextureContent(w, data, info)
  {
    hide ReadBlob, Dds.SynthHeader;
    var header := Dds.SynthHeader(info.desc);
    if header.None? {
      return None;
    }
    var bytes := header.value;
    assert info.chunks[..0] == [];
    assert bytes + [] == bytes;
    for i := 0 to |info.chunks|
      invariant ReadChunks(w, data, info.chunks[..i]).Some?
      invariant bytes == header.value + ReadChunks(w, data, info.chunks[..i]).value
    {
      assert info.chunks[..i + 1][..i] == info.chunks[..i];
      var mip := ReadBlob(w, data, info.chunks[i].blob);
      if mip.None? || |mip.value| != info.chunks[i].blob.unpackedSize {
        ChunksFail(w, data, info.chunks, i + 1);
        return None;
      }
      bytes := bytes + mip.value;
    }
    assert info.chunks[..|info.chunks|] == info.chunks;
    out := Some(bytes);
  }

  lemma {:induction false} ChunksFail(w: World, data: Blob, chunks: seq<TexChunk>, i: nat)
    requires i <= |chunks| && ReadChunks(w, data, chunks[..i]).None?
    ensures ReadChunks(w, data, chunks).None?
    decreases |chunks|
  {
    hide ReadBlob;
    if i == |chunks| {
      assert chunks[..i] == chunks;
    } else {
      var n := |chunks| - 1;
      assert chunks[..n][..i] == chunks[..i];
      ChunksFail(w, data, chunks[..n], i);
    }
  }

  function TextureContent(w: World, data: Blob, info: TextureInfo): Option<Blob> {
    var header := Dds.SynthHeader(info.desc);
    var mips := ReadChunks(w, data, info.chunks);
    if header.None? || mips.None? then None else Some(header.value + mips.value)
  }

  /** The content of the texture the name leads to. */
  function ReadEntry(w: World, a: Archive, name: Blob): Result<Blob, ReadError> {
    var found := Find(a.byName, w.normalize(name));
    if found.None? || found.value >= |a.entries| then Err(NotFound)
    else
      var content := TextureContent(w, a.data, a.entries[found.value].info);
      if content.Some? then Ok(content.value) else Err(Broken)
  }

  // ------------------------------------------------------------ records are read back

  lemma {:induction false} ChunkRecordsLength(w: World, opts: Options, ts: seq<Texture>, start: nat, k: nat, m: nat)
    requires k < |ts| && m <= |ts[k].chunks|
    ensures |ChunkRecords(w, opts, ts, start, k, m)| == TEX_CHUNK_SIZE * m
  {
    hide ChunkAt;
    if m > 0 {
      ChunkRecordsLength(w, opts, ts, start, k, m - 1);
    }
  }

  /** The chunk records of texture `k` from chunk `c` on. */
  function ChunkList(w: World, opts: Options, ts: seq<Texture>, start: nat, k: nat): (list: seq<TexChunk>)
    requires k < |ts|
    ensures |list| == |ts[k].chunks|
  {
    seq(|ts[k].chunks|, c requires 0 <= c < |ts[k].chunks| => ChunkAt(w, opts, ts, start, k, c))
  }

  ghost predicate ChunksFit(w: World, opts: Options, ts: seq<Texture>, start: nat, k: nat) {
    k < |ts| && forall c | 0 <= c < |ts[k].chunks| ::
      var t := ChunkAt(w, opts, ts, start, k, c); FitsBlobRef(t.blob) && t.mipFirst < U16 && t.mipLast < U16
  }

  lemma {:induction false} ChunkRecordsStep(w: World, opts: Options, ts: seq<Texture>, start: nat, k: nat, c: nat, m: nat)
    requires k < |ts| && c < m <= |ts[k].chunks|
    ensures ChunkRecords(w, opts, ts, start, k, c) + WriteTexChunk(ChunkAt(w, opts, ts, start, k, c))
         <= ChunkRecords(w, opts, ts, start, k, m)
    decreases m
  {
    hide ChunkAt, WriteTexChunk;
    if c + 1 < m {
      ChunkRecordsStep(w, opts, ts, start, k, c, m - 1);
    }
  }

  lemma {:induction false} ChunksReadBack(w: World, opts: Options, ts: seq<Texture>, start: nat, k: nat, data: Blob, pre: Blob, c: nat)
    requires ChunksFit(w, opts, ts, start, k) && c <= |ts[k].chunks|
    requires pre + ChunkRecords(w, opts, ts, start, k, |ts[k].chunks|) <= data
    ensures ChunksAt(data, |pre| + TEX_CHUNK_SIZE * c, |ts[k].chunks| - c) == Some(ChunkList(w, opts, ts, start, k)[c..])
    decreases |ts[k].chunks| - c
  {
    hide ChunkAt, WriteTexChunk, ReadTexChunk, ChunkRecords;
    var m, list := |ts[k].chunks|, ChunkList(w, opts, ts, start, k);
    if c < m {
      ChunkRecordsStep(w, opts, ts, start, k, c, m);
      ChunkRecordsLength(w, opts, ts, start, k, c);
      OneChunk(data, pre + ChunkRecords(w, opts, ts, start, k, c), ChunkAt(w, opts, ts, start, k, c));
      ChunksReadBack(w, opts, ts, start, k, data, pre, c + 1);
      assert list[c..] == [list[c]] + list[c + 1..];
    } else {
      assert list[c..] == [];
    }
  }

  lemma OneChunk(data: Blob, pre: Blob, t: TexChunk)
    requires FitsBlobRef(t.blob) && t.mipFirst < U16 && t.mipLast < U16 && pre + WriteTexChunk(t) <= data
    ensures |pre| + TEX_CHUNK_SIZE <= |data| && ReadTexChunk(data, |pre|) == t
  {
    hide WriteTexChunk, ReadTexChunk;
    var post := data[|pre| + TEX_CHUNK_SIZE..];
    assert data == pre + WriteTexChunk(t) + post;
    TexChunkRoundTrip(pre, t, post);
  }

  lemma OneRecord(data: Blob, pre: Blob, r: TexRecord)
    requires FitsPathHash(r.path) && r.chunkCount < 256 && FitsDesc(r.desc) && r.tileMode < 256
    requires pre + WriteTexRecord(r) <= data
    ensures |pre| + TEX_RECORD_SIZE <= |data| && ReadTexRecord(data, |pre|) == Ok(r)
  {
    hide WriteTexRecord, ReadTexRecord;
    var post := data[|pre| + TEX_RECORD_SIZE..];
    assert data == pre + WriteTexRecord(r) + post;
    TexRecordRoundTrip(pre, r, post);
  }

  /** What opening finds of texture `k`. */
  function RawOf(w: World, opts: Options, ts: seq<Texture>, start: nat, k: nat): RawTexture
    requires k < |ts|
  {
    RawTexture(TexRecordOf(w, ts[k]), ChunkList(w, opts, ts, start, k))
  }

  function RawsOf(w: World, opts: Options, ts: seq<Texture>, start: nat): (raws: seq<RawTexture>)
    ensures |raws| == |ts|
  {
    seq(|ts|, k requires 0 <= k < |ts| => RawOf(w, opts, ts, start, k))
  }

  lemma {:induction false} RecordsStep(w: World, opts: Options, ts: seq<Texture>, start: nat, k: nat, m: nat)
    requires k < m <= |ts|
    ensures Records(w, opts, ts, start, k) + EntryRecords(w, opts, ts, start, k) <= Records(w, opts, ts, start, m)
    ensures Records(w, opts, ts, start, k + 1) == Records(w, opts, ts, start, k) + EntryRecords(w, opts, ts, start, k)
    decreases m
  {
    hide EntryRecords;
    if k + 1 < m {
      RecordsStep(w, opts, ts, start, k, m - 1);
    }
  }

  ghost predicate RecordsFit(w: World, opts: Options, ts: seq<Texture>, start: nat) {
    forall k | 0 <= k < |ts| ::
      var r := TexRecordOf(w, ts[k]);
      FitsPathHash(r.path) && r.chunkCount < 256 && FitsDesc(r.desc) && ChunksFit(w, opts, ts, start, k)
  }

  lemma {:induction false} TexturesReadBack(w: World, opts: Options, ts: seq<Texture>, start: nat, data: Blob, pre: Blob, k: nat)
    requires RecordsFit(w, opts, ts, start) && k <= |ts|
    requires pre + Records(w, opts, ts, start, |ts|) <= data
    ensures TexturesAt(data, |pre| + |Records(w, opts, ts, start, k)|, |ts| - k)
         == Some((RawsOf(w, opts, ts, start)[k..], |pre| + |Records(w, opts, ts, start, |ts|)|))
    decreases |ts| - k
  {
    hide Records, ChunksFit, ChunkAt, ChunkList, ChunkRecords, WriteTexRecord, ReadTexRecord, ChunksAt;
    var raws := RawsOf(w, opts, ts, start);
    if k < |ts| {
      var before := pre + Records(w, opts, ts, start, k);
      var record, chunks := WriteTexRecord(TexRecordOf(w, ts[k])), ChunkRecords(w, opts, ts, start, k, |ts[k].chunks|);
      RecordsStep(w, opts, ts, start, k, |ts|);
      assert before + (record + chunks) <= data;
      assert before + record <= data;
      OneRecord(data, before, TexRecordOf(w, ts[k]));
      assert (before + record) + chunks == before + (record + chunks);
      ChunksReadBack(w, opts, ts, start, k, data, before + record, 0);
      ChunkRecordsLength(w, opts, ts, start, k, |ts[k].chunks|);
      var list := ChunkList(w, opts, ts, start, k);
      assert list[0..] == list;
      TexturesReadBack(w, opts, ts, start, data, pre, k + 1);
      assert raws[k..] == [raws[k]] + raws[k + 1..];
    } else {
      assert raws[k..] == [];
    }
  }

  // ------------------------------------------------------------------------ round trip

  lemma FilesArePrepared(w: World, opts: Options, files: seq<SourceFile>)
    requires Lawful(w) && Accepted(w, opts, files)
    ensures AllPrepared(w, TexturesOf(w, files))
  {
    hide ChunksOf, Dds.SynthHeader, ChunkCount;
    forall i | 0 <= i < |files| ensures Prepared(w, TexturesOf(w, files)[i]) {
      PreparedOne(w, files[i]);
    }
  }

  lemma PreparedOne(w: World, file: SourceFile)
    requires Lawful(w) && Prepare(w, file).Ok?
    ensures Prepared(w, Prepare(w, file).value)
  {
    hide ChunksOf, Dds.SynthHeader, ChunkCount, Dds.ParseHeader;
    var meta := Dds.ParseHeader(file.raw).value;
    Dds.ParsedIsSupported(file.raw);
    ChunksTileTheMips(meta.desc, file.raw[meta.headerLen..]);
  }

  /** The chunks of a prepared file are its mips. */
  lemma PreparedChunks(w: World, file: SourceFile)
    requires Prepare(w, file).Ok?
    ensures var t := Prepare(w, file).value;
      && t.name == w.normalize(file.path)
      && exists headerLen | 0 <= headerLen <= |file.raw| ::
           Dds.ParseHeader(file.raw) == Ok(Dds.Meta(t.desc, headerLen)) && Concat(t.chunks) == file.raw[headerLen..]
  {
    hide ChunksOf, Dds.ParseHeader, ChunkCount;
    var meta := Dds.ParseHeader(file.raw).value;
    Dds.ParsedIsSupported(file.raw);
    ChunksTileTheMips(meta.desc, file.raw[meta.headerLen..]);
  }

  lemma ChunksAreSmall(w: World, opts: Options, ts: seq<Texture>, start: nat, k: nat)
    requires Lawful(w) && AllPrepared(w, ts) && k < |ts| && start + |StoredAll(w, opts, Pieces(ts))| < U64
    ensures ChunksFit(w, opts, ts, start, k)
  {
    hide StoredAll, Pieces, Stored, Lawful, ChunkCount, Dds.SynthHeader;
    forall c | 0 <= c < |ts[k].chunks|
      ensures var t := ChunkAt(w, opts, ts, start, k, c); FitsBlobRef(t.blob) && t.mipFirst < U16 && t.mipLast < U16
    {
      assert Prepared(w, ts[k]);
      PieceIndex(ts, k, c);
      StoredAllSplit(w, opts, Pieces(ts), FirstPiece(ts, k) + c);
      MipRangeFits(ts[k].desc, c);
    }
  }

  lemma AllRecordsFit(w: World, opts: Options, ts: seq<Texture>, start: nat)
    requires Lawful(w) && AllPrepared(w, ts) && start + |StoredAll(w, opts, Pieces(ts))| < U64
    ensures RecordsFit(w, opts, ts, start)
  {
    hide StoredAll, Pieces, ChunkCount, ChunksFit, Dds.SynthHeader;
    forall k | 0 <= k < |ts|
      ensures var r := TexRecordOf(w, ts[k]);
        FitsPathHash(r.path) && r.chunkCount < 256 && FitsDesc(r.desc) && ChunksFit(w, opts, ts, start, k)
    {
      assert Prepared(w, ts[k]);
      ChunksAreSmall(w, opts, ts, start, k);
      ChunkCountLaw(ts[k].desc);
    }
  }

  lemma {:induction false} RecordsLength(w: World, opts: Options, ts: seq<Texture>, start: nat, k: nat)
    requires k <= |ts|
    ensures |Records(w, opts, ts, start, k)| == TEX_RECORD_SIZE * k + TEX_CHUNK_SIZE * |Pieces(ts[..k])|
  {
    hide ChunkRecords, WriteTexRecord, Pieces;
    NoPieces();
    if k == 0 {
      assert ts[..0] == [];
    } else {
      RecordsLength(w, opts, ts, start, k - 1);
      ChunkRecordsLength(w, opts, ts, start, k - 1, |ts[k - 1].chunks|);
      PiecesOfTexture(ts, k - 1);
    }
  }

  lemma ImageParts(w: World, opts: Options, ts: seq<Texture>)
    ensures var header := WriteHeader(VERSION, Dx10, |ts| % U32, NameTableOffset(w, opts, ts));
      var records := Records(w, opts, ts, DataStart(ts), |ts|);
      && Image(w, opts, ts) == header + records + StoredAll(w, opts, Pieces(ts)) + NameTable(TextureNames(ts))
      && |header + records| == DataStart(ts)
      && Image(w, opts, ts) == header + (records + StoredAll(w, opts, Pieces(ts)) + NameTable(TextureNames(ts)))
      && header + records <= Image(w, opts, ts)
  {
    hide StoredAll, NameTable, WriteHeader, Records, Pieces;
    RecordsLength(w, opts, ts, DataStart(ts), |ts|);
    assert ts[..|ts|] == ts;
  }

  lemma NoNames()
    ensures NameTable([]) == []
  {}

  /** Opening what was written gives the normalised names in order, each with its hashes,
      shape and chunk records. */
  lemma WrittenOpens(w: World, opts: Options, ts: seq<Texture>)
    requires Lawful(w) && AllPrepared(w, ts) && |ts| < U32 && NameTableOffset(w, opts, ts) < U64
    ensures Open(w, Image(w, opts, ts)).Ok?
    ensures var entries := Open(w, Image(w, opts, ts)).value;
      && |entries| == |ts|
      && forall k | 0 <= k < |ts| :: entries[k]
           == Entry(ts[k].name, w.hash(ts[k].name),
                    TextureInfo(ts[k].desc, 8, ChunkList(w, opts, ts, DataStart(ts), k)))
  {
    hide Lawful, StoredAll, NameTable, WriteHeader, ReadHeader, Records, ChunkList, NamesFrom, TexturesAt, Pieces, RecordsFit;
    var data, names, start := Image(w, opts, ts), TextureNames(ts), DataStart(ts);
    ImageParts(w, opts, ts);
    HeaderRoundTrip(VERSION, Dx10, |ts|, NameTableOffset(w, opts, ts),
                    Records(w, opts, ts, start, |ts|) + StoredAll(w, opts, Pieces(ts)) + NameTable(names));
    assert |ts| % U32 == |ts|;
    NamesFound(w, opts, ts);
    AllRecordsFit(w, opts, ts, start);
    var header := WriteHeader(VERSION, Dx10, |ts| % U32, NameTableOffset(w, opts, ts));
    NoRecords(w, opts, ts, start);
    TexturesReadBack(w, opts, ts, start, data, header, 0);
    var raws := RawsOf(w, opts, ts, start);
    assert raws[0..] == raws;
    NamesCount(w, data, NameTableOffset(w, opts, ts), |ts|);
    TexturesCount(data, HEADER_SIZE, |ts|);
    assert Open(w, data) == Ok(EntriesOf(raws, names));
  }

  lemma NoRecords(w: World, opts: Options, ts: seq<Texture>, start: nat)
    ensures Records(w, opts, ts, start, 0) == []
  {}

  lemma NamesFound(w: World, opts: Options, ts: seq<Texture>)
    requires AllPrepared(w, ts)
    ensures NamesFrom(w, Image(w, opts, ts), NameTableOffset(w, opts, ts), |ts|) == Some(TextureNames(ts))
    ensures NameTableOffset(w, opts, ts) <= |Image(w, opts, ts)|
  {
    hide StoredAll, NameTable, WriteHeader, Records, NamesFrom, Pieces, Dds.SynthHeader, ChunkCount;
    var data, names := Image(w, opts, ts), TextureNames(ts);
    ImageParts(w, opts, ts);
    assert Normalised(w, names) by {
      forall i | 0 <= i < |names| ensures |names[i]| < U16 && w.normalize(names[i]) == names[i] {
        assert Prepared(w, ts[i]);
      }
    }
    NoNames();
    var pre := data[..NameTableOffset(w, opts, ts)];
    assert data == pre + NameTable(names);
    assert names[..0] == [] && names[0..] == names;
    NamesReadBack(w, pre, names, 0);
  }

  // --------------------------------------------------------------------- reading content

  lemma {:induction false} ConcatLast(xs: seq<Blob>, x: Blob)
    ensures Concat(xs + [x]) == Concat(xs) + x
  {
    if |xs| == 0 {
      assert xs + [x] == [x];
      assert Concat([x]) == x + Concat([]);
    } else {
      assert (xs + [x])[1..] == xs[1..] + [x];
      ConcatLast(xs[1..], x);
    }
  }

  /** What reading the chunks joined. */
  lemma {:induction false} ChunksJoined(w: World, data: Blob, chunks: seq<TexChunk>) returns (xs: seq<Blob>)
    requires ReadChunks(w, data, chunks).Some?
    ensures |xs| == |chunks| && Concat(xs) == ReadChunks(w, data, chunks).value
    ensures forall c | 0 <= c < |chunks| ::
      ReadBlob(w, data, chunks[c].blob) == Some(xs[c]) && |xs[c]| == chunks[c].blob.unpackedSize
    decreases |chunks|
  {
    hide ReadBlob;
    var n := |chunks| - 1;
    if n < 0 {
      xs := [];
    } else {
      var mip := ReadBlob(w, data, chunks[n].blob).value;
      var before := ChunksJoined(w, data, chunks[..n]);
      xs := before + [mip];
      ConcatLast(before, mip);
      forall c | 0 <= c < n ensures ReadBlob(w, data, chunks[c].blob) == Some(before[c]) {
        assert chunks[..n][c] == chunks[c];
      }
    }
  }

  /** Chunks that each read back join to the whole. */
  lemma {:induction false} ChunksJoin(w: World, data: Blob, chunks: seq<TexChunk>, xs: seq<Blob>)
    requires |xs| == |chunks|
    requires forall c | 0 <= c < |chunks| ::
      ReadBlob(w, data, chunks[c].blob) == Some(xs[c]) && |xs[c]| == chunks[c].blob.unpackedSize
    ensures ReadChunks(w, data, chunks) == Some(Concat(xs))
    decreases |chunks|
  {
    hide ReadBlob;
    var n := |chunks| - 1;
    if n >= 0 {
      forall c | 0 <= c < n ensures chunks[..n][c] == chunks[c] && xs[..n][c] == xs[c] {}
      ChunksJoin(w, data, chunks[..n], xs[..n]);
      ConcatLast(xs[..n], xs[n]);
      assert xs == xs[..n] + [xs[n]];
    }
  }

  /** Where a texture's chunks lie in the archive, and when they read back. */
  lemma ChunkReadsBackIff(w: World, opts: Options, ts: seq<Texture>, k: nat, c: nat)
    requires Lawful(w) && k < |ts| && c < |ts[k].chunks|
    ensures var chunk := ts[k].chunks[c];
      var b := ChunkAt(w, opts, ts, DataStart(ts), k, c).blob;
      && b.unpackedSize == |chunk| % U32
      && (ReadBlob(w, Image(w, opts, ts), b) == Some(chunk) <==> Recoverable(w, opts, chunk))
  {
    hide StoredAll, NameTable, WriteHeader, Records, Pieces, PackedSize, ReadBlob, Recoverable, Lawful, Image;
    ImageParts(w, opts, ts);
    PieceIndex(ts, k, c);
    var pre := WriteHeader(VERSION, Dx10, |ts| % U32, NameTableOffset(w, opts, ts)) + Records(w, opts, ts, DataStart(ts), |ts|);
    BlobReadsBackIff(w, opts, pre, Pieces(ts), NameTable(TextureNames(ts)), FirstPiece(ts, k) + c);
  }

  /** A texture is read back as a fresh header and all its mips exactly when each of its
      chunks is recoverable. */
  lemma TextureReadsBackIff(w: World, opts: Options, ts: seq<Texture>, k: nat)
    requires Lawful(w) && AllPrepared(w, ts) && k < |ts|
    ensures var info := TextureInfo(ts[k].desc, 8, ChunkList(w, opts, ts, DataStart(ts), k));
      && Dds.SynthHeader(ts[k].desc).Some?
      && (TextureContent(w, Image(w, opts, ts), info) == Some(Dds.SynthHeader(ts[k].desc).value + Concat(ts[k].chunks))
          <==> forall c | 0 <= c < |ts[k].chunks| :: Recoverable(w, opts, ts[k].chunks[c]))
  {
    hide ReadBlob, Lawful, Image, ChunkAt, Dds.SynthHeader, ReadChunks, Recoverable, ChunkList, Concat;
    assert Prepared(w, ts[k]);
    var data, chunks, list := Image(w, opts, ts), ts[k].chunks, ChunkList(w, opts, ts, DataStart(ts), k);
    forall c | 0 <= c < |chunks|
      ensures list[c].blob.unpackedSize == |chunks[c]| % U32
      ensures ReadBlob(w, data, list[c].blob) == Some(chunks[c]) <==> Recoverable(w, opts, chunks[c])
    {
      ChunkReadsBackIff(w, opts, ts, k, c);
      ChunkListed(w, opts, ts, DataStart(ts), k, c);
    }
    ChunksReadIff(w, opts, data, list, chunks);
    var header := Dds.SynthHeader(ts[k].desc).value;
    var mips := ReadChunks(w, data, list);
    if mips.Some? && header + mips.value == header + Concat(chunks) {
      assert mips.value == (header + mips.value)[|header|..];
      assert Concat(chunks) == (header + Concat(chunks))[|header|..];
    }
  }

  lemma ChunkListed(w: World, opts: Options, ts: seq<Texture>, start: nat, k: nat, c: nat)
    requires k < |ts| && c < |ts[k].chunks|
    ensures ChunkList(w, opts, ts, start, k)[c] == ChunkAt(w, opts, ts, start, k, c)
  {}

  /** The chunks join to the whole exactly when each one is recoverable. */
  lemma ChunksReadIff(w: World, opts: Options, data: Blob, list: seq<TexChunk>, chunks: seq<Blob>)
    requires |list| == |chunks|
    requires forall c | 0 <= c < |chunks| ::
      && list[c].blob.unpackedSize == |chunks[c]| % U32
      && (ReadBlob(w, data, list[c].blob) == Some(chunks[c]) <==> Recoverable(w, opts, chunks[c]))
    ensures ReadChunks(w, data, list) == Some(Concat(chunks)) <==> forall c | 0 <= c < |chunks| :: Recoverable(w, opts, chunks[c])
  {
    hide ReadBlob, ReadChunks, Compresses, Concat;
    if forall c | 0 <= c < |chunks| :: Recoverable(w, opts, chunks[c]) {
      ChunksJoin(w, data, list, chunks);
    }
    if ReadChunks(w, data, list) == Some(Concat(chunks)) {
      var xs := ChunksJoined(w, data, list);
      SameWhole(xs, chunks);
    }
  }

  /** Reading a name of a written archive gives the last texture written under it, as a
      fresh header and its mips, exactly when its chunks are recoverable; other names are
      not found. */
  lemma WrittenReadsBack(w: World, opts: Options, files: seq<SourceFile>, a: Archive, name: Blob)
    requires Lawful(w) && Accepted(w, opts, files) && IsOpen(w, a, Image(w, opts, TexturesOf(w, files)))
    ensures var ts := TexturesOf(w, files);
      var last := LastNamed(TextureNames(ts), w.normalize(name));
      && (last.None? ==> ReadEntry(w, a, name) == Err(NotFound))
      && (last.Some? ==>
            && last.value < |ts| && Dds.SynthHeader(ts[last.value].desc).Some?
            && (ReadEntry(w, a, name) == Ok(Dds.SynthHeader(ts[last.value].desc).value + Concat(ts[last.value].chunks))
                <==> forall c | 0 <= c < |ts[last.value].chunks| :: Recoverable(w, opts, ts[last.value].chunks[c])))
  {
    hide Open, Image, LastNamed, TextureContent, Recoverable, Lawful, TextureOf, ChunkList, Prepared, Dds.SynthHeader, Concat;
    var ts := TexturesOf(w, files);
    assert AllPrepared(w, ts) by {
      FilesArePrepared(w, opts, files);
    }
    WrittenOpens(w, opts, ts);
    assert EntryNames(a.entries) == TextureNames(ts);
    var last := LastNamed(TextureNames(ts), w.normalize(name));
    LastNamedIs(TextureNames(ts), w.normalize(name));
    if last.Some? {
      assert ts[last.value] == TextureOf(w, files[last.value]);
      TextureReadsBackIff(w, opts, ts, last.value);
    }
  }

  /** The blobs of all chunks lie in order between the records and the name table and never
      overlap; no gap follows one exactly when its stored length fits 32 bits. */
  lemma ChunksTile(w: World, opts: Options, ts: seq<Texture>, k: nat, c: nat)
    requires Lawful(w) && k < |ts| && c < |ts[k].chunks|
    ensures var start := DataStart(ts);
      var p := FirstPiece(ts, k) + c;
      var b := ChunkAt(w, opts, ts, start, k, c).blob;
      && p < |Pieces(ts)| && b == RefAt(w, opts, start, Pieces(ts), p)
      && (p == 0 ==> b.offset == start)
      && var next := if p + 1 < |Pieces(ts)| then RefAt(w, opts, start, Pieces(ts), p + 1).offset else NameTableOffset(w, opts, ts);
         && b.offset + b.StoredLen() <= next
         && (b.offset + b.StoredLen() == next <==> |Stored(w, opts, ts[k].chunks[c])| < U32)
  {
    hide StoredAll, Pieces, PackedSize, Stored, Lawful;
    PieceIndex(ts, k, c);
    NothingStored(w, opts);
    assert Pieces(ts)[..0] == [];
    BlobsTouch(w, opts, DataStart(ts), Pieces(ts), FirstPiece(ts, k) + c);
  }

  /** A chunk of four gibibytes or more cannot be recorded: the writer accepts the file, the
      archive opens, and no read of its name gives the texture back. */
  lemma HugeChunkIsLost(w: World, opts: Options, files: seq<SourceFile>, a: Archive, name: Blob, c: nat)
    requires Lawful(w) && Accepted(w, opts, files) && IsOpen(w, a, Image(w, opts, TexturesOf(w, files)))
    requires var last := LastNamed(TextureNames(TexturesOf(w, files)), w.normalize(name));
      last.Some? && last.value < |files| && c < |TextureOf(w, files[last.value]).chunks|
      && |TextureOf(w, files[last.value]).chunks[c]| >= U32
    ensures var t := TextureOf(w, files[LastNamed(TextureNames(TexturesOf(w, files)), w.normalize(name)).value]);
      Dds.SynthHeader(t.desc).Some? && ReadEntry(w, a, name) != Ok(Dds.SynthHeader(t.desc).value + Concat(t.chunks))
  {
    hide Open, Image, LastNamed, TextureContent, Lawful, TextureOf, Prepared, Dds.SynthHeader, Concat, Compresses;
    WrittenReadsBack(w, opts, files, a, name);
  }

  /** The head of a texture archive, byte by byte. */
  lemma ImageHead(w: World, opts: Options, ts: seq<Texture>)
    requires |ts| < U32 && NameTableOffset(w, opts, ts) < U64
    ensures var data := Image(w, opts, ts);
      && |data| >= 24 && data[..12] == [0x42, 0x54, 0x44, 0x58, 1, 0, 0, 0, 0x44, 0x58, 0x31, 0x30]
      && Word4(data[12], data[13], data[14], data[15]) == |ts|
      && Word8(data[16], data[17], data[18], data[19], data[20], data[21], data[22], data[23])
           == 24 + 24 * |ts| + 24 * |Pieces(ts)| + |StoredAll(w, opts, Pieces(ts))|
  {
    hide LE, FromLE, Pow256, Records, StoredAll, Pieces, NameTable, Word4, Word8;
    var data := Image(w, opts, ts);
    ImageParts(w, opts, ts);
    var rest := Records(w, opts, ts, DataStart(ts), |ts|) + StoredAll(w, opts, Pieces(ts)) + NameTable(TextureNames(ts));
    HeaderFields(VERSION, Dx10, |ts| % U32, NameTableOffset(w, opts, ts), rest);
    HeaderRoundTrip(VERSION, Dx10, |ts| % U32, NameTableOffset(w, opts, ts), rest);
    HeaderBytes(data);
    hide WriteHeader, ReadHeader, Image;
    VersionBytes();
    assert data[..12] == data[0..4] + data[4..8] + data[8..12];
  }

  /** At the place its record gives, the archive holds a chunk compressed if that is worth
      it, and else as it is; the record says which, and which mips it holds. */
  lemma ImageHolds(w: World, opts: Options, ts: seq<Texture>, entries: seq<Entry>, k: nat, c: nat)
    requires Lawful(w) && AllPrepared(w, ts) && |ts| < U32 && NameTableOffset(w, opts, ts) < U64
    requires Open(w, Image(w, opts, ts)) == Ok(entries) && k < |ts| && c < |ts[k].chunks|
    ensures |entries| == |ts| && |entries[k].info.chunks| == |ts[k].chunks|
    ensures var data, chunk, t := Image(w, opts, ts), ts[k].chunks[c], entries[k].info.chunks[c];
      var stored := if WorthIt(w, opts, chunk) then w.deflate(chunk) else chunk;
      && t.blob.offset + |stored| <= |data| && data[t.blob.offset..t.blob.offset + |stored|] == stored
      && t.blob.packedSize == (if WorthIt(w, opts, chunk) then |stored| % 0x1_0000_0000 else 0)
      && t.blob.unpackedSize == |chunk| % 0x1_0000_0000
      && t.mipFirst == c && t.mipLast == if c + 1 < |ts[k].chunks| then c else ts[k].desc.mipCount - 1
  {
    hide Open, WorthIt, Stored, StoredAll, Image, RefAt, Lawful, Pieces, ChunkCount;
    WrittenOpens(w, opts, ts);
    ChunkListed(w, opts, ts, DataStart(ts), k, c);
    PieceIndex(ts, k, c);
    HowStored(w, opts, DataStart(ts), Pieces(ts), FirstPiece(ts, k) + c);
    StoredInImage(w, opts, ts, FirstPiece(ts, k) + c);
  }

  lemma StoredInImage(w: World, opts: Options, ts: seq<Texture>, p: nat)
    requires p < |Pieces(ts)|
    ensures var data, s := Image(w, opts, ts), Stored(w, opts, Pieces(ts)[p]);
      var at := RefAt(w, opts, DataStart(ts), Pieces(ts), p).offset;
      at + |s| <= |data| && data[at..at + |s|] == s
  {
    hide Records, NameTable, StoredAll, Stored, WriteHeader, Image, Pieces;
    ImageParts(w, opts, ts);
    var pre := WriteHeader(VERSION, Dx10, |ts| % U32, NameTableOffset(w, opts, ts)) + Records(w, opts, ts, DataStart(ts), |ts|);
    StoredAt(w, opts, pre, Pieces(ts), NameTable(TextureNames(ts)), p);
  }
}
