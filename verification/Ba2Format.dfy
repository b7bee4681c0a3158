/** The BA2 archive format: the file header, the record of a general entry, the record
    and chunk records of a texture entry, and the name table. */
module Ba2Format {
  import opened Wrappers
  import opened Bytes

  const MAGIC: Blob := [0x42, 0x54, 0x44, 0x58]
  const TAG_GNRL: Blob := [0x47, 0x4E, 0x52, 0x4C]
  const TAG_DX10: Blob := [0x44, 0x58, 0x31, 0x30]

  const HEADER_SIZE: nat := 24
  const RECORD_SIZE: nat := 36
  const TEX_RECORD_SIZE: nat := 24
  const TEX_CHUNK_SIZE: nat := 24
  const TEX_CHUNK_HEADER_SIZE: nat := 24
  const TEX_TILE_MODE_LINEAR: nat := 8
  const RECORD_FLAGS: nat := 0x0010_0100
  const PADDING: nat := 0xBAAD_F00D
  const VERSION: nat := 1

  datatype ArchiveKind = Gnrl | Dx10

  datatype FormatError = TooSmall | BadMagic | BadVersion | BadKind | BadChunkHeader | Truncated

  type Tag = t: Blob | |t| == 4 witness [0, 0, 0, 0]

  // --------------------------------------------------------------------------- header

  datatype Header = Header(version: nat, archiveType: Tag, fileCount: nat, nameTableOffset: nat)

  function TagOf(kind: ArchiveKind): Tag {
    match kind
    case Gnrl => TAG_GNRL
    case Dx10 => TAG_DX10
  }

  function KindOf(tag: Tag): Result<ArchiveKind, FormatError> {
    if tag == TAG_GNRL then Ok(Gnrl) else if tag == TAG_DX10 then Ok(Dx10) else Err(BadKind)
  }

  function WriteHeader(version: nat, kind: ArchiveKind, fileCount: nat, nameTableOffset: nat): (s: Blob)
    ensures |s| == HEADER_SIZE
  {
    MAGIC + LE(version, 4) + TagOf(kind) + LE(fileCount, 4) + LE(nameTableOffset, 8)
  }

  function ReadHeader(data: Blob): Result<Header, FormatError> {
    if |data| < HEADER_SIZE then Err(TooSmall)
    else if data[0..4] != MAGIC then Err(BadMagic)
    else Ok(Header(Read(data, 4, 4), data[8..12], Read(data, 12, 4), Read(data, 16, 8)))
  }

  lemma HeaderRoundTrip(version: nat, kind: ArchiveKind, fileCount: nat, nameTableOffset: nat, rest: Blob)
    requires version < U32 && fileCount < U32 && nameTableOffset < U64
    ensures ReadHeader(WriteHeader(version, kind, fileCount, nameTableOffset) + rest)
         == Ok(Header(version, TagOf(kind), fileCount, nameTableOffset))
    ensures KindOf(TagOf(kind)) == Ok(kind)
  {
    hide LE, FromLE, Pow256;
    Widths();
    FromLEOfLE(version, 4);
    FromLEOfLE(fileCount, 4);
    FromLEOfLE(nameTableOffset, 8);
    HeaderFields(version, kind, fileCount, nameTableOffset, rest);
  }

  lemma HeaderFields(version: nat, kind: ArchiveKind, fileCount: nat, nameTableOffset: nat, rest: Blob)
    ensures var s := WriteHeader(version, kind, fileCount, nameTableOffset) + rest;
      && s[0..4] == MAGIC && s[4..8] == LE(version, 4) && s[8..12] == TagOf(kind)
      && s[12..16] == LE(fileCount, 4) && s[16..24] == LE(nameTableOffset, 8)
  {
    hide LE, TagOf;
  }

  /** At which byte of a file header each field lies, and which four bytes name a kind. */
  lemma HeaderBytes(data: Blob)
    requires |data| >= HEADER_SIZE
    ensures ReadHeader(data).Ok? <==> data[..4] == [0x42, 0x54, 0x44, 0x58]
    ensures ReadHeader(data).Ok? ==> var h := ReadHeader(data).value;
      && h.version == Word4(data[4], data[5], data[6], data[7])
      && h.archiveType == data[8..12]
      && h.fileCount == Word4(data[12], data[13], data[14], data[15])
      && h.nameTableOffset == Word8(data[16], data[17], data[18], data[19], data[20], data[21], data[22], data[23])
  {
    hide Read, Word4, Word8;
    ReadsWord4(data, 4);
    ReadsWord4(data, 12);
    ReadsWord8(data, 16);
  }

  lemma VersionBytes()
    ensures LE(VERSION, 4) == [1, 0, 0, 0]
  {
    LEFour(VERSION);
  }

  lemma KindNames(tag: Tag)
    ensures KindOf(tag) == if tag == [0x47, 0x4E, 0x52, 0x4C] then Ok(Gnrl) else if tag == [0x44, 0x58, 0x31, 0x30] then Ok(Dx10)
                           else Err(BadKind)
  {}

  // ----------------------------------------------------------------------------- blobs

  /** Where one stored blob lies. A packed size of zero means it is not compressed. */
  datatype BlobRef = BlobRef(offset: nat, packedSize: nat, unpackedSize: nat) {
    predicate IsCompressed() {
      packedSize != 0
    }

    function StoredLen(): nat {
      if IsCompressed() then packedSize else unpackedSize
    }
  }

  ghost predicate FitsBlobRef(b: BlobRef) {
    b.offset < U64 && b.packedSize < U32 && b.unpackedSize < U32
  }

  // ------------------------------------------------------------------- general records

  /** What is derived from an entry's path. */
  datatype PathHash = PathHash(nameHash: nat, ext: Tag, dirHash: nat)

  ghost predicate FitsPathHash(h: PathHash) {
    h.nameHash < U32 && h.dirHash < U32
  }

  datatype Record = Record(path: PathHash, flags: nat, blob: BlobRef)

  function WriteRecord(r: Record): (s: Blob)
    ensures |s| == RECORD_SIZE
  {
    LE(r.path.nameHash, 4) + r.path.ext + LE(r.path.dirHash, 4) + LE(r.flags, 4)
    + LE(r.blob.offset, 8) + LE(r.blob.packedSize, 4) + LE(r.blob.unpackedSize, 4) + LE(PADDING, 4)
  }

  function ReadRecord(data: Blob, base: nat): Record
    requires base + RECORD_SIZE <= |data|
  {
    Record(PathHash(Read(data, base, 4), data[base + 4..base + 8], Read(data, base + 8, 4)), Read(data, base + 12, 4),
           BlobRef(Read(data, base + 16, 8), Read(data, base + 24, 4), Read(data, base + 28, 4)))
  }

  lemma RecordRoundTrip(pre: Blob, r: Record, post: Blob)
    requires FitsPathHash(r.path) && r.flags < U32 && FitsBlobRef(r.blob)
    ensures ReadRecord(pre + WriteRecord(r) + post, |pre|) == r
  {
    hide LE, FromLE, Pow256;
    Widths();
    FromLEOfLE(r.path.nameHash, 4);
    FromLEOfLE(r.path.dirHash, 4);
    FromLEOfLE(r.flags, 4);
    FromLEOfLE(r.blob.offset, 8);
    FromLEOfLE(r.blob.packedSize, 4);
    FromLEOfLE(r.blob.unpackedSize, 4);
    var s, p := pre + WriteRecord(r) + post, |pre|;
    assert s[p..p + 4] == LE(r.path.nameHash, 4);
    assert s[p + 4..p + 8] == r.path.ext;
    assert s[p + 8..p + 12] == LE(r.path.dirHash, 4);
    assert s[p + 12..p + 16] == LE(r.flags, 4);
    assert s[p + 16..p + 24] == LE(r.blob.offset, 8);
    assert s[p + 24..p + 28] == LE(r.blob.packedSize, 4);
    assert s[p + 28..p + 32] == LE(r.blob.unpackedSize, 4);
  }

  /** At which byte of a general record each field lies; it ends with four fixed bytes. */
  lemma RecordBytes(data: Blob, base: nat)
    requires base + RECORD_SIZE <= |data|
    ensures var r, b := ReadRecord(data, base), data[base..base + 36];
      && r.path.nameHash == Word4(b[0], b[1], b[2], b[3]) && r.path.ext == b[4..8]
      && r.path.dirHash == Word4(b[8], b[9], b[10], b[11]) && r.flags == Word4(b[12], b[13], b[14], b[15])
      && r.blob.offset == Word8(b[16], b[17], b[18], b[19], b[20], b[21], b[22], b[23])
      && r.blob.packedSize == Word4(b[24], b[25], b[26], b[27])
      && r.blob.unpackedSize == Word4(b[28], b[29], b[30], b[31])
  {
    hide Read, Word4, Word8;
    ReadsWord4(data, base);
    ReadsWord4(data, base + 8);
    ReadsWord4(data, base + 12);
    ReadsWord8(data, base + 16);
    ReadsWord4(data, base + 24);
    ReadsWord4(data, base + 28);
    SliceOfSlice(data, base, 36, 4, 8);
  }

  lemma RecordTail(r: Record)
    ensures WriteRecord(r)[32..] == [0x0D, 0xF0, 0xAD, 0xBA]
  {
    hide LE;
    LEFour(PADDING);
    assert WriteRecord(r)[32..] == LE(PADDING, 4);
  }

  // ------------------------------------------------------------------- texture records

  /** The format, size and shape of a texture. */
  datatype TextureDesc = TextureDesc(dxgiFormat: nat, width: nat, height: nat, mipCount: nat, cubemap: bool)

  ghost predicate FitsDesc(d: TextureDesc) {
    d.dxgiFormat < 256 && d.width < U16 && d.height < U16 && d.mipCount < 256
  }

  datatype TexRecord = TexRecord(path: PathHash, chunkCount: nat, desc: TextureDesc, tileMode: nat)

  datatype TexChunk = TexChunk(blob: BlobRef, mipFirst: nat, mipLast: nat)

  function WriteTexRecord(r: TexRecord): (s: Blob)
    ensures |s| == TEX_RECORD_SIZE
  {
    LE(r.path.nameHash, 4) + r.path.ext + LE(r.path.dirHash, 4) + LE(0, 1) + LE(r.chunkCount, 1)
    + LE(TEX_CHUNK_HEADER_SIZE, 2) + LE(r.desc.height, 2) + LE(r.desc.width, 2) + LE(r.desc.mipCount, 1)
    + LE(r.desc.dxgiFormat, 1) + LE(if r.desc.cubemap then 1 else 0, 1) + LE(r.tileMode, 1)
  }

  function ReadTexRecord(data: Blob, base: nat): Result<TexRecord, FormatError>
    requires base + TEX_RECORD_SIZE <= |data|
  {
    if Read(data, base + 14, 2) != TEX_CHUNK_HEADER_SIZE then Err(BadChunkHeader)
    else
      Ok(TexRecord(
           PathHash(Read(data, base, 4), data[base + 4..base + 8], Read(data, base + 8, 4)),
           Read(data, base + 13, 1),
           TextureDesc(Read(data, base + 21, 1), Read(data, base + 18, 2), Read(data, base + 16, 2),
                       Read(data, base + 20, 1), Read(data, base + 22, 1) % 2 == 1),
           Read(data, base + 23, 1)))
  }

  lemma TexRecordRoundTrip(pre: Blob, r: TexRecord, post: Blob)
    requires FitsPathHash(r.path) && r.chunkCount < 256 && FitsDesc(r.desc) && r.tileMode < 256
    ensures ReadTexRecord(pre + WriteTexRecord(r) + post, |pre|) == Ok(r)
  {
    hide LE, FromLE, Pow256;
    Widths();
    var d, cube := r.desc, if r.desc.cubemap then 1 else 0;
    FromLEOfLE(r.path.nameHash, 4);
    FromLEOfLE(r.path.dirHash, 4);
    FromLEOfLE(r.chunkCount, 1);
    FromLEOfLE(TEX_CHUNK_HEADER_SIZE, 2);
    FromLEOfLE(d.height, 2);
    FromLEOfLE(d.width, 2);
    FromLEOfLE(d.mipCount, 1);
    FromLEOfLE(d.dxgiFormat, 1);
    FromLEOfLE(cube, 1);
    FromLEOfLE(r.tileMode, 1);
    TexRecordFields(pre, r, post);
  }

  lemma TexRecordFields(pre: Blob, r: TexRecord, post: Blob)
    ensures var s, p := pre + WriteTexRecord(r) + post, |pre|;
      && s[p..p + 4] == LE(r.path.nameHash, 4) && s[p + 4..p + 8] == r.path.ext && s[p + 8..p + 12] == LE(r.path.dirHash, 4)
      && s[p + 13..p + 14] == LE(r.chunkCount, 1) && s[p + 14..p + 16] == LE(TEX_CHUNK_HEADER_SIZE, 2)
      && s[p + 16..p + 18] == LE(r.desc.height, 2) && s[p + 18..p + 20] == LE(r.desc.width, 2)
      && s[p + 20..p + 21] == LE(r.desc.mipCount, 1) && s[p + 21..p + 22] == LE(r.desc.dxgiFormat, 1)
      && s[p + 22..p + 23] == LE(if r.desc.cubemap then 1 else 0, 1) && s[p + 23..p + 24] == LE(r.tileMode, 1)
  {
    hide LE;
  }

  /** At which byte of a texture record each field lies when it is read. The cubemap flag
      is the lowest bit of its byte, and the two bytes before the dimensions must say 24. */
  lemma TexRecordBytes(data: Blob, base: nat)
    requires base + TEX_RECORD_SIZE <= |data|
    ensures var b := data[base..base + 24];
      && (ReadTexRecord(data, base).Ok? <==> b[14] == 24 && b[15] == 0)
      && (ReadTexRecord(data, base).Ok? ==> var r := ReadTexRecord(data, base).value;
            && r.path.nameHash == Word4(b[0], b[1], b[2], b[3]) && r.path.ext == b[4..8]
            && r.path.dirHash == Word4(b[8], b[9], b[10], b[11]) && r.chunkCount == b[13] as nat
            && r.desc.height == Word2(b[16], b[17]) && r.desc.width == Word2(b[18], b[19])
            && r.desc.mipCount == b[20] as nat && r.desc.dxgiFormat == b[21] as nat
            && (r.desc.cubemap <==> b[22] % 2 == 1) && r.tileMode == b[23] as nat)
  {
    hide Read, Word4;
    ReadsWord4(data, base);
    ReadsWord4(data, base + 8);
    ReadsByte(data, base + 13);
    ReadsWord2(data, base + 14);
    ReadsWord2(data, base + 16);
    ReadsWord2(data, base + 18);
    ReadsByte(data, base + 20);
    ReadsByte(data, base + 21);
    ReadsByte(data, base + 22);
    ReadsByte(data, base + 23);
    SliceOfSlice(data, base, 24, 4, 8);
  }

  function WriteTexChunk(c: TexChunk): (s: Blob)
    ensures |s| == TEX_CHUNK_SIZE
  {
    LE(c.blob.offset, 8) + LE(c.blob.packedSize, 4) + LE(c.blob.unpackedSize, 4)
    + LE(c.mipFirst, 2) + LE(c.mipLast, 2) + LE(PADDING, 4)
  }

  function ReadTexChunk(data: Blob, base: nat): TexChunk
    requires base + TEX_CHUNK_SIZE <= |data|
  {
    TexChunk(BlobRef(Read(data, base, 8), Read(data, base + 8, 4), Read(data, base + 12, 4)),
             Read(data, base + 16, 2), Read(data, base + 18, 2))
  }

  lemma TexChunkRoundTrip(pre: Blob, c: TexChunk, post: Blob)
    requires FitsBlobRef(c.blob) && c.mipFirst < U16 && c.mipLast < U16
    ensures ReadTexChunk(pre + WriteTexChunk(c) + post, |pre|) == c
  {
    hide LE, FromLE, Pow256;
    Widths();
    FromLEOfLE(c.blob.offset, 8);
    FromLEOfLE(c.blob.packedSize, 4);
    FromLEOfLE(c.blob.unpackedSize, 4);
    FromLEOfLE(c.mipFirst, 2);
    FromLEOfLE(c.mipLast, 2);
    var s, p := pre + WriteTexChunk(c) + post, |pre|;
    assert s[p..p + 8] == LE(c.blob.offset, 8);
    assert s[p + 8..p + 12] == LE(c.blob.packedSize, 4);
    assert s[p + 12..p + 16] == LE(c.blob.unpackedSize, 4);
    assert s[p + 16..p + 18] == LE(c.mipFirst, 2);
    assert s[p + 18..p + 20] == LE(c.mipLast, 2);
  }

  /** At which byte of a chunk record each field lies; it ends like a general record. */
  lemma TexChunkBytes(data: Blob, base: nat)
    requires base + TEX_CHUNK_SIZE <= |data|
    ensures var c, b := ReadTexChunk(data, base), data[base..base + 24];
      && c.blob.offset == Word8(b[0], b[1], b[2], b[3], b[4], b[5], b[6], b[7])
      && c.blob.packedSize == Word4(b[8], b[9], b[10], b[11]) && c.blob.unpackedSize == Word4(b[12], b[13], b[14], b[15])
      && c.mipFirst == Word2(b[16], b[17]) && c.mipLast == Word2(b[18], b[19])
  {
    hide Read, Word2, Word4, Word8;
    ReadsWord8(data, base);
    ReadsWord4(data, base + 8);
    ReadsWord4(data, base + 12);
    ReadsWord2(data, base + 16);
    ReadsWord2(data, base + 18);
  }

  lemma TexChunkTail(c: TexChunk)
    ensures WriteTexChunk(c)[20..] == [0x0D, 0xF0, 0xAD, 0xBA]
  {
    hide LE;
    LEFour(PADDING);
    assert WriteTexChunk(c)[20..] == LE(PADDING, 4);
  }
}
