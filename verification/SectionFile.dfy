/** One file of the on-disk cache: its 64-byte header, when a file found on disk is
    accepted, and the write sequence that publishes a new one. */
module SectionFile {
  import opened Wrappers
  import opened Bytes

  const HEADER_SIZE: nat := 64
  const FORMAT_VERSION: nat := 1
  const MAGIC: Blob := [0x45, 0x53, 0x4D, 0x52, 0x4B, 0x59, 0x56, 0x31]

  type u32 = n: nat | n < 0x1_0000_0000
  type u64 = n: nat | n < 0x1_0000_0000_0000_0000

  /** The identity of the plugin a section was built from. */
  datatype Stamp = Stamp(size: u64, mtimeSecs: u64, mtimeNanos: u32)

  datatype SectionKind = Tree | Forms | Edid | Search | Xref | Strings | Curves

  function Discriminant(kind: SectionKind): (d: u32) {
    match kind
    case Tree => 1
    case Forms => 2
    case Edid => 3
    case Search => 4
    case Xref => 5
    case Strings => 6
    case Curves => 7
  }

  /** Everything a header must match before its payload is used. */
  datatype Key = Key(kind: SectionKind, stamp: Stamp, cacheVersion: u32, fingerprint: u64)

  // ------------------------------------------------------------------------- headers

  function BuildHeader(key: Key, payloadLen: u64): (header: Blob)
    ensures |header| == HEADER_SIZE
  {
    MAGIC + LE(FORMAT_VERSION, 4) + LE(Discriminant(key.kind), 4) + LE(payloadLen, 8) + LE(key.stamp.size, 8)
    + LE(key.stamp.mtimeSecs, 8) + LE(key.stamp.mtimeNanos, 4) + LE(key.cacheVersion, 4) + LE(key.fingerprint, 8)
    + LE(0, 8)
  }

  /** The payload length of a header that matches `key` in every field. */
  function ParseHeader(bytes: Blob, key: Key): Option<nat> {
    if |bytes| < HEADER_SIZE then None
    else if bytes[0..8] != MAGIC then None
    else if Read(bytes, 8, 4) != FORMAT_VERSION then None
    else if Read(bytes, 12, 4) != Discriminant(key.kind) then None
    else if Read(bytes, 44, 4) != key.cacheVersion then None
    else if Read(bytes, 48, 8) != key.fingerprint then None
    else if Read(bytes, 24, 8) != key.stamp.size
      || Read(bytes, 32, 8) != key.stamp.mtimeSecs
      || Read(bytes, 40, 4) != key.stamp.mtimeNanos then None
    else Some(Read(bytes, 16, 8))
  }

  /** The payload of an acceptable file. `rootLen` is the size of the archived root. */
  function MapRaw(file: Option<Blob>, key: Key, rootLen: nat): Option<Blob> {
    if file.None? then None
    else if |file.value| < HEADER_SIZE then None
    else
      var bytes := file.value;
      var payloadLen := ParseHeader(bytes[..HEADER_SIZE], key);
      if payloadLen.None? then None
      else if payloadLen.value < rootLen then None
      else if HEADER_SIZE + payloadLen.value >= U64 then None
      else if HEADER_SIZE + payloadLen.value != |bytes| then None
      else Some(bytes[HEADER_SIZE..])
  }

  /** At which byte of a section's header each field lies, and the number of each kind. */
  lemma HeaderBytes(bytes: Blob, key: Key, payloadLen: nat)
    requires |bytes| >= HEADER_SIZE
    ensures ParseHeader(bytes, key) == Some(payloadLen) <==>
      && bytes[..8] == [0x45, 0x53, 0x4D, 0x52, 0x4B, 0x59, 0x56, 0x31]
      && Word4(bytes[8], bytes[9], bytes[10], bytes[11]) == 1
      && Word4(bytes[12], bytes[13], bytes[14], bytes[15])
           == (match key.kind case Tree => 1 case Forms => 2 case Edid => 3 case Search => 4 case Xref => 5 case Strings => 6 case Curves => 7)
      && Word8(bytes[16], bytes[17], bytes[18], bytes[19], bytes[20], bytes[21], bytes[22], bytes[23]) == payloadLen
      && Word8(bytes[24], bytes[25], bytes[26], bytes[27], bytes[28], bytes[29], bytes[30], bytes[31]) == key.stamp.size
      && Word8(bytes[32], bytes[33], bytes[34], bytes[35], bytes[36], bytes[37], bytes[38], bytes[39]) == key.stamp.mtimeSecs
      && Word4(bytes[40], bytes[41], bytes[42], bytes[43]) == key.stamp.mtimeNanos
      && Word4(bytes[44], bytes[45], bytes[46], bytes[47]) == key.cacheVersion
      && Word8(bytes[48], bytes[49], bytes[50], bytes[51], bytes[52], bytes[53], bytes[54], bytes[55]) == key.fingerprint
  {
    hide Read, Word4, Word8;
    ReadsWord4(bytes, 8);
    ReadsWord4(bytes, 12);
    ReadsWord8(bytes, 16);
    ReadsWord8(bytes, 24);
    ReadsWord8(bytes, 32);
    ReadsWord4(bytes, 40);
    ReadsWord4(bytes, 44);
    ReadsWord8(bytes, 48);
  }

  /** A number field holds `n` exactly when its bytes are those of `n`. */
  lemma FieldIs(field: Blob, n: nat)
    requires n < Pow256(|field|)
    ensures FromLE(field) == n <==> field == LE(n, |field|)
  {
    FromLEOfLE(n, |field|);
    LEOfFromLE(field);
  }

  /** The fields of a header before the ignored last eight bytes. */
  ghost predicate HasFields(bytes: Blob, key: Key, payloadLen: u64)
    requires |bytes| >= HEADER_SIZE
  {
    && bytes[0..8] == MAGIC && bytes[8..12] == LE(FORMAT_VERSION, 4) && bytes[12..16] == LE(Discriminant(key.kind), 4)
    && bytes[16..24] == LE(payloadLen, 8) && bytes[24..32] == LE(key.stamp.size, 8)
    && bytes[32..40] == LE(key.stamp.mtimeSecs, 8) && bytes[40..44] == LE(key.stamp.mtimeNanos, 4)
    && bytes[44..48] == LE(key.cacheVersion, 4) && bytes[48..56] == LE(key.fingerprint, 8)
  }

  lemma BuiltFields(key: Key, payloadLen: u64)
    ensures HasFields(BuildHeader(key, payloadLen), key, payloadLen)
  {
    hide LE;
  }

  lemma FieldsAreHeader(bytes: Blob, key: Key, payloadLen: u64)
    requires |bytes| >= HEADER_SIZE
    ensures HasFields(bytes, key, payloadLen) <==> bytes[..56] == BuildHeader(key, payloadLen)[..56]
  {
    hide LE;
    var header := BuildHeader(key, payloadLen);
    BuiltFields(key, payloadLen);
    if bytes[..56] == header[..56] {
      SamePrefixFields(bytes, header, key, payloadLen);
    }
    if HasFields(bytes, key, payloadLen) {
      assert bytes[..56] == bytes[0..8] + bytes[8..12] + bytes[12..16] + bytes[16..24] + bytes[24..32]
        + bytes[32..40] + bytes[40..44] + bytes[44..48] + bytes[48..56];
      assert header[..56] == header[0..8] + header[8..12] + header[12..16] + header[16..24] + header[24..32]
        + header[32..40] + header[40..44] + header[44..48] + header[48..56];
    }
  }

  lemma SamePrefixFields(bytes: Blob, header: Blob, key: Key, payloadLen: u64)
    requires |bytes| >= HEADER_SIZE && |header| >= HEADER_SIZE && bytes[..56] == header[..56]
    requires HasFields(header, key, payloadLen)
    ensures HasFields(bytes, key, payloadLen)
  {
    hide LE;
    SameSlice(bytes, header, 0, 8);
    SameSlice(bytes, header, 8, 12);
    SameSlice(bytes, header, 12, 16);
    SameSlice(bytes, header, 16, 24);
    SameSlice(bytes, header, 24, 32);
    SameSlice(bytes, header, 32, 40);
    SameSlice(bytes, header, 40, 44);
    SameSlice(bytes, header, 44, 48);
    SameSlice(bytes, header, 48, 56);
  }

  lemma SameSlice(a: Blob, b: Blob, i: nat, j: nat)
    requires i <= j <= 56 <= |a| && 56 <= |b| && a[..56] == b[..56]
    ensures a[i..j] == b[i..j]
  {
    assert a[..56][i..j] == a[i..j];
    assert b[..56][i..j] == b[i..j];
  }

  /** A header parses exactly when its first 56 bytes are the ones that would be
      built for the same key and length; the reserved bytes are ignored. */
  lemma ParsesIffBuilt(bytes: Blob, key: Key, payloadLen: u64)
    requires |bytes| >= HEADER_SIZE
    ensures ParseHeader(bytes, key) == Some(payloadLen) <==> bytes[..56] == BuildHeader(key, payloadLen)[..56]
  {
    hide LE, FromLE, BuildHeader;
    Widths();
    FieldIs(bytes[8..12], FORMAT_VERSION);
    FieldIs(bytes[12..16], Discriminant(key.kind));
    FieldIs(bytes[16..24], payloadLen);
    FieldIs(bytes[24..32], key.stamp.size);
    FieldIs(bytes[32..40], key.stamp.mtimeSecs);
    FieldIs(bytes[40..44], key.stamp.mtimeNanos);
    FieldIs(bytes[44..48], key.cacheVersion);
    FieldIs(bytes[48..56], key.fingerprint);
    FieldsAreHeader(bytes, key, payloadLen);
  }

  lemma ParsedLength(bytes: Blob, key: Key)
    requires ParseHeader(bytes, key).Some?
    ensures ParseHeader(bytes, key).value < U64
  {
    Widths();
    LEOfFromLE(bytes[16..24]);
  }

  // ----------------------------------------------------------------------- acceptance

  /** The bytes of a finished section file. */
  function Image(key: Key, payload: Blob): Blob
    requires |payload| < U64
  {
    BuildHeader(key, |payload|) + payload
  }

  /** A finished section, up to the reserved header bytes. */
  ghost predicate IsImage(file: Blob, key: Key, payload: Blob) {
    && |payload| + HEADER_SIZE < U64
    && |file| == HEADER_SIZE + |payload|
    && file[..56] == Image(key, payload)[..56]
    && file[HEADER_SIZE..] == payload
  }

  /** A file is accepted exactly when it is a finished section for the key whose
      payload can hold the root; a finished section is its header and payload and
      nothing else. */
  lemma AcceptsIff(file: Blob, key: Key, rootLen: nat, payload: Blob)
    requires |file| < U64
    ensures MapRaw(Some(file), key, rootLen) == Some(payload) <==> IsImage(file, key, payload) && rootLen <= |payload|
  {
    hide ParseHeader, BuildHeader;
    if |file| >= HEADER_SIZE {
      var head := file[..HEADER_SIZE];
      assert head[..56] == file[..56];
      if IsImage(file, key, payload) {
        assert Image(key, payload)[..56] == BuildHeader(key, |payload|)[..56];
        ParsesIffBuilt(head, key, |payload|);
      }
      if MapRaw(Some(file), key, rootLen) == Some(payload) {
        ParsedLength(head, key);
        ParsesIffBuilt(head, key, |payload|);
        assert Image(key, payload)[..56] == BuildHeader(key, |payload|)[..56];
      }
    }
  }

  /** What was published maps back. */
  lemma ImageMapsBack(key: Key, payload: Blob, rootLen: nat)
    requires rootLen <= |payload| && |payload| + HEADER_SIZE < U64
    ensures MapRaw(Some(Image(key, payload)), key, rootLen) == Some(payload)
  {
    var file := Image(key, payload);
    assert file[HEADER_SIZE..] == payload;
    AcceptsIff(file, key, rootLen, payload);
  }

  function ZeroHeader(): (z: Blob)
    ensures |z| == HEADER_SIZE
  {
    seq(HEADER_SIZE, _ => 0)
  }

  /** A temporary file whose real header was never written is refused under any key. */
  lemma ZeroHeaderRefused(rest: Blob, key: Key, rootLen: nat)
    ensures MapRaw(Some(ZeroHeader() + rest), key, rootLen) == None
  {
    var file := ZeroHeader() + rest;
    assert file[..HEADER_SIZE] == ZeroHeader();
    assert ZeroHeader()[0..8][0] == 0;
    assert MAGIC[0] != 0;
  }

  /** No file is accepted under two different keys. */
  lemma OneKeyPerFile(file: Blob, key: Key, key': Key, rootLen: nat, rootLen': nat)
    requires MapRaw(Some(file), key, rootLen).Some? && MapRaw(Some(file), key', rootLen').Some?
    ensures key == key'
  {
    var head := file[..HEADER_SIZE];
    assert Discriminant(key.kind) == Discriminant(key'.kind);
  }

  /** Neither a part of an accepted file nor an extension of it is accepted. */
  lemma ExactLength(file: Blob, more: Blob, key: Key, key': Key, rootLen: nat)
    requires |more| > 0 && MapRaw(Some(file), key, rootLen).Some?
    ensures MapRaw(Some(file + more), key', rootLen) == None
  {
    var longer := file + more;
    assert longer[..HEADER_SIZE] == file[..HEADER_SIZE];
  }

  // -------------------------------------------------------------------------- writing

  /** Where the write sequence is cut short, and whether the process dies there or
      only sees an error. */
  datatype Fault = NoFault | At(step: nat, crash: bool)

  datatype Outcome = Published | Errored | Crashed

  predicate Strikes(fault: Fault, step: nat) {
    fault.At? && fault.step == step
  }

  /** The section directory: what a process finds at each path. */
  class Directory {
    var files: map<string, Blob>

    constructor ()
      ensures files == map[]
    {
      files := map[];
    }

    /** The write failed or the process died before the rename. */
    method Abandon(tmp: string, fault: Fault) returns (outcome: Outcome)
      requires fault.At?
      modifies this
      ensures outcome == if fault.crash then Crashed else Errored
      ensures files == if fault.crash then old(files) else old(files) - {tmp}
    {
      if fault.crash {
        outcome := Crashed;
      } else {
        files := files - {tmp};
        outcome := Errored;
      }
    }

    /** Placeholder header, streamed payload, real header, rename. The payload
        arrives in the pieces the serializer hands to the writer. An error before the
        rename removes the temporary file; a rename that fails leaves it, finished. */
    method WriteSection(path: string, tmp: string, key: Key, pieces: seq<Blob>, fault: Fault) returns (outcome: Outcome)
      requires tmp != path && tmp !in files
      requires HEADER_SIZE + |Flatten(pieces)| < U64
      modifies this
      ensures outcome.Published? <==> fault.NoFault? || fault.step >= |pieces| + 4
      ensures outcome.Published? ==> files == old(files)[path := Image(key, Flatten(pieces))]
      ensures outcome.Errored? ==>
        files == if fault.step == |pieces| + 3 then old(files)[tmp := Image(key, Flatten(pieces))] else old(files)
      ensures outcome.Crashed? ==> files - {tmp} == old(files) && Debris(files, tmp, key, Flatten(pieces))
    {
      hide Flatten, BuildHeader, Image;
      ghost var before := files;
      if Strikes(fault, 0) {
        outcome := Abandon(tmp, fault);
        return;
      }
      files := files[tmp := ZeroHeader()];
      var payloadLen := 0;
      FlattenNone(pieces);
      assert ZeroHeader() + [] == ZeroHeader();
      for i := 0 to |pieces|
        invariant files == before[tmp := ZeroHeader() + Flatten(pieces[..i])]
        invariant payloadLen == |Flatten(pieces[..i])|
        invariant fault.At? ==> fault.step > i
      {
        if Strikes(fault, i + 1) {
          outcome := Abandon(tmp, fault);
          return;
        }
        FlattenLast(pieces, i);
        assert ZeroHeader() + Flatten(pieces[..i + 1]) == ZeroHeader() + Flatten(pieces[..i]) + pieces[i];
        files := files[tmp := files[tmp] + pieces[i]];
        payloadLen := payloadLen + |pieces[i]|;
      }
      assert pieces[..|pieces|] == pieces;
      if Strikes(fault, |pieces| + 1) {
        outcome := Abandon(tmp, fault);
        return;
      }
      HeaderReplaced(key, Flatten(pieces));
      files := files[tmp := BuildHeader(key, payloadLen) + files[tmp][HEADER_SIZE..]];
      if Strikes(fault, |pieces| + 2) {
        outcome := Abandon(tmp, fault);
        return;
      }
      if Strikes(fault, |pieces| + 3) {
        outcome := if fault.crash then Crashed else Errored;
        return;
      }
      files := (files - {tmp})[path := files[tmp]];
      outcome := Published;
    }
  }

  /** What a crash leaves at the temporary path: nothing, a file that still has its
      zero header, or the finished section. */
  ghost predicate Debris(files: map<string, Blob>, tmp: string, key: Key, payload: Blob)
    requires |payload| < U64
  {
    tmp !in files
    || (|files[tmp]| >= HEADER_SIZE && files[tmp][..HEADER_SIZE] == ZeroHeader())
    || files[tmp] == Image(key, payload)
  }

  ghost function Flatten(pieces: seq<Blob>): Blob {
    if |pieces| == 0 then [] else Flatten(pieces[..|pieces| - 1]) + pieces[|pieces| - 1]
  }

  lemma FlattenNone(pieces: seq<Blob>)
    ensures Flatten(pieces[..0]) == []
  {}

  lemma FlattenLast(pieces: seq<Blob>, i: nat)
    requires i < |pieces|
    ensures Flatten(pieces[..i + 1]) == Flatten(pieces[..i]) + pieces[i]
  {
    assert pieces[..i + 1][..i] == pieces[..i];
  }

  lemma HeaderReplaced(key: Key, payload: Blob)
    requires |payload| < U64
    ensures BuildHeader(key, |payload|) + (ZeroHeader() + payload)[HEADER_SIZE..] == Image(key, payload)
  {
    assert (ZeroHeader() + payload)[HEADER_SIZE..] == payload;
  }
}
