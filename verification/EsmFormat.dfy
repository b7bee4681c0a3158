/** The on-disk form of a plugin: records and groups of records, each behind a
    24-byte header, and the printers of the synthetic test files. */
module EsmFormat {
  import opened Bytes

  const HEADER_SIZE: nat := 24

  type Signature = s: Blob | |s| == 4 witness [0, 0, 0, 0]

  const GRUP_SIG: Signature := [0x47, 0x52, 0x55, 0x50]
  const TES4_SIG: Signature := [0x54, 0x45, 0x53, 0x34]

  /** The form version stamped on every synthetic record. */
  const TEST_FORM_VERSION: nat := 208

  datatype RecordHeader = RecordHeader(
    signature: Signature, dataSize: nat, flags: nat, formId: nat, vcs1: nat, formVersion: nat, vcs2: nat)

  datatype GroupHeader = GroupHeader(
    groupSize: nat, groupLabel: nat, groupType: int, stamp: nat, unknown: nat)

  /** A record or a group, as a writer sees it. */
  datatype Node =
    | Record(signature: Signature, flags: nat, formId: nat, vcs1: nat, formVersion: nat, vcs2: nat, data: Blob)
    | Group(groupLabel: nat, groupType: int, stamp: nat, unknown: nat, children: seq<Node>)

  // ------------------------------------------------------------------- signed fields

  function ToU32(i: int): nat
    requires -0x8000_0000 <= i < 0x8000_0000
  {
    if i < 0 then i + U32 else i
  }

  function ToI32(n: nat): int {
    if n < 0x8000_0000 then n else n - U32
  }

  // ------------------------------------------------------------------------ parsers

  function ParseRecordHeader(data: Blob, pos: nat): RecordHeader
    requires pos + HEADER_SIZE <= |data|
  {
    RecordHeader(data[pos..pos + 4], Read(data, pos + 4, 4), Read(data, pos + 8, 4), Read(data, pos + 12, 4),
                 Read(data, pos + 16, 4), Read(data, pos + 20, 2), Read(data, pos + 22, 2))
  }

  function ParseGroupHeader(data: Blob, pos: nat): GroupHeader
    requires pos + HEADER_SIZE <= |data|
  {
    GroupHeader(Read(data, pos + 4, 4), Read(data, pos + 8, 4), ToI32(Read(data, pos + 12, 4)),
                Read(data, pos + 16, 4), Read(data, pos + 20, 4))
  }

  // ------------------------------------------------------------- the headers' bytes

  /** At which byte of a record header each field lies. */
  lemma RecordHeaderBytes(data: Blob, pos: nat)
    requires pos + HEADER_SIZE <= |data|
    ensures var h, b := ParseRecordHeader(data, pos), data[pos..pos + 24];
      && h.signature == b[..4]
      && h.dataSize == Word4(b[4], b[5], b[6], b[7])
      && h.flags == Word4(b[8], b[9], b[10], b[11])
      && h.formId == Word4(b[12], b[13], b[14], b[15])
      && h.vcs1 == Word4(b[16], b[17], b[18], b[19])
      && h.formVersion == Word2(b[20], b[21])
      && h.vcs2 == Word2(b[22], b[23])
  {
    hide Read, Word2, Word4;
    ReadsWord4(data, pos + 4);
    ReadsWord4(data, pos + 8);
    ReadsWord4(data, pos + 12);
    ReadsWord4(data, pos + 16);
    ReadsWord2(data, pos + 20);
    ReadsWord2(data, pos + 22);
    assert data[pos..pos + 24][..4] == data[pos..pos + 4];
  }

  /** The same for a group header, whose size counts the header; its type is signed, so
      one with the top bit set is negative. */
  lemma GroupHeaderBytes(data: Blob, pos: nat)
    requires pos + HEADER_SIZE <= |data|
    ensures var h, b := ParseGroupHeader(data, pos), data[pos..pos + 24];
      && h.groupSize == Word4(b[4], b[5], b[6], b[7])
      && h.groupLabel == Word4(b[8], b[9], b[10], b[11])
      && h.groupType == Word4(b[12], b[13], b[14], b[15]) - (if b[15] >= 0x80 then 0x1_0000_0000 else 0)
      && h.stamp == Word4(b[16], b[17], b[18], b[19])
      && h.unknown == Word4(b[20], b[21], b[22], b[23])
  {
    hide Read;
    ReadsWord4(data, pos + 4);
    ReadsWord4(data, pos + 8);
    ReadsWord4(data, pos + 12);
    ReadsWord4(data, pos + 16);
    ReadsWord4(data, pos + 20);
  }

  // ----------------------------------------------------------------------- printers

  function PrintRecordHeader(h: RecordHeader): (s: Blob)
    ensures |s| == HEADER_SIZE
  {
    h.signature + LE(h.dataSize, 4) + LE(h.flags, 4) + LE(h.formId, 4) + LE(h.vcs1, 4) + LE(h.formVersion, 2) + LE(h.vcs2, 2)
  }

  function PrintGroupHeader(h: GroupHeader): (s: Blob)
    requires -0x8000_0000 <= h.groupType < 0x8000_0000
    ensures |s| == HEADER_SIZE
  {
    GRUP_SIG + LE(h.groupSize, 4) + LE(h.groupLabel, 4) + LE(ToU32(h.groupType), 4) + LE(h.stamp, 4) + LE(h.unknown, 4)
  }

  ghost predicate FitsRecordHeader(h: RecordHeader) {
    h.dataSize < U32 && h.flags < U32 && h.formId < U32 && h.vcs1 < U32 && h.formVersion < U16 && h.vcs2 < U16
  }

  ghost predicate FitsGroupHeader(h: GroupHeader) {
    && h.groupSize < U32 && h.groupLabel < U32 && h.stamp < U32 && h.unknown < U32
    && -0x8000_0000 <= h.groupType < 0x8000_0000
  }

  /** Whatever follows or precedes it, a printed record header is read back. */
  lemma RecordHeaderRoundTrip(h: RecordHeader, pre: Blob, post: Blob)
    requires FitsRecordHeader(h)
    ensures ParseRecordHeader(pre + PrintRecordHeader(h) + post, |pre|) == h
  {
    hide LE, FromLE, Read;
    Widths();
    var s := PrintRecordHeader(h);
    var a, b, c, d, e, f := LE(h.dataSize, 4), LE(h.flags, 4), LE(h.formId, 4), LE(h.vcs1, 4), LE(h.formVersion, 2), LE(h.vcs2, 2);
    assert s[..4] == h.signature;
    assert (pre + s + post)[|pre|..|pre| + 4] == s[..4];
    FieldAt(h.signature, h.dataSize, 4, b + c + d + e + f, s, pre, post);
    FieldAt(h.signature + a, h.flags, 4, c + d + e + f, s, pre, post);
    FieldAt(h.signature + a + b, h.formId, 4, d + e + f, s, pre, post);
    FieldAt(h.signature + a + b + c, h.vcs1, 4, e + f, s, pre, post);
    FieldAt(h.signature + a + b + c + d, h.formVersion, 2, f, s, pre, post);
    FieldAt(h.signature + a + b + c + d + e, h.vcs2, 2, [], s, pre, post);
  }

  lemma FieldAt(before: Blob, n: nat, k: nat, after: Blob, s: Blob, pre: Blob, post: Blob)
    requires n < Pow256(k) && s == before + LE(n, k) + after
    ensures Read(pre + s + post, |pre| + |before|, k) == n
  {
    hide LE, FromLE;
    ReadField(before, n, k, after);
    ReadShift(pre, s, post, |before|, k);
  }

  lemma GroupHeaderRoundTrip(h: GroupHeader, pre: Blob, post: Blob)
    requires FitsGroupHeader(h)
    ensures (pre + PrintGroupHeader(h) + post)[|pre|..|pre| + 4] == GRUP_SIG
    ensures ParseGroupHeader(pre + PrintGroupHeader(h) + post, |pre|) == h
  {
    hide LE, FromLE, Read;
    Widths();
    var s := PrintGroupHeader(h);
    var a, b, c, d, e := LE(h.groupSize, 4), LE(h.groupLabel, 4), LE(ToU32(h.groupType), 4), LE(h.stamp, 4), LE(h.unknown, 4);
    assert s[..4] == GRUP_SIG;
    assert (pre + s + post)[|pre|..|pre| + 4] == s[..4];
    FieldAt(GRUP_SIG, h.groupSize, 4, b + c + d + e, s, pre, post);
    FieldAt(GRUP_SIG + a, h.groupLabel, 4, c + d + e, s, pre, post);
    FieldAt(GRUP_SIG + a + b, ToU32(h.groupType), 4, d + e, s, pre, post);
    FieldAt(GRUP_SIG + a + b + c, h.stamp, 4, e, s, pre, post);
    FieldAt(GRUP_SIG + a + b + c + d, h.unknown, 4, [], s, pre, post);
  }

  // ------------------------------------------------------------------ whole forests

  function HeaderOf(n: Node): RecordHeader
    requires n.Record?
  {
    RecordHeader(n.signature, |n.data|, n.flags, n.formId, n.vcs1, n.formVersion, n.vcs2)
  }

  /** Group types are signed 32-bit numbers. */
  predicate Printable(n: Node) {
    match n
    case Record(_, _, _, _, _, _, _) => true
    case Group(_, t, _, _, children) => -0x8000_0000 <= t < 0x8000_0000 && AllPrintable(children)
  }

  predicate AllPrintable(ns: seq<Node>) {
    |ns| > 0 ==> Printable(ns[0]) && AllPrintable(ns[1..])
  }

  function Print(n: Node): (s: Blob)
    requires Printable(n)
    ensures |s| >= HEADER_SIZE
  {
    match n
    case Record(_, _, _, _, _, _, data) => PrintRecordHeader(HeaderOf(n)) + data
    case Group(groupLabel, t, stamp, unknown, children) =>
      var body := PrintAll(children);
      PrintGroupHeader(GroupHeader(HEADER_SIZE + |body|, groupLabel, t, stamp, unknown)) + body
  }

  function PrintAll(ns: seq<Node>): Blob
    requires AllPrintable(ns)
  {
    if |ns| == 0 then [] else Print(ns[0]) + PrintAll(ns[1..])
  }

  /** Every field fits its width and no record is signed as a group. */
  ghost predicate Valid(n: Node)
    requires Printable(n)
  {
    match n
    case Record(sig, _, _, _, _, _, _) => sig != GRUP_SIG && FitsRecordHeader(HeaderOf(n))
    case Group(groupLabel, t, stamp, unknown, children) =>
      FitsGroupHeader(GroupHeader(|Print(n)|, groupLabel, t, stamp, unknown)) && AllValid(children)
  }

  ghost predicate AllValid(ns: seq<Node>)
    requires AllPrintable(ns)
  {
    |ns| > 0 ==> Valid(ns[0]) && AllValid(ns[1..])
  }

  // ------------------------------------------------------- the synthetic test files

  /** A synthetic record: no flags, no version-control stamps. */
  function TestRecord(sig: Signature, formId: nat, subrecords: Blob): Node {
    Record(sig, 0, formId, 0, TEST_FORM_VERSION, 0, subrecords)
  }

  method AppendRecord(buf: Blob, sig: Signature, formId: nat, subrecords: Blob) returns (r: Blob)
    ensures r == buf + Print(TestRecord(sig, formId, subrecords))
  {
    hide LE;
    r := buf + sig;
    r := r + LE(|subrecords|, 4);
    r := r + LE(0, 4);
    r := r + LE(formId, 4);
    r := r + LE(0, 4);
    r := r + LE(TEST_FORM_VERSION, 2);
    r := r + LE(0, 2);
    r := r + subrecords;
  }

  /** A synthetic group around an already printed body. */
  method Grup(groupLabel: nat, groupType: int, children: seq<Node>) returns (r: Blob)
    requires -0x8000_0000 <= groupType < 0x8000_0000 && AllPrintable(children)
    ensures r == Print(Group(groupLabel, groupType, 0, 0, children))
  {
    hide LE;
    var body := PrintAll(children);
    r := GRUP_SIG;
    r := r + LE(HEADER_SIZE + |body|, 4);
    r := r + LE(groupLabel, 4);
    r := r + LE(ToU32(groupType), 4);
    r := r + LE(0, 4);
    r := r + LE(0, 4);
    r := r + body;
  }

  /** A synthetic record carries form version 208 and nothing in its flags and stamps. */
  lemma SyntheticHeader(sig: Signature, formId: nat, subrecords: Blob)
    requires formId < U32 && |subrecords| < U32
    ensures var h := ParseRecordHeader(Print(TestRecord(sig, formId, subrecords)), 0);
      h == RecordHeader(sig, |subrecords|, 0, formId, 0, 208, 0)
  {
    hide ParseRecordHeader, PrintRecordHeader;
    var n := TestRecord(sig, formId, subrecords);
    RecordHeaderRoundTrip(HeaderOf(n), [], subrecords);
    assert Print(n) == [] + PrintRecordHeader(HeaderOf(n)) + subrecords;
  }
}
