/** Localisation string files: an index of ids and offsets over one block of texts, either
    zero-terminated or length-prefixed, read into the compact table. */
module StringFile {
  import opened Wrappers
  import opened Bytes
  import opened Sorting
  import opened StringTable

  /** `Strings` files end each text with a zero byte; `DlStrings` and `IlStrings` files
      count it in a length in front. */
  datatype Kind = ZeroTerminated | LengthPrefixed

  datatype ParseError = TooSmall | IndexOutOfRange | DataOutOfRange

  const INDEX_START: nat := 8
  const INDEX_ENTRY: nat := 8

  // ------------------------------------------------------------------------- parsing

  /** The text from `offset` up to the first zero byte, or to the end. */
  function UpToZero(data: Blob, offset: nat): Blob
    requires offset <= |data|
    decreases |data| - offset
  {
    if offset == |data| || data[offset] == 0 then [] else [data[offset]] + UpToZero(data, offset + 1)
  }

  function Min(a: nat, b: nat): nat {
    if a < b then a else b
  }

  /** The text an index entry points to; nothing when it points outside. A length that
      reaches beyond the block is cut short. */
  function TextAt(kind: Kind, data: Blob, offset: nat): Option<Blob> {
    match kind
    case ZeroTerminated => if offset >= |data| then None else Some(UpToZero(data, offset))
    case LengthPrefixed =>
      if offset + 4 > |data| then None
      else
        var start := offset + 4;
        var end := Min(start + Read(data, offset, 4), |data|);
        Some(data[start..if end > start && data[end - 1] == 0 then end - 1 else end])
  }

  /** The entries from index `i` on that point into the block. */
  function EntriesFrom(bytes: Blob, kind: Kind, data: Blob, i: nat, count: nat): seq<Entry>
    requires i <= count && INDEX_START + INDEX_ENTRY * count <= |bytes|
    decreases count - i
  {
    if i == count then []
    else
      var base := INDEX_START + INDEX_ENTRY * i;
      var text := TextAt(kind, data, Read(bytes, base + 4, 4));
      (if text.Some? then [(Read(bytes, base, 4), text.value)] else []) + EntriesFrom(bytes, kind, data, i + 1, count)
  }

  /** What a file lists. */
  function EntriesOf(bytes: Blob, kind: Kind): Result<seq<Entry>, ParseError> {
    if |bytes| < INDEX_START then Err(TooSmall)
    else
      var count, dataStart := Read(bytes, 0, 4), INDEX_START + INDEX_ENTRY * Read(bytes, 0, 4);
      var dataEnd := dataStart + Read(bytes, 4, 4);
      if dataStart > |bytes| then Err(IndexOutOfRange)
      else if dataEnd > |bytes| then Err(DataOutOfRange)
      else Ok(EntriesFrom(bytes, kind, bytes[dataStart..dataEnd], 0, count))
  }

  /** The header of a file, byte by byte: how many index entries, and how many bytes of
      texts, both of which must be there. */
  lemma FileHeaderBytes(bytes: Blob, kind: Kind)
    requires |bytes| >= 8
    ensures var count, size := Word4(bytes[0], bytes[1], bytes[2], bytes[3]), Word4(bytes[4], bytes[5], bytes[6], bytes[7]);
      && (8 + 8 * count > |bytes| ==> EntriesOf(bytes, kind) == Err(IndexOutOfRange))
      && (8 + 8 * count <= |bytes| < 8 + 8 * count + size ==> EntriesOf(bytes, kind) == Err(DataOutOfRange))
      && (8 + 8 * count + size <= |bytes| ==>
            EntriesOf(bytes, kind) == Ok(EntriesFrom(bytes, kind, bytes[8 + 8 * count..8 + 8 * count + size], 0, count)))
  {
    hide Read, Word4, EntriesFrom;
    ReadsWord4(bytes, 0);
    ReadsWord4(bytes, 4);
  }

  /** An index entry, byte by byte: the id, then where its text begins in the block. What
      points outside the block is left out. */
  lemma IndexEntryBytes(bytes: Blob, kind: Kind, data: Blob, i: nat, count: nat)
    requires i < count && 8 + 8 * count <= |bytes|
    ensures var b := bytes[8 + 8 * i..16 + 8 * i];
      var text := TextAt(kind, data, Word4(b[4], b[5], b[6], b[7]));
      EntriesFrom(bytes, kind, data, i, count)
        == (if text.Some? then [(Word4(b[0], b[1], b[2], b[3]), text.value)] else []) + EntriesFrom(bytes, kind, data, i + 1, count)
  {
    hide Read, Word4, TextAt;
    ReadsWord4(bytes, 8 + 8 * i);
    ReadsWord4(bytes, 8 + 8 * i + 4);
  }

  /** A text with its length in front: the length counts a final zero byte, which is not
      part of the text, and is cut at the end of the block. */
  lemma PrefixedTextBytes(data: Blob, offset: nat, text: Blob)
    ensures TextAt(LengthPrefixed, data, offset) == Some(text) <==>
      && offset + 4 <= |data|
      && var n := Word4(data[offset], data[offset + 1], data[offset + 2], data[offset + 3]);
         var rest := data[offset + 4..];
         var raw := if n <= |rest| then rest[..n] else rest;
         raw == text + [0] || (raw == text && (raw == [] || raw[|raw| - 1] != 0))
  {
    hide Read, Word4;
    if offset + 4 <= |data| {
      ReadsWord4(data, offset);
      var n, rest := Read(data, offset, 4), data[offset + 4..];
      var raw := if n <= |rest| then rest[..n] else rest;
      var start, end := offset + 4, Min(offset + 4 + n, |data|);
      assert raw == data[start..end];
      WithoutZero(data, start, end, text);
    }
  }

  lemma WithoutZero(data: Blob, start: nat, end: nat, text: Blob)
    requires start <= end <= |data|
    ensures var raw := data[start..end];
      data[start..if end > start && data[end - 1] == 0 then end - 1 else end] == text <==>
        raw == text + [0] || (raw == text && (raw == [] || raw[|raw| - 1] != 0))
  {
    var raw := data[start..end];
    if end > start && data[end - 1] == 0 {
      assert raw == data[start..end - 1] + [0];
      assert (text + [0])[..|text|] == text && raw[..|raw| - 1] == data[start..end - 1];
    }
  }

  /** Finds the end of a zero-terminated text. */
  method ScanToZero(data: Blob, offset: nat) returns (text: Blob)
    requires offset <= |data|
    ensures text == UpToZero(data, offset)
  {
    var end := offset;
    assert data[offset..offset] + UpToZero(data, offset) == UpToZero(data, offset);
    while end < |data| && data[end] != 0
      invariant offset <= end <= |data|
      invariant data[offset..end] + UpToZero(data, end) == UpToZero(data, offset)
    {
      assert data[offset..end + 1] + UpToZero(data, end + 1) == data[offset..end] + ([data[end]] + UpToZero(data, end + 1));
      end := end + 1;
    }
    text := data[offset..end];
    assert text + [] == text;
  }

  method ReadText(kind: Kind, data: Blob, offset: nat) returns (text: Option<Blob>)
    ensures text == TextAt(kind, data, offset)
  {
    match kind {
      case ZeroTerminated =>
        if offset >= |data| {
          return None;
        }
        var scanned := ScanToZero(data, offset);
        text := Some(scanned);
      case LengthPrefixed =>
        if offset + 4 > |data| {
          return None;
        }
        var start := offset + 4;
        var end := Min(start + Read(data, offset, 4), |data|);
        var textEnd := if end > start && data[end - 1] == 0 then end - 1 else end;
        text := Some(data[start..textEnd]);
    }
  }

  /** Reads the header, the index and every text it points to, and builds the table. */
  method ParseTable(bytes: Blob, kind: Kind) returns (r: Result<Table, ParseError>)
    ensures r.Ok? <==> EntriesOf(bytes, kind).Ok?
    ensures r.Err? ==> r.error == EntriesOf(bytes, kind).error
    ensures r.Ok? ==> Over(r.value, Kept(SortByKey(EntriesOf(bytes, kind).value)))
  {
    hide Over, Kept, SortByKey, FromLE, TextAt;
    if |bytes| < INDEX_START {
      return Err(TooSmall);
    }
    var count, dataSize := Read(bytes, 0, 4), Read(bytes, 4, 4);
    var indexEnd := INDEX_START + INDEX_ENTRY * count;
    if indexEnd > |bytes| {
      return Err(IndexOutOfRange);
    }
    if indexEnd + dataSize > |bytes| {
      return Err(DataOutOfRange);
    }
    var data := bytes[indexEnd..indexEnd + dataSize];
    var entries: seq<Entry> := [];
    for i := 0 to count
      invariant entries + EntriesFrom(bytes, kind, data, i, count) == EntriesFrom(bytes, kind, data, 0, count)
    {
      var base := INDEX_START + INDEX_ENTRY * i;
      var text := ReadText(kind, data, Read(bytes, base + 4, 4));
      var own: seq<Entry> := if text.Some? then [(Read(bytes, base, 4), text.value)] else [];
      ghost var rest := EntriesFrom(bytes, kind, data, i + 1, count);
      assert entries + (own + rest) == entries + own + rest;
      entries := entries + own;
    }
    assert entries + [] == entries;
    var t := FromEntries(entries);
    r := Ok(t);
  }

  /** A zero-terminated text has no zero byte, and ends at one or where the block ends. */
  lemma {:induction false} UpToZeroLaw(data: Blob, offset: nat)
    requires offset <= |data|
    ensures var text := UpToZero(data, offset);
      && 0 !in text && offset + |text| <= |data| && data[offset..offset + |text|] == text
      && (offset + |text| == |data| || data[offset + |text|] == 0)
    decreases |data| - offset
  {
    if offset < |data| && data[offset] != 0 {
      UpToZeroLaw(data, offset + 1);
      var rest := UpToZero(data, offset + 1);
      assert data[offset..offset + 1 + |rest|] == [data[offset]] + data[offset + 1..offset + 1 + |rest|];
    }
  }

  // ------------------------------------------------------------------------- printing

  function PrintText(kind: Kind, text: Blob): Blob {
    match kind
    case ZeroTerminated => text + [0]
    case LengthPrefixed => LE(|text| + 1, 4) + text + [0]
  }

  /** The block of texts, one after the other. */
  function PrintTexts(kind: Kind, entries: seq<Entry>): Blob {
    if |entries| == 0 then []
    else PrintTexts(kind, entries[..|entries| - 1]) + PrintText(kind, entries[|entries| - 1].1)
  }

  function IndexEntry(kind: Kind, entries: seq<Entry>, i: nat): Blob
    requires i < |entries|
  {
    LE(entries[i].0, 4) + LE(|PrintTexts(kind, entries[..i])|, 4)
  }

  /** The first `k` index entries. */
  function PrintIndex(kind: Kind, entries: seq<Entry>, k: nat): (s: Blob)
    requires k <= |entries|
    ensures |s| == INDEX_ENTRY * k
  {
    if k == 0 then [] else PrintIndex(kind, entries, k - 1) + IndexEntry(kind, entries, k - 1)
  }

  function PrintFile(kind: Kind, entries: seq<Entry>): Blob {
    LE(|entries|, 4) + LE(|PrintTexts(kind, entries)|, 4) + PrintIndex(kind, entries, |entries|) + PrintTexts(kind, entries)
  }

  /** Every number fits its field. */
  ghost predicate Fits(kind: Kind, entries: seq<Entry>) {
    |entries| < U32 && |PrintTexts(kind, entries)| < U32 && forall e <- entries :: e.0 < U32
  }

  // ----------------------------------------------------------------------- round trip

  /** What a printed text reads as: a zero byte inside ends a zero-terminated one. */
  function Legible(kind: Kind, text: Blob): Blob {
    if kind.ZeroTerminated? then UpToZero(text, 0) else text
  }

  lemma {:induction false} UpToZeroOf(text: Blob, pre: Blob, post: Blob, i: nat)
    requires i <= |text|
    ensures UpToZero(pre + (text + [0]) + post, |pre| + i) == UpToZero(text, i)
    decreases |text| - i
  {
    var data := pre + (text + [0]) + post;
    assert data[|pre| + i] == (text + [0])[i];
    if i < |text| {
      UpToZeroOf(text, pre, post, i + 1);
    }
  }

  /** A printed text is found again wherever it stands. */
  lemma TextRead(kind: Kind, text: Blob, pre: Blob, post: Blob)
    requires kind.LengthPrefixed? ==> |text| + 1 < U32
    ensures TextAt(kind, pre + PrintText(kind, text) + post, |pre|) == Some(Legible(kind, text))
  {
    hide LE, FromLE, Pow256, UpToZero;
    var data := pre + PrintText(kind, text) + post;
    match kind
    case ZeroTerminated => UpToZeroOf(text, pre, post, 0);
    case LengthPrefixed =>
      Widths();
      ReadField(pre, |text| + 1, 4, text + [0] + post);
      assert data == pre + LE(|text| + 1, 4) + (text + [0] + post);
      var start := |pre| + 4;
      assert data[start..start + |text| + 1] == text + [0];
      assert data[start..start + |text|] == text && data[start + |text|] == 0;
  }

  lemma {:induction false} TextsStep(kind: Kind, entries: seq<Entry>, i: nat)
    requires i < |entries|
    ensures PrintTexts(kind, entries[..i]) + PrintText(kind, entries[i].1) <= PrintTexts(kind, entries)
    decreases |entries|
  {
    hide PrintText;
    var n := |entries| - 1;
    if i < n {
      TextsStep(kind, entries[..n], i);
      assert entries[..n][..i] == entries[..i];
    }
  }

  lemma {:induction false} IndexStep(kind: Kind, entries: seq<Entry>, i: nat, k: nat)
    requires i < k <= |entries|
    ensures PrintIndex(kind, entries, i) + IndexEntry(kind, entries, i) <= PrintIndex(kind, entries, k)
    decreases k
  {
    hide IndexEntry;
    if i < k - 1 {
      IndexStep(kind, entries, i, k - 1);
    }
  }

  function LegibleEntries(kind: Kind, entries: seq<Entry>): (r: seq<Entry>)
    ensures |r| == |entries|
  {
    seq(|entries|, i requires 0 <= i < |entries| => (entries[i].0, Legible(kind, entries[i].1)))
  }

  /** The `i`th index entry of a printed file leads back to its id and text. */
  lemma EntryRead(kind: Kind, entries: seq<Entry>, i: nat)
    requires Fits(kind, entries) && i < |entries|
    ensures var bytes, base := PrintFile(kind, entries), INDEX_START + INDEX_ENTRY * i;
      && base + INDEX_ENTRY <= |bytes|
      && Read(bytes, base, 4) == entries[i].0
      && TextAt(kind, PrintTexts(kind, entries), Read(bytes, base + 4, 4)) == Some(Legible(kind, entries[i].1))
  {
    hide LE, FromLE, Pow256, TextAt, Legible, PrintTexts, PrintIndex, PrintText;
    Widths();
    var data, index := PrintTexts(kind, entries), PrintIndex(kind, entries, |entries|);
    var offset := |PrintTexts(kind, entries[..i])|;
    TextsStep(kind, entries, i);
    IndexStep(kind, entries, i, |entries|);
    assert entries[i] in entries && offset < U32;
    var head := LE(|entries|, 4) + LE(|data|, 4);
    var pre := head + PrintIndex(kind, entries, i);
    var post := index[|PrintIndex(kind, entries, i)| + INDEX_ENTRY..] + data;
    assert PrintFile(kind, entries) == pre + LE(entries[i].0, 4) + (LE(offset, 4) + post);
    assert PrintFile(kind, entries) == (pre + LE(entries[i].0, 4)) + LE(offset, 4) + post;
    ReadField(pre, entries[i].0, 4, LE(offset, 4) + post);
    ReadField(pre + LE(entries[i].0, 4), offset, 4, post);
    var before, text := PrintTexts(kind, entries[..i]), PrintText(kind, entries[i].1);
    TextFits(kind, entries[i].1);
    TextRead(kind, entries[i].1, before, data[|before| + |text|..]);
    assert data == before + text + data[|before| + |text|..];
  }

  lemma TextFits(kind: Kind, text: Blob)
    ensures |text| + 1 <= |PrintText(kind, text)|
    ensures kind.LengthPrefixed? && |PrintText(kind, text)| < U32 ==> |text| + 1 < U32
  {}

  lemma {:induction false} EntriesRead(kind: Kind, entries: seq<Entry>, i: nat)
    requires Fits(kind, entries) && i <= |entries|
    ensures |PrintFile(kind, entries)| >= INDEX_START + INDEX_ENTRY * |entries|
    ensures EntriesFrom(PrintFile(kind, entries), kind, PrintTexts(kind, entries), i, |entries|) == LegibleEntries(kind, entries)[i..]
    decreases |entries| - i
  {
    hide PrintFile, PrintTexts, TextAt, Legible;
    FileLength(kind, entries);
    if i < |entries| {
      EntryRead(kind, entries, i);
      EntriesRead(kind, entries, i + 1);
      var all := LegibleEntries(kind, entries);
      assert all[i..] == [all[i]] + all[i + 1..];
    }
  }

  lemma FileLength(kind: Kind, entries: seq<Entry>)
    ensures |PrintFile(kind, entries)| == INDEX_START + INDEX_ENTRY * |entries| + |PrintTexts(kind, entries)|
  {}

  /** A printed file lists its entries again, in order, with what is legible of each text. */
  lemma FileReadBack(kind: Kind, entries: seq<Entry>)
    requires Fits(kind, entries)
    ensures EntriesOf(PrintFile(kind, entries), kind) == Ok(LegibleEntries(kind, entries))
  {
    hide LE, FromLE, Pow256, PrintTexts, PrintIndex, EntriesFrom;
    Widths();
    var data, index := PrintTexts(kind, entries), PrintIndex(kind, entries, |entries|);
    var bytes := PrintFile(kind, entries);
    FileLength(kind, entries);
    ReadField([], |entries|, 4, LE(|data|, 4) + index + data);
    assert bytes == [] + LE(|entries|, 4) + (LE(|data|, 4) + index + data);
    ReadField(LE(|entries|, 4), |data|, 4, index + data);
    assert bytes == LE(|entries|, 4) + LE(|data|, 4) + (index + data);
    var start := INDEX_START + INDEX_ENTRY * |entries|;
    assert bytes[start..start + |data|] == data;
    EntriesRead(kind, entries, 0);
  }

  /** The round trip is exact unless a zero-terminated text has a zero byte inside. */
  lemma FileRoundTripIff(kind: Kind, entries: seq<Entry>)
    requires Fits(kind, entries)
    ensures EntriesOf(PrintFile(kind, entries), kind) == Ok(entries)
       <==> (kind.ZeroTerminated? ==> forall e <- entries :: 0 !in e.1)
  {
    hide PrintFile;
    FileReadBack(kind, entries);
    forall i | 0 <= i < |entries| ensures UpToZero(entries[i].1, 0) == entries[i].1 <==> 0 !in entries[i].1 {
      var text := entries[i].1;
      UpToZeroLaw(text, 0);
      assert text[..|text|] == text;
    }
    var legible := LegibleEntries(kind, entries);
    if kind.LengthPrefixed? || forall e <- entries :: 0 !in e.1 {
      forall i | 0 <= i < |entries| ensures legible[i] == entries[i] {
        assert entries[i] in entries;
      }
      assert legible == entries;
    }
    if legible == entries {
      forall e <- entries ensures kind.ZeroTerminated? ==> 0 !in e.1 {
        var i :| 0 <= i < |entries| && entries[i] == e;
        assert legible[i] == entries[i];
      }
    }
  }

  // ------------------------------------------------------------------ from file to lookup

  /** The bytes of all texts together. */
  function Volume(entries: seq<Entry>): nat {
    if |entries| == 0 then 0 else |entries[0].1| + Volume(entries[1..])
  }

  lemma {:induction false} InsertVolume(x: Entry, xs: seq<Entry>)
    ensures Volume(Insert(x, xs)) == |x.1| + Volume(xs)
  {
    if |xs| > 0 && x.0 > xs[0].0 {
      InsertVolume(x, xs[1..]);
    }
  }

  lemma {:induction false} SortVolume(xs: seq<Entry>)
    ensures Volume(SortByKey(xs)) == Volume(xs)
  {
    if |xs| > 0 {
      SortVolume(xs[1..]);
      InsertVolume(xs[0], SortByKey(xs[1..]));
    }
  }

  lemma {:induction false} KeptVolume(sorted: seq<Entry>)
    ensures Volume(Kept(sorted)) <= Volume(sorted)
  {
    if |sorted| > 0 {
      KeptVolume(sorted[1..]);
    }
  }

  lemma {:induction false} VolumeLast(xs: seq<Entry>)
    requires |xs| > 0
    ensures Volume(xs) == Volume(xs[..|xs| - 1]) + |xs[|xs| - 1].1|
  {
    if |xs| > 1 {
      VolumeLast(xs[1..]);
      assert xs[1..][..|xs| - 2] == xs[..|xs| - 1][1..];
    }
  }

  lemma {:induction false} TextsVolume(kept: seq<Entry>)
    ensures |Texts(kept)| == Volume(kept)
    decreases |kept|
  {
    if |kept| > 0 {
      TextsVolume(kept[..|kept| - 1]);
      VolumeLast(kept);
    }
  }

  lemma {:induction false} PrintedVolume(kind: Kind, entries: seq<Entry>)
    ensures Volume(entries) <= |PrintTexts(kind, entries)|
    decreases |entries|
  {
    if |entries| > 0 {
      PrintedVolume(kind, entries[..|entries| - 1]);
      VolumeLast(entries);
    }
  }

  /** Looking an id up in the table read from a printed file gives the last text printed
      for it, and nothing for an id that was not printed. */
  lemma PrintedFileAnswers(kind: Kind, entries: seq<Entry>, t: Table)
    requires Fits(kind, entries) && (kind.ZeroTerminated? ==> forall e <- entries :: 0 !in e.1)
    requires EntriesOf(PrintFile(kind, entries), kind).Ok?
    requires Over(t, Kept(SortByKey(EntriesOf(PrintFile(kind, entries), kind).value)))
    ensures StrictKeys(t.ids) && |t.ids| == |t.ends| && ReadsBack(t, entries)
    ensures forall id | id !in t.ids :: LastWins(entries, id) == None
  {
    hide PrintFile, EntriesOf, Kept, SortByKey, Texts, PrintTexts, LastWins;
    FileRoundTripIff(kind, entries);
    TableLaw(t, entries);
    SortVolume(entries);
    KeptVolume(SortByKey(entries));
    TextsVolume(Kept(SortByKey(entries)));
    PrintedVolume(kind, entries);
  }
}
