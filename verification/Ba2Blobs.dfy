/** How one piece of data is stored in an archive and read back: compressed when that
    shrinks it enough, in pieces laid back to back. */
module Ba2Blobs {
  import opened Wrappers
  import opened Bytes
  import opened Ba2Format

  /** The foreign parts: path normalisation and hashing, and one compression codec. */
  datatype World = World(
    normalize: Blob -> Blob,
    hash: Blob -> PathHash,
    deflate: Blob -> Blob,
    inflate: Blob -> Option<Blob>)

  /** What is taken from the libraries: normalising twice changes nothing, hashes fit
      their fields, compressed data is not empty and inflates to what it came from. */
  ghost predicate Lawful(w: World) {
    && (forall n :: w.normalize(w.normalize(n)) == w.normalize(n))
    && (forall n :: FitsPathHash(w.hash(n)))
    && (forall x :: |w.deflate(x)| > 0 && w.inflate(w.deflate(x)) == Some(x))
  }

  /** A file to pack: its path in the archive and its content. */
  datatype SourceFile = SourceFile(path: Blob, raw: Blob)

  datatype WriteError = TooManyFiles | TooLarge | PathTooLong | NotATexture | Overrun | Overflow

  datatype ReadError = NotFound | Broken

  /** `store` keeps everything uncompressed. */
  datatype Options = Options(store: bool, minShrinkRatio: real)

  const MAX_DECOMP_SIZE: nat := 64 * 1024 * 1024

  function Threshold(opts: Options, rawLen: nat): nat {
    var t := (rawLen as real * opts.minShrinkRatio).Floor;
    if t < 0 then 0 else t
  }

  predicate Compresses(w: World, opts: Options, data: Blob) {
    !opts.store && |w.deflate(data)| < Threshold(opts, |data|)
  }

  /** The stored bytes of a piece. */
  function Stored(w: World, opts: Options, data: Blob): Blob {
    if Compresses(w, opts, data) then w.deflate(data) else data
  }

  function PackedSize(w: World, opts: Options, data: Blob): nat {
    if Compresses(w, opts, data) then |w.deflate(data)| % U32 else 0
  }

  function Decompress(w: World, raw: Blob, expected: nat): Option<Blob> {
    if expected > MAX_DECOMP_SIZE then None
    else
      var out := w.inflate(raw);
      if out.Some? && |out.value| == expected then out else None
  }

  /** One blob of an archive, or nothing when it lies outside or does not decompress to
      the size its record declares. */
  function ReadBlob(w: World, data: Blob, b: BlobRef): Option<Blob> {
    if b.offset + b.StoredLen() > |data| then None
    else
      var raw := data[b.offset..b.offset + b.StoredLen()];
      if b.IsCompressed() then Decompress(w, raw, b.unpackedSize) else Some(raw)
  }

  /** Whatever a record says, of any archive: what is read lies inside the archive and has
      the size the record declares, and compressed data is read only up to 64 MiB. */
  lemma ReadBlobLaw(w: World, data: Blob, b: BlobRef)
    requires ReadBlob(w, data, b).Some?
    ensures var x := ReadBlob(w, data, b).value;
      var stored := if b.packedSize != 0 then b.packedSize else b.unpackedSize;
      && |x| == b.unpackedSize && b.offset + stored <= |data|
      && (if b.packedSize != 0 then |x| <= 0x400_0000 && w.inflate(data[b.offset..b.offset + stored]) == Some(x)
          else x == data[b.offset..b.offset + stored])
  {}

  /** All pieces back to back, as the first pass writes them. */
  function StoredAll(w: World, opts: Options, pieces: seq<Blob>): Blob {
    if |pieces| == 0 then []
    else StoredAll(w, opts, pieces[..|pieces| - 1]) + Stored(w, opts, pieces[|pieces| - 1])
  }

  lemma NothingStored(w: World, opts: Options)
    ensures StoredAll(w, opts, []) == []
  {}

  /** The record of piece `i` when the first piece starts at `start`. */
  function RefAt(w: World, opts: Options, start: nat, pieces: seq<Blob>, i: nat): BlobRef
    requires i < |pieces|
  {
    BlobRef(start + |StoredAll(w, opts, pieces[..i])|, PackedSize(w, opts, pieces[i]), |pieces[i]| % U32)
  }

  /** A piece is compressed exactly when that is not switched off and saves at least one
      byte of the share of its length it may keep. */
  ghost predicate WorthIt(w: World, opts: Options, data: Blob) {
    !opts.store && (|w.deflate(data)| + 1) as real <= |data| as real * opts.minShrinkRatio
  }

  lemma CompressesIff(w: World, opts: Options, data: Blob)
    ensures Compresses(w, opts, data) <==> WorthIt(w, opts, data)
  {
    var share := |data| as real * opts.minShrinkRatio;
    FloorReaches(|w.deflate(data)| + 1, share);
  }

  lemma FloorReaches(n: nat, x: real)
    ensures n as real <= x <==> n <= x.Floor
  {}

  /** What is written of piece `i` and what its record says: the compressed bytes and their
      number if that is worth it, else the piece itself and no packed size. */
  lemma HowStored(w: World, opts: Options, start: nat, pieces: seq<Blob>, i: nat)
    requires i < |pieces|
    ensures var piece, b := pieces[i], RefAt(w, opts, start, pieces, i);
      && Stored(w, opts, piece) == (if WorthIt(w, opts, piece) then w.deflate(piece) else piece)
      && b.packedSize == (if WorthIt(w, opts, piece) then |w.deflate(piece)| % 0x1_0000_0000 else 0)
      && b.unpackedSize == |piece| % 0x1_0000_0000
  {
    hide Compresses, WorthIt;
    CompressesIff(w, opts, pieces[i]);
  }

  // ------------------------------------------------------------------------ reading back

  /** The compressed size fits its field. */
  ghost predicate PackedFits(w: World, opts: Options, data: Blob) {
    Compresses(w, opts, data) ==> |w.deflate(data)| < U32
  }

  /** The size fits its field, and of a compressed piece the reader's limit is kept and
      what its record counts of the blob inflates to the piece. A blob whose length wraps
      to zero is taken for uncompressed. */
  predicate Recoverable(w: World, opts: Options, data: Blob) {
    |data| < U32 &&
    (Compresses(w, opts, data) ==>
       var stored, counted := w.deflate(data), |w.deflate(data)| % U32;
       if counted == 0 then data <= stored
       else |data| <= MAX_DECOMP_SIZE && w.inflate(stored[..counted]) == Some(data))
  }

  /** When the compressed size fits its field, only the two sizes matter. */
  lemma RecoverableWhenFits(w: World, opts: Options, data: Blob)
    requires Lawful(w) && PackedFits(w, opts, data)
    ensures Recoverable(w, opts, data) <==> |data| < U32 && (Compresses(w, opts, data) ==> |data| <= 64 * 1024 * 1024)
  {
    hide Compresses;
    if Compresses(w, opts, data) {
      var stored := w.deflate(data);
      assert stored[..|stored| % U32] == stored;
    }
  }

  /** With the default ratio, or any ratio up to one, a compressed piece is smaller than
      the piece. */
  lemma ShrinksFits(w: World, opts: Options, data: Blob)
    requires opts.minShrinkRatio <= 1.0 && |data| < U32
    ensures PackedFits(w, opts, data)
  {
    ThresholdBelow(opts, |data|);
  }

  lemma ThresholdBelow(opts: Options, rawLen: nat)
    requires opts.minShrinkRatio <= 1.0
    ensures Threshold(opts, rawLen) <= rawLen
  {
    var r := rawLen as real;
    assert r * opts.minShrinkRatio <= r * 1.0;
  }

  lemma {:induction false} StoredAllSplit(w: World, opts: Options, pieces: seq<Blob>, i: nat)
    requires i < |pieces|
    ensures StoredAll(w, opts, pieces[..i]) + Stored(w, opts, pieces[i]) <= StoredAll(w, opts, pieces)
    ensures StoredAll(w, opts, pieces[..i + 1]) == StoredAll(w, opts, pieces[..i]) + Stored(w, opts, pieces[i])
    decreases |pieces|
  {
    hide Stored;
    assert pieces[..i + 1][..i] == pieces[..i];
    var n := |pieces| - 1;
    if i < n {
      StoredAllSplit(w, opts, pieces[..n], i);
      assert pieces[..n][..i] == pieces[..i];
    } else {
      assert pieces[..i + 1] == pieces;
    }
  }

  lemma StoredAt(w: World, opts: Options, pre: Blob, pieces: seq<Blob>, post: Blob, i: nat)
    requires i < |pieces|
    ensures var at := |pre| + |StoredAll(w, opts, pieces[..i])|;
      var s := Stored(w, opts, pieces[i]);
      var data := pre + StoredAll(w, opts, pieces) + post;
      at + |s| <= |data| && data[at..at + |s|] == s
  {
    hide Stored, StoredAll;
    StoredAllSplit(w, opts, pieces, i);
    var all, before, s := StoredAll(w, opts, pieces), StoredAll(w, opts, pieces[..i]), Stored(w, opts, pieces[i]);
    var data := pre + all + post;
    assert all[|before|..|before| + |s|] == s;
    assert data[|pre| + |before|..|pre| + |before| + |s|] == all[|before|..|before| + |s|];
  }

  /** A piece is read back exactly when it is recoverable, wherever it lies. */
  lemma BlobReadsBackIff(w: World, opts: Options, pre: Blob, pieces: seq<Blob>, post: Blob, i: nat)
    requires Lawful(w) && i < |pieces|
    ensures ReadBlob(w, pre + StoredAll(w, opts, pieces) + post, RefAt(w, opts, |pre|, pieces, i)) == Some(pieces[i])
       <==> Recoverable(w, opts, pieces[i])
  {
    hide StoredAll, ReadBlob, Recoverable, Lawful;
    StoredAt(w, opts, pre, pieces, post, i);
    OneReadsBack(w, opts, pre + StoredAll(w, opts, pieces) + post, |pre| + |StoredAll(w, opts, pieces[..i])|, pieces[i]);
  }

  lemma TakeOfSlice(data: Blob, at: nat, s: Blob, n: nat)
    requires at + |s| <= |data| && data[at..at + |s|] == s && n <= |s|
    ensures data[at..at + n] == s[..n]
  {
    SliceOfSlice(data, at, |s|, 0, n);
  }

  lemma OneReadsBack(w: World, opts: Options, data: Blob, at: nat, piece: Blob)
    requires Lawful(w)
    requires var s := Stored(w, opts, piece); at + |s| <= |data| && data[at..at + |s|] == s
    ensures ReadBlob(w, data, BlobRef(at, PackedSize(w, opts, piece), |piece| % U32)) == Some(piece)
       <==> Recoverable(w, opts, piece)
  {
    hide Compresses;
    var s, b := Stored(w, opts, piece), BlobRef(at, PackedSize(w, opts, piece), |piece| % U32);
    assert b.StoredLen() <= |s| by {
      StoredLenFits(w, opts, piece);
    }
    TakeOfSlice(data, at, s, b.StoredLen());
    PrefixIs(piece, s);
    if |piece| < U32 {
      assert |piece| % U32 == |piece|;
    }
    if !Compresses(w, opts, piece) {
      assert |piece| < U32 ==> s[..|piece|] == piece;
    }
  }

  lemma PrefixIs(a: Blob, b: Blob)
    ensures a <= b <==> |a| <= |b| && b[..|a|] == a
  {
    if |a| <= |b| && b[..|a|] == a {
      assert b == b[..|a|] + b[|a|..];
    }
  }

  lemma StoredLenFits(w: World, opts: Options, piece: Blob)
    requires Lawful(w)
    ensures var n := PackedSize(w, opts, piece);
      (if n != 0 then n else |piece| % U32) <= |Stored(w, opts, piece)|
  {
    hide Compresses;
    assert |w.deflate(piece)| > 0 && w.inflate(w.deflate(piece)) == Some(piece);
  }

  /** Stored blobs touch: each ends where the next begins, the last where the data ends,
      exactly when its stored length fits 32 bits; otherwise its record falls short. */
  lemma BlobsTouch(w: World, opts: Options, start: nat, pieces: seq<Blob>, i: nat)
    requires Lawful(w) && i < |pieces|
    ensures var b := RefAt(w, opts, start, pieces, i);
      var next := if i + 1 < |pieces| then RefAt(w, opts, start, pieces, i + 1).offset else start + |StoredAll(w, opts, pieces)|;
      b.offset + b.StoredLen() <= next && (b.offset + b.StoredLen() == next <==> |Stored(w, opts, pieces[i])| < U32)
  {
    hide StoredAll, Lawful, Compresses;
    StoredAllSplit(w, opts, pieces, i);
    StoredLenFits(w, opts, pieces[i]);
    StoredLenIff(w, opts, pieces[i]);
    if i + 1 == |pieces| {
      assert pieces[..i + 1] == pieces;
    }
  }

  lemma StoredLenIff(w: World, opts: Options, piece: Blob)
    requires Lawful(w)
    ensures var n, s := PackedSize(w, opts, piece), Stored(w, opts, piece);
      (if n != 0 then n else |piece| % U32) == |s| <==> |s| < U32
  {
    hide Compresses;
    assert |w.deflate(piece)| > 0 && w.inflate(w.deflate(piece)) == Some(piece);
  }

  // -------------------------------------------------------------------------- name table

  function WriteName(name: Blob): Blob {
    LE(|name| % U16, 2) + name
  }

  /** The name table: one length-prefixed name per entry. */
  function NameTable(names: seq<Blob>): Blob {
    if |names| == 0 then [] else NameTable(names[..|names| - 1]) + WriteName(names[|names| - 1])
  }

  /** The normalised names of `count` entries from `pos`. */
  function NamesFrom(w: World, data: Blob, pos: nat, count: nat): Option<seq<Blob>>
    decreases count
  {
    if count == 0 then Some([])
    else if pos + 2 > |data| then None
    else
      var len := Read(data, pos, 2);
      if pos + 2 + len > |data| then None
      else
        var rest := NamesFrom(w, data, pos + 2 + len, count - 1);
        if rest.None? then None else Some([w.normalize(data[pos + 2..pos + 2 + len])] + rest.value)
  }

  lemma {:induction false} NamesCount(w: World, data: Blob, pos: nat, count: nat)
    ensures NamesFrom(w, data, pos, count).Some? ==> |NamesFrom(w, data, pos, count).value| == count
    decreases count
  {
    if count > 0 && pos + 2 <= |data| {
      NamesCount(w, data, pos + 2 + Read(data, pos, 2), count - 1);
    }
  }

  method ParseNames(w: World, data: Blob, start: nat, count: nat) returns (names: Option<seq<Blob>>)
    ensures names == NamesFrom(w, data, start, count)
  {
    var pos: nat := start;
    var found: seq<Blob> := [];
    assert NamesFrom(w, data, start, count).Some? ==>
      [] + NamesFrom(w, data, start, count).value == NamesFrom(w, data, start, count).value;
    for i := 0 to count
      invariant NamesFrom(w, data, start, count)
             == (var rest := NamesFrom(w, data, pos, count - i); if rest.None? then None else Some(found + rest.value))
    {
      if pos + 2 > |data| {
        return None;
      }
      var len := Read(data, pos, 2);
      if pos + 2 + len > |data| {
        return None;
      }
      var name := w.normalize(data[pos + 2..pos + 2 + len]);
      ghost var rest := NamesFrom(w, data, pos + 2 + len, count - i - 1);
      assert rest.Some? ==> found + ([name] + rest.value) == found + [name] + rest.value;
      found := found + [name];
      pos := pos + 2 + len;
    }
    assert found + [] == found;
    names := Some(found);
  }

  method WriteNameTable(names: seq<Blob>) returns (out: Blob)
    ensures out == NameTable(names)
  {
    out := [];
    assert names[..0] == [];
    for i := 0 to |names|
      invariant out == NameTable(names[..i])
    {
      assert names[..i + 1][..i] == names[..i];
      out := out + WriteName(names[i]);
    }
    assert names[..|names|] == names;
  }

  /** The next name of a table, byte by byte; a table cut short is no table. */
  lemma NextName(w: World, data: Blob, pos: nat, count: nat)
    requires count > 0
    ensures pos + 2 > |data| ==> NamesFrom(w, data, pos, count) == None
    ensures pos + 2 <= |data| ==>
      var end := pos + 2 + Word2(data[pos], data[pos + 1]);
      && (end > |data| ==> NamesFrom(w, data, pos, count) == None)
      && (end <= |data| ==>
            var rest := NamesFrom(w, data, end, count - 1);
            NamesFrom(w, data, pos, count)
              == if rest.None? then None else Some([w.normalize(data[pos + 2..end])] + rest.value))
  {
    hide Read, Word2;
    if pos + 2 <= |data| {
      ReadsWord2(data, pos);
    }
  }

  /** A name goes behind its length, low byte first. */
  lemma NameBytes(name: Blob)
    requires |name| < U16
    ensures WriteName(name) == [(|name| % 256) as byte, (|name| / 256) as byte] + name
  {
    LEDigit(|name|, 2, 0);
    LEDigit(|name|, 2, 1);
    Widths();
    assert LE(|name|, 2) == [(|name| % 256) as byte, (|name| / 256) as byte];
  }

  ghost predicate Normalised(w: World, names: seq<Blob>) {
    forall i | 0 <= i < |names| :: |names[i]| < U16 && w.normalize(names[i]) == names[i]
  }

  lemma {:induction false} NameTableStep(names: seq<Blob>, i: nat)
    requires i < |names|
    ensures NameTable(names[..i]) + WriteName(names[i]) <= NameTable(names)
    ensures NameTable(names[..i + 1]) == NameTable(names[..i]) + WriteName(names[i])
    decreases |names|
  {
    hide WriteName;
    assert names[..i + 1][..i] == names[..i];
    var n := |names| - 1;
    if i < n {
      NameTableStep(names[..n], i);
      assert names[..n][..i] == names[..i];
    } else {
      assert names[..i + 1] == names;
    }
  }

  lemma OneName(w: World, data: Blob, pre: Blob, name: Blob)
    requires |name| < U16 && w.normalize(name) == name && pre + WriteName(name) <= data
    ensures |pre| + 2 + |name| <= |data| && Read(data, |pre|, 2) == |name|
    ensures w.normalize(data[|pre| + 2..|pre| + 2 + |name|]) == name
  {
    hide LE, FromLE, Pow256;
    Widths();
    FromLEOfLE(|name|, 2);
    assert |name| % U16 == |name|;
    var text := WriteName(name);
    assert data[|pre|..|pre| + |text|] == text;
    assert data[|pre|..|pre| + 2] == text[..2];
    assert data[|pre| + 2..|pre| + 2 + |name|] == text[2..];
  }

  /** A printed name table is read back, from any entry on. */
  lemma {:induction false} NamesReadBack(w: World, pre: Blob, names: seq<Blob>, i: nat)
    requires Normalised(w, names) && i <= |names|
    ensures NamesFrom(w, pre + NameTable(names), |pre| + |NameTable(names[..i])|, |names| - i) == Some(names[i..])
    decreases |names| - i
  {
    hide WriteName, NameTable;
    var data := pre + NameTable(names);
    if i < |names| {
      var before := pre + NameTable(names[..i]);
      NameTableStep(names, i);
      assert before + WriteName(names[i]) <= data;
      OneName(w, data, before, names[i]);
      NamesReadBack(w, pre, names, i + 1);
      NameLength(names[i]);
      assert names[i..] == [names[i]] + names[i + 1..];
    } else {
      assert names[i..] == [];
    }
  }

  lemma NameLength(name: Blob)
    ensures |WriteName(name)| == 2 + |name|
  {}

  // ------------------------------------------------------------------------ name lookup

  /** The last entry with this name. */
  ghost function LastNamed(names: seq<Blob>, name: Blob): Option<nat> {
    if |names| == 0 then None
    else if names[|names| - 1] == name then Some(|names| - 1)
    else LastNamed(names[..|names| - 1], name)
  }

  function Find(byName: map<Blob, nat>, name: Blob): Option<nat> {
    if name in byName then Some(byName[name]) else None
  }

  /** Later entries replace earlier ones of the same name. */
  method IndexNames(names: seq<Blob>) returns (byName: map<Blob, nat>)
    ensures forall name :: Find(byName, name) == LastNamed(names, name)
  {
    byName := map[];
    assert names[..0] == [];
    for i := 0 to |names|
      invariant forall name :: Find(byName, name) == LastNamed(names[..i], name)
    {
      assert names[..i + 1][..i] == names[..i];
      byName := byName[names[i] := i];
    }
    assert names[..|names|] == names;
  }

  lemma {:induction false} LastNamedIs(names: seq<Blob>, name: Blob)
    ensures LastNamed(names, name).None? ==> name !in names
    ensures LastNamed(names, name).Some? ==>
      var i := LastNamed(names, name).value; i < |names| && names[i] == name && name !in names[i + 1..]
  {
    var n := |names| - 1;
    if n >= 0 && names[n] != name {
      LastNamedIs(names[..n], name);
      assert names == names[..n] + [names[n]];
      if LastNamed(names[..n], name).Some? {
        var i := LastNamed(names[..n], name).value;
        assert names[i + 1..] == names[..n][i + 1..] + [names[n]];
      }
    }
  }
}
