/** The subrecords inside a record's payload, with the XXXX prefix that carries
    sizes too large for their 16-bit field. */
module EsmSubrecords {
  import opened Wrappers
  import opened Bytes
  import opened EsmFormat

  const SUBRECORD_HEADER_SIZE: nat := 6
  const XXXX_SIG: Signature := [0x58, 0x58, 0x58, 0x58]

  datatype Subrecord = Subrecord(signature: Signature, data: Blob)

  function Min(a: nat, b: nat): nat {
    if a < b then a else b
  }

  /** The size to use for a subrecord whose field says `size`. */
  function ActualSize(size: nat, pending: Option<nat>): nat {
    if size == 0 && pending.Some? then pending.value else size
  }

  predicate IsExtension(data: Blob, pos: nat)
    requires pos + SUBRECORD_HEADER_SIZE <= |data|
  {
    data[pos..pos + 4] == XXXX_SIG && Read(data, pos + 4, 2) == 4 && pos + SUBRECORD_HEADER_SIZE + 4 <= |data|
  }

  /** The subrecords from `pos` on; `pending` is a size an XXXX prefix announced. */
  function ParseFrom(data: Blob, pos: nat, pending: Option<nat>): seq<Subrecord>
    decreases if pos < |data| then |data| - pos else 0
  {
    if pos + SUBRECORD_HEADER_SIZE > |data| then []
    else if IsExtension(data, pos) then
      ParseFrom(data, pos + SUBRECORD_HEADER_SIZE + 4, Some(Read(data, pos + SUBRECORD_HEADER_SIZE, 4)))
    else
      var start := pos + SUBRECORD_HEADER_SIZE;
      var end := Min(start + ActualSize(Read(data, pos + 4, 2), pending), |data|);
      [Subrecord(data[pos..pos + 4], data[start..end])] + ParseFrom(data, end, None)
  }

  /** The bytes the parser goes by: a subrecord is four bytes of signature, two of size and
      its data, cut where the payload ends, and a size of zero yields to an announced one;
      an announcement is XXXX with a size of four, and the four bytes after it. */
  lemma SubrecordBytes(data: Blob, pos: nat, pending: Option<nat>)
    requires pos + 6 <= |data|
    ensures var b := data[pos..pos + 6];
      var size := if b[4] == 0 && b[5] == 0 && pending.Some? then pending.value else Word2(b[4], b[5]);
      var end := if pos + 6 + size < |data| then pos + 6 + size else |data|;
      ParseFrom(data, pos, pending) ==
        if b == [0x58, 0x58, 0x58, 0x58, 4, 0] && pos + 10 <= |data|
        then ParseFrom(data, pos + 10, Some(Word4(data[pos + 6], data[pos + 7], data[pos + 8], data[pos + 9])))
        else [Subrecord(data[pos..pos + 4], data[pos + 6..end])] + ParseFrom(data, end, None)
  {
    hide Read, Word2, Word4, ParseFrom, IsExtension;
    ReadsWord2(data, pos + 4);
    ParseStep(data, pos, pending, []);
    ExtensionBytes(data, pos);
    ZeroWord(data[pos + 4], data[pos + 5]);
    EmptyFront(data, pos, pending);
    if IsExtension(data, pos) {
      ReadsWord4(data, pos + 6);
    }
  }

  lemma EmptyFront(data: Blob, pos: nat, pending: Option<nat>)
    ensures [] + ParseFrom(data, pos, pending) == ParseFrom(data, pos, pending)
    ensures forall s: Subrecord :: [] + [s] == [s]
  {
    hide ParseFrom;
  }

  lemma ZeroWord(a: byte, b: byte)
    ensures Word2(a, b) == 0 <==> a == 0 && b == 0
    ensures Word2(a, b) == 4 <==> a == 4 && b == 0
  {}

  lemma ExtensionBytes(data: Blob, pos: nat)
    requires pos + 6 <= |data|
    ensures IsExtension(data, pos) <==> data[pos..pos + 6] == [0x58, 0x58, 0x58, 0x58, 4, 0] && pos + 10 <= |data|
  {
    hide Read, Word2;
    ReadsWord2(data, pos + 4);
    ZeroWord(data[pos + 4], data[pos + 5]);
    assert data[pos..pos + 6] == data[pos..pos + 4] + [data[pos + 4], data[pos + 5]];
    SliceOfSlice(data, pos, 6, 0, 4);
  }

  /** What one turn of the parser adds to the subrecords so far. */
  lemma ParseStep(data: Blob, pos: nat, pending: Option<nat>, subs: seq<Subrecord>)
    ensures pos + SUBRECORD_HEADER_SIZE > |data| ==> subs + ParseFrom(data, pos, pending) == subs
    ensures pos + SUBRECORD_HEADER_SIZE <= |data| && IsExtension(data, pos) ==>
      && pos + SUBRECORD_HEADER_SIZE + 4 <= |data|
      && ParseFrom(data, pos, pending)
         == ParseFrom(data, pos + SUBRECORD_HEADER_SIZE + 4, Some(Read(data, pos + SUBRECORD_HEADER_SIZE, 4)))
    ensures pos + SUBRECORD_HEADER_SIZE <= |data| && !IsExtension(data, pos) ==>
      var start := pos + SUBRECORD_HEADER_SIZE;
      var end := Min(start + ActualSize(Read(data, pos + 4, 2), pending), |data|);
      subs + ParseFrom(data, pos, pending)
        == subs + [Subrecord(data[pos..pos + 4], data[start..end])] + ParseFrom(data, end, None)
  {
    hide Read;
    if pos + SUBRECORD_HEADER_SIZE > |data| {
      assert subs + [] == subs;
    } else if !IsExtension(data, pos) {
      var start := pos + SUBRECORD_HEADER_SIZE;
      var end := Min(start + ActualSize(Read(data, pos + 4, 2), pending), |data|);
      var sub := Subrecord(data[pos..pos + 4], data[start..end]);
      assert subs + ([sub] + ParseFrom(data, end, None)) == subs + [sub] + ParseFrom(data, end, None);
    }
  }

  method ParseSubrecords(data: Blob) returns (subs: seq<Subrecord>)
    ensures subs == ParseFrom(data, 0, None)
  {
    hide Read, ParseFrom;
    subs := [];
    var pos, pending := 0, None;
    assert [] + ParseFrom(data, 0, None) == ParseFrom(data, 0, None);
    while pos + SUBRECORD_HEADER_SIZE <= |data|
      invariant subs + ParseFrom(data, pos, pending) == ParseFrom(data, 0, None)
      decreases if pos < |data| then |data| - pos else 0
    {
      ParseStep(data, pos, pending, subs);
      var sig, size := data[pos..pos + 4], Read(data, pos + 4, 2);
      pos := pos + SUBRECORD_HEADER_SIZE;
      if sig == XXXX_SIG && size == 4 && pos + 4 <= |data| {
        pending := Some(Read(data, pos, 4));
        pos := pos + 4;
        continue;
      }
      if size == 0 {
        if pending.Some? {
          size := pending.value;
        }
      }
      pending := None;
      var end := Min(pos + size, |data|);
      subs := subs + [Subrecord(sig, data[pos..end])];
      pos := end;
    }
    ParseStep(data, pos, pending, subs);
  }

  // ----------------------------------------------------------------------- printing

  /** A subrecord; one too large for its size field is announced by an XXXX. */
  function PrintSub(s: Subrecord): Blob {
    if |s.data| < U16 then s.signature + LE(|s.data|, 2) + s.data
    else XXXX_SIG + LE(4, 2) + LE(|s.data|, 4) + s.signature + LE(0, 2) + s.data
  }

  function PrintSubs(subs: seq<Subrecord>): Blob {
    if |subs| == 0 then [] else PrintSub(subs[0]) + PrintSubs(subs[1..])
  }

  /** A short subrecord printed as the synthetic files print it. */
  method AppendSubrecord(buf: Blob, sig: Signature, data: Blob) returns (r: Blob)
    ensures r == buf + sig + LE(|data| % U16, 2) + data
    ensures |data| < U16 ==> r == buf + PrintSub(Subrecord(sig, data))
  {
    r := buf + sig;
    r := r + LE(|data| % U16, 2);
    r := r + data;
  }

  /** A subrecord the parser does not take for a size announcement. */
  predicate Plain(s: Subrecord) {
    |s.data| < U32 && !(s.signature == XXXX_SIG && |s.data| == 4)
  }

  lemma HeaderRead(pre: Blob, sig: Signature, n: nat, post: Blob)
    requires n < U16
    ensures var data := pre + sig + LE(n, 2) + post;
      data[|pre|..|pre| + 4] == sig && Read(data, |pre| + 4, 2) == n
  {
    hide LE, FromLE, Read;
    Widths();
    ReadField(pre + sig, n, 2, post);
  }

  /** One step of the parser at a header that is no announcement. */
  lemma BodyParsed(data: Blob, pos: nat, pending: Option<nat>, s: Subrecord)
    requires pos + SUBRECORD_HEADER_SIZE + |s.data| <= |data| && !IsExtension(data, pos)
    requires data[pos..pos + 4] == s.signature && ActualSize(Read(data, pos + 4, 2), pending) == |s.data|
    requires data[pos + SUBRECORD_HEADER_SIZE..pos + SUBRECORD_HEADER_SIZE + |s.data|] == s.data
    ensures ParseFrom(data, pos, pending) == [s] + ParseFrom(data, pos + SUBRECORD_HEADER_SIZE + |s.data|, None)
  {
    hide Read, IsExtension;
  }

  lemma {:induction false} ShortParsed(pre: Blob, s: Subrecord, post: Blob)
    requires Plain(s) && |s.data| < U16
    ensures var data := pre + PrintSub(s) + post;
      ParseFrom(data, |pre|, None) == [s] + ParseFrom(data, |pre| + |PrintSub(s)|, None)
  {
    hide LE, FromLE, Read, ParseFrom;
    var data := pre + PrintSub(s) + post;
    assert data == pre + s.signature + LE(|s.data|, 2) + (s.data + post);
    HeaderRead(pre, s.signature, |s.data|, s.data + post);
    var start := |pre| + SUBRECORD_HEADER_SIZE;
    assert data[start..start + |s.data|] == s.data;
    BodyParsed(data, |pre|, None, s);
  }

  /** The size announcement in front of a large subrecord. */
  lemma {:induction false} Announced(pre: Blob, n: nat, post: Blob)
    requires n < U32
    ensures var data := pre + XXXX_SIG + LE(4, 2) + LE(n, 4) + post;
      ParseFrom(data, |pre|, None) == ParseFrom(data, |pre| + 10, Some(n))
  {
    hide LE, FromLE, Read;
    Widths();
    var head, size := pre + XXXX_SIG + LE(4, 2), LE(n, 4);
    var data := head + size + post;
    assert data == pre + XXXX_SIG + LE(4, 2) + (size + post);
    HeaderRead(pre, XXXX_SIG, 4, size + post);
    ReadField(head, n, 4, post);
  }

  /** A subrecord whose size was announced. */
  lemma {:induction false} AnnouncedParsed(pre: Blob, s: Subrecord, post: Blob)
    requires Plain(s) && |s.data| >= U16
    ensures var data := pre + s.signature + LE(0, 2) + s.data + post;
      ParseFrom(data, |pre|, Some(|s.data|)) == [s] + ParseFrom(data, |pre| + 6 + |s.data|, None)
  {
    hide LE, FromLE, Read, ParseFrom;
    var data := pre + s.signature + LE(0, 2) + s.data + post;
    assert data == pre + s.signature + LE(0, 2) + (s.data + post);
    HeaderRead(pre, s.signature, 0, s.data + post);
    var start := |pre| + SUBRECORD_HEADER_SIZE;
    assert data[start..start + |s.data|] == s.data;
    BodyParsed(data, |pre|, Some(|s.data|), s);
  }

  lemma {:induction false} LongParsed(pre: Blob, s: Subrecord, post: Blob)
    requires Plain(s) && |s.data| >= U16
    ensures var data := pre + PrintSub(s) + post;
      ParseFrom(data, |pre|, None) == [s] + ParseFrom(data, |pre| + |PrintSub(s)|, None)
  {
    hide LE, FromLE, Read, ParseFrom;
    var data := pre + PrintSub(s) + post;
    var size, body := LE(|s.data|, 4), s.signature + LE(0, 2) + s.data;
    var head := pre + XXXX_SIG + LE(4, 2) + size;
    Announced(pre, |s.data|, body + post);
    assert data == pre + XXXX_SIG + LE(4, 2) + size + (body + post);
    AnnouncedParsed(head, s, post);
    assert data == head + s.signature + LE(0, 2) + s.data + post;
    assert |head| == |pre| + 10;
    assert |head| + 6 + |s.data| == |pre| + |PrintSub(s)|;
  }

  lemma PlainParsed(pre: Blob, s: Subrecord, post: Blob)
    requires Plain(s)
    ensures var data := pre + PrintSub(s) + post;
      ParseFrom(data, |pre|, None) == [s] + ParseFrom(data, |pre| + |PrintSub(s)|, None)
  {
    hide PrintSub, ParseFrom;
    if |s.data| < U16 {
      ShortParsed(pre, s, post);
    } else {
      LongParsed(pre, s, post);
    }
  }

  lemma NothingParsed(data: Blob)
    ensures ParseFrom(data + [], |data|, None) == []
  {}

  /** Printed subrecords are read back, whatever their sizes. */
  lemma {:induction false} SubrecordsRoundTrip(pre: Blob, subs: seq<Subrecord>)
    requires forall s <- subs :: Plain(s)
    ensures ParseFrom(pre + PrintSubs(subs), |pre|, None) == subs
    decreases |subs|
  {
    hide PrintSub, Plain, ParseFrom;
    if |subs| == 0 {
      NothingParsed(pre);
    } else {
      var s, rest := subs[0], subs[1..];
      assert s in subs && forall x <- rest :: x in subs;
      var data := pre + PrintSubs(subs);
      assert data == (pre + PrintSub(s)) + PrintSubs(rest) == pre + PrintSub(s) + PrintSubs(rest);
      SubrecordsRoundTrip(pre + PrintSub(s), rest);
      PlainParsed(pre, s, PrintSubs(rest));
    }
  }

  /** A four-byte subrecord signed XXXX is taken for an announcement and lost. */
  lemma AnnouncementIsLost(data: Blob)
    requires |data| == 4
    ensures ParseFrom(PrintSubs([Subrecord(XXXX_SIG, data)]), 0, None) == []
  {
    hide LE, FromLE, Read;
    var s := Subrecord(XXXX_SIG, data);
    assert [s][1..] == [];
    assert PrintSubs([s]) == [] + XXXX_SIG + LE(4, 2) + data;
    HeaderRead([], XXXX_SIG, 4, data);
  }

  /** The bytes a list of subrecords takes up, announcements included. */
  function Cost(subs: seq<Subrecord>): nat {
    if |subs| == 0 then 0
    else SUBRECORD_HEADER_SIZE + |subs[0].data| + (if |subs[0].data| < U16 then 0 else 10) + Cost(subs[1..])
  }

  lemma {:induction false} PrintedCost(subs: seq<Subrecord>)
    ensures |PrintSubs(subs)| == Cost(subs)
  {
    if |subs| > 0 {
      PrintedCost(subs[1..]);
    }
  }

  /** What a pending announcement has already paid for. */
  function Credit(pending: Option<nat>): nat {
    if pending.Some? then 10 else 0
  }

  lemma SizeFieldIsShort(data: Blob, pos: nat)
    requires pos + 2 <= |data|
    ensures Read(data, pos, 2) < U16
  {
    hide FromLE, Pow256;
    Widths();
    LEOfFromLE(data[pos..pos + 2]);
  }

  /** Parsing never yields more than the bytes can hold, and an announcement that is
      followed by a short subrecord is wasted. */
  lemma {:induction false} ParsedCost(data: Blob, pos: nat, pending: Option<nat>)
    requires pos <= |data|
    ensures var subs := ParseFrom(data, pos, pending);
      && Cost(subs) <= |data| - pos + Credit(pending)
      && (|subs| > 0 && |subs[0].data| < U16 ==> Cost(subs) <= |data| - pos)
    decreases |data| - pos
  {
    hide Read, IsExtension;
    if pos + SUBRECORD_HEADER_SIZE <= |data| {
      if IsExtension(data, pos) {
        assert pos + SUBRECORD_HEADER_SIZE + 4 <= |data| by { ExtensionFits(data, pos); }
        ParsedCost(data, pos + SUBRECORD_HEADER_SIZE + 4, Some(Read(data, pos + SUBRECORD_HEADER_SIZE, 4)));
      } else {
        var start := pos + SUBRECORD_HEADER_SIZE;
        var end := Min(start + ActualSize(Read(data, pos + 4, 2), pending), |data|);
        SizeFieldIsShort(data, pos + 4);
        ParsedCost(data, end, None);
        var rest := ParseFrom(data, end, None);
        assert ([Subrecord(data[pos..pos + 4], data[start..end])] + rest)[1..] == rest;
      }
    }
  }

  lemma ExtensionFits(data: Blob, pos: nat)
    requires pos + SUBRECORD_HEADER_SIZE <= |data| && IsExtension(data, pos)
    ensures pos + SUBRECORD_HEADER_SIZE + 4 <= |data|
  {}

  /** Whatever follows it, a subrecord that reads as an announcement is not read back. */
  lemma {:induction false} LostAt(pre: Blob, subs: seq<Subrecord>)
    requires |subs| > 0 && subs[0].signature == XXXX_SIG && |subs[0].data| == 4
    ensures ParseFrom(pre + PrintSubs(subs), |pre|, None) != subs
  {
    hide LE, FromLE, Read, PrintSubs;
    var rest := PrintSubs(subs[1..]);
    var data := pre + PrintSubs(subs);
    PrintedCost(subs);
    assert PrintSubs(subs) == XXXX_SIG + LE(4, 2) + subs[0].data + rest by { FirstPrinted(subs); }
    assert data == pre + XXXX_SIG + LE(4, 2) + (subs[0].data + rest);
    HeaderRead(pre, XXXX_SIG, 4, subs[0].data + rest);
    assert IsExtension(data, |pre|);
    ParsedCost(data, |pre| + 10, Some(Read(data, |pre| + SUBRECORD_HEADER_SIZE, 4)));
  }

  lemma FirstPrinted(subs: seq<Subrecord>)
    requires |subs| > 0 && subs[0].signature == XXXX_SIG && |subs[0].data| == 4
    ensures PrintSubs(subs) == XXXX_SIG + LE(4, 2) + subs[0].data + PrintSubs(subs[1..])
  {
    hide LE;
  }

  lemma NotPlain(s: Subrecord)
    requires |s.data| < U32 && !Plain(s)
    ensures s.signature == XXXX_SIG && |s.data| == 4
  {}

  /** Printed subrecords are read back exactly when none of them reads as an announcement. */
  lemma {:induction false} SubrecordsRoundTripIff(pre: Blob, subs: seq<Subrecord>)
    requires forall s <- subs :: |s.data| < U32
    ensures ParseFrom(pre + PrintSubs(subs), |pre|, None) == subs <==> forall s <- subs :: Plain(s)
    decreases |subs|
  {
    hide PrintSub, IsExtension, Read, ParseFrom, Plain;
    if forall s <- subs :: Plain(s) {
      SubrecordsRoundTrip(pre, subs);
    } else if !Plain(subs[0]) {
      assert subs[0] in subs;
      NotPlain(subs[0]);
      LostAt(pre, subs);
    } else {
      var s, rest := subs[0], subs[1..];
      assert s in subs && forall x <- rest :: x in subs;
      var data := pre + PrintSubs(subs);
      assert data == (pre + PrintSub(s)) + PrintSubs(rest) == pre + PrintSub(s) + PrintSubs(rest);
      SubrecordsRoundTripIff(pre + PrintSub(s), rest);
      PlainParsed(pre, s, PrintSubs(rest));
      var bad :| bad in subs && !Plain(bad);
      assert bad in rest;
      var parsed := ParseFrom(data, |pre| + |PrintSub(s)|, None);
      assert ([s] + parsed)[1..] == parsed;
    }
  }
}
