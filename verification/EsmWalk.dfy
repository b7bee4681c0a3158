/** The structural walk over the bytes of a plugin. */
module EsmWalk {
  import opened Bytes
  import opened EsmFormat

  datatype Event =
    | GroupStart(offset: nat, groupType: int, groupLabel: nat, groupSize: nat)
    | GroupEnd(offset: nat)
    | RecordEvent(offset: nat, formId: nat, signature: Signature, flags: nat, formVersion: nat)

  /** How a walk ends: at the end of its container; at a group that claims to
      reach beyond it; or at a group of size zero, where the cursor stays put and
      the loop would emit the same two events forever. */
  datatype Walked =
    | Done(events: seq<Event>)
    | Overrun(events: seq<Event>, pos: nat)
    | Stalled(events: seq<Event>, pos: nat)

  function Prepend(events: seq<Event>, w: Walked): Walked {
    w.(events := events + w.events)
  }

  predicate IsGroup(data: Blob, pos: nat)
    requires pos + HEADER_SIZE <= |data|
  {
    data[pos..pos + 4] == GRUP_SIG
  }

  function StartOf(data: Blob, pos: nat): Event
    requires pos + HEADER_SIZE <= |data|
  {
    var h := ParseGroupHeader(data, pos);
    GroupStart(pos, h.groupType, h.groupLabel, h.groupSize)
  }

  function RecordOf(data: Blob, pos: nat): Event
    requires pos + HEADER_SIZE <= |data|
  {
    var h := ParseRecordHeader(data, pos);
    RecordEvent(pos, h.formId, h.signature, h.flags, h.formVersion)
  }

  /** The events of the container `data[pos..end]`. */
  function Walk(data: Blob, pos: nat, end: nat): Walked
    requires end <= |data|
    decreases if pos < end then end - pos else 0
  {
    if pos + HEADER_SIZE > end then Done([])
    else if IsGroup(data, pos) then
      var groupEnd := pos + ParseGroupHeader(data, pos).groupSize;
      if groupEnd > end then Overrun([], pos)
      else if groupEnd == pos then Stalled([StartOf(data, pos), GroupEnd(pos)], pos)
      else
        var inner := Prepend([StartOf(data, pos)], Walk(data, pos + HEADER_SIZE, groupEnd));
        if !inner.Done? then inner
        else Prepend(inner.events + [GroupEnd(pos)], Walk(data, groupEnd, end))
    else
      var recordEnd := pos + HEADER_SIZE + ParseRecordHeader(data, pos).dataSize;
      if recordEnd > end then Done([])
      else Prepend([RecordOf(data, pos)], Walk(data, recordEnd, end))
  }

  lemma PrependTwice(a: seq<Event>, b: seq<Event>, w: Walked)
    ensures Prepend(a, Prepend(b, w)) == Prepend(a + b, w)
    ensures Prepend([], w) == w
  {
    assert a + (b + w.events) == a + b + w.events;
    assert [] + w.events == w.events;
  }

  lemma GroupStep(data: Blob, pos: nat, end: nat, events: seq<Event>, groupEnd: nat)
    requires end <= |data| && pos + HEADER_SIZE <= end && IsGroup(data, pos)
    requires groupEnd == pos + ParseGroupHeader(data, pos).groupSize
    ensures groupEnd > end ==> Prepend(events, Walk(data, pos, end)) == Overrun(events, pos)
    ensures groupEnd == pos ==>
      Prepend(events, Walk(data, pos, end)) == Stalled(events + [StartOf(data, pos)] + [GroupEnd(pos)], pos)
    ensures pos < groupEnd <= end ==>
      var inner := Walk(data, pos + HEADER_SIZE, groupEnd);
      Prepend(events, Walk(data, pos, end))
        == if inner.Done? then Prepend(events + [StartOf(data, pos)] + inner.events + [GroupEnd(pos)], Walk(data, groupEnd, end))
           else Prepend(events + [StartOf(data, pos)], inner)
  {
    hide ParseGroupHeader;
    assert events + [StartOf(data, pos), GroupEnd(pos)] == events + [StartOf(data, pos)] + [GroupEnd(pos)];
    assert events + [] == events;
    if pos < groupEnd <= end {
      var inner := Walk(data, pos + HEADER_SIZE, groupEnd);
      PrependTwice(events, [StartOf(data, pos)], inner);
      var own := [StartOf(data, pos)] + inner.events + [GroupEnd(pos)];
      PrependTwice(events, own, Walk(data, groupEnd, end));
      assert events + own == events + [StartOf(data, pos)] + inner.events + [GroupEnd(pos)];
    }
  }

  lemma RecordStep(data: Blob, pos: nat, end: nat, events: seq<Event>, recordEnd: nat)
    requires end <= |data| && pos + HEADER_SIZE <= end && !IsGroup(data, pos)
    requires recordEnd == pos + HEADER_SIZE + ParseRecordHeader(data, pos).dataSize
    ensures Prepend(events, Walk(data, pos, end))
         == if recordEnd > end then Done(events) else Prepend(events + [RecordOf(data, pos)], Walk(data, recordEnd, end))
  {
    hide ParseRecordHeader;
    assert events + [] == events;
    PrependTwice(events, [RecordOf(data, pos)], Walk(data, recordEnd, end));
  }

  lemma EndStep(data: Blob, pos: nat, end: nat, events: seq<Event>)
    requires end <= |data| && pos + HEADER_SIZE > end
    ensures Prepend(events, Walk(data, pos, end)) == Done(events)
  {
    assert events + [] == events;
  }

  /** The one descent every walk is built on. A record that would end past its
      container stops the walk; a group that would is an error. */
  method WalkContainer(data: Blob, start: nat, end: nat) returns (w: Walked)
    requires end <= |data|
    ensures w == Walk(data, start, end)
    decreases if start < end then end - start else 0
  {
    hide ParseRecordHeader, ParseGroupHeader, Walk, StartOf, RecordOf, IsGroup;
    var pos, events := start, [];
    PrependTwice([], [], Walk(data, start, end));
    while pos + HEADER_SIZE <= end
      invariant start <= pos
      invariant Prepend(events, Walk(data, pos, end)) == Walk(data, start, end)
      decreases if pos < end then end - pos else 0
    {
      if IsGroup(data, pos) {
        var h := ParseGroupHeader(data, pos);
        var groupEnd := pos + h.groupSize;
        GroupStep(data, pos, end, events, groupEnd);
        if groupEnd > end {
          return Overrun(events, pos);
        }
        events := events + [StartOf(data, pos)];
        if groupEnd == pos {
          return Stalled(events + [GroupEnd(pos)], pos);
        }
        var inner := WalkContainer(data, pos + HEADER_SIZE, groupEnd);
        if !inner.Done? {
          return Prepend(events, inner);
        }
        events := events + inner.events + [GroupEnd(pos)];
        pos := groupEnd;
      } else {
        var recordEnd := pos + HEADER_SIZE + ParseRecordHeader(data, pos).dataSize;
        RecordStep(data, pos, end, events, recordEnd);
        if recordEnd > end {
          return Done(events);
        }
        events := events + [RecordOf(data, pos)];
        pos := recordEnd;
      }
    }
    EndStep(data, pos, end, events);
    w := Done(events);
  }

  /** A walk fails only at a group that reaches beyond its container and stalls
      only at a group of size zero: where every group's size counts at least its
      own header, it ends. */
  lemma {:induction false} WalkFailsOnlyAtGroups(data: Blob, pos: nat, end: nat)
    requires end <= |data|
    ensures var w := Walk(data, pos, end);
      !w.Done? ==>
        && pos <= w.pos && w.pos + HEADER_SIZE <= end && IsGroup(data, w.pos)
        && (w.Stalled? <==> ParseGroupHeader(data, w.pos).groupSize == 0)
    decreases if pos < end then end - pos else 0
  {
    hide ParseRecordHeader, ParseGroupHeader, IsGroup;
    if pos + HEADER_SIZE > end {
    } else if IsGroup(data, pos) {
      var groupEnd := pos + ParseGroupHeader(data, pos).groupSize;
      if pos < groupEnd <= end {
        WalkFailsOnlyAtGroups(data, pos + HEADER_SIZE, groupEnd);
        WalkFailsOnlyAtGroups(data, groupEnd, end);
      }
    } else {
      var recordEnd := pos + HEADER_SIZE + ParseRecordHeader(data, pos).dataSize;
      if recordEnd <= end {
        WalkFailsOnlyAtGroups(data, recordEnd, end);
      }
    }
  }

  predicate ZeroGroup(data: Blob, pos: nat)
    requires pos + HEADER_SIZE <= |data|
  {
    IsGroup(data, pos) && ParseGroupHeader(data, pos).groupSize == 0
  }

  /** The walk of the container `data[pos..end]` comes to the header at `at`, in it or in a
      group inside it. */
  ghost predicate Reaches(data: Blob, pos: nat, end: nat, at: nat)
    requires end <= |data|
    decreases if pos < end then end - pos else 0
  {
    pos + HEADER_SIZE <= end &&
    (pos == at ||
     if IsGroup(data, pos) then
       var groupEnd := pos + ParseGroupHeader(data, pos).groupSize;
       pos < groupEnd <= end &&
       (Reaches(data, pos + HEADER_SIZE, groupEnd, at)
        || (Walk(data, pos + HEADER_SIZE, groupEnd).Done? && Reaches(data, groupEnd, end, at)))
     else
       var recordEnd := pos + HEADER_SIZE + ParseRecordHeader(data, pos).dataSize;
       recordEnd <= end && Reaches(data, recordEnd, end, at))
  }

  lemma {:induction false} ReachedFits(data: Blob, pos: nat, end: nat, at: nat)
    requires end <= |data| && Reaches(data, pos, end, at)
    ensures at + HEADER_SIZE <= end
    decreases if pos < end then end - pos else 0
  {
    hide ParseRecordHeader, ParseGroupHeader, IsGroup;
    if pos != at {
      if IsGroup(data, pos) {
        var groupEnd := pos + ParseGroupHeader(data, pos).groupSize;
        if Reaches(data, pos + HEADER_SIZE, groupEnd, at) {
          ReachedFits(data, pos + HEADER_SIZE, groupEnd, at);
        } else {
          ReachedFits(data, groupEnd, end, at);
        }
      } else {
        ReachedFits(data, pos + HEADER_SIZE + ParseRecordHeader(data, pos).dataSize, end, at);
      }
    }
  }

  /** A walk that reaches a group of size zero stays there, having just emitted its two
      events. */
  lemma {:induction false} ZeroGroupStalls(data: Blob, pos: nat, end: nat, at: nat)
    requires end <= |data| && Reaches(data, pos, end, at) && at + HEADER_SIZE <= end && ZeroGroup(data, at)
    ensures var w := Walk(data, pos, end);
      && w.Stalled? && w.pos == at && |w.events| >= 2
      && w.events[|w.events| - 2..] == [StartOf(data, at), GroupEnd(at)]
    decreases if pos < end then end - pos else 0
  {
    hide ParseRecordHeader, ParseGroupHeader, IsGroup;
    if pos != at {
      if IsGroup(data, pos) {
        var groupEnd := pos + ParseGroupHeader(data, pos).groupSize;
        if Reaches(data, pos + HEADER_SIZE, groupEnd, at) {
          ReachedFits(data, pos + HEADER_SIZE, groupEnd, at);
          ZeroGroupStalls(data, pos + HEADER_SIZE, groupEnd, at);
        } else {
          ZeroGroupStalls(data, groupEnd, end, at);
        }
      } else {
        ZeroGroupStalls(data, pos + HEADER_SIZE + ParseRecordHeader(data, pos).dataSize, end, at);
      }
    }
  }

  /** A walk stalls exactly when it reaches a group of size zero. */
  lemma StallsIff(data: Blob, pos: nat, end: nat)
    requires end <= |data|
    ensures Walk(data, pos, end).Stalled?
       <==> exists at | 0 <= at && at + HEADER_SIZE <= end :: Reaches(data, pos, end, at) && ZeroGroup(data, at)
  {
    hide ParseRecordHeader, ParseGroupHeader, IsGroup, Walk, Reaches;
    var w := Walk(data, pos, end);
    if w.Stalled? {
      WalkFailsOnlyAtGroups(data, pos, end);
      StopIsReached(data, pos, end);
    }
    if at :| 0 <= at && at + HEADER_SIZE <= end && Reaches(data, pos, end, at) && ZeroGroup(data, at) {
      ZeroGroupStalls(data, pos, end, at);
    }
  }

  lemma {:induction false} StopIsReached(data: Blob, pos: nat, end: nat)
    requires end <= |data| && !Walk(data, pos, end).Done?
    ensures Reaches(data, pos, end, Walk(data, pos, end).pos)
    decreases if pos < end then end - pos else 0
  {
    hide ParseRecordHeader, ParseGroupHeader, IsGroup;
    if IsGroup(data, pos) {
      var groupEnd := pos + ParseGroupHeader(data, pos).groupSize;
      if pos < groupEnd <= end {
        if Walk(data, pos + HEADER_SIZE, groupEnd).Done? {
          StopIsReached(data, groupEnd, end);
        } else {
          StopIsReached(data, pos + HEADER_SIZE, groupEnd);
        }
      }
    } else {
      StopIsReached(data, pos + HEADER_SIZE + ParseRecordHeader(data, pos).dataSize, end);
    }
  }

  // ------------------------------------------------------------------ literal bytes

  /** The four bytes at `pos`. */
  predicate Holds(data: Blob, pos: nat, a: byte, b: byte, c: byte, d: byte)
    requires pos + 4 <= |data|
  {
    data[pos] == a && data[pos + 1] == b && data[pos + 2] == c && data[pos + 3] == d
  }

  /** The header of a top-level group of 64 bytes for records of type STAT; the last eight
      bytes may be anything. */
  ghost predicate GroupSample(data: Blob, pos: nat)
    requires pos + HEADER_SIZE <= |data|
  {
    && Holds(data, pos, 0x47, 0x52, 0x55, 0x50) && Holds(data, pos + 4, 0x40, 0x00, 0x00, 0x00)
    && Holds(data, pos + 8, 0x53, 0x54, 0x41, 0x54) && Holds(data, pos + 12, 0x00, 0x00, 0x00, 0x00)
  }

  /** The header of a STAT with 16 bytes of data, two flags set, FormID 0x00012345 and form
      version 208. */
  ghost predicate RecordSample(data: Blob, pos: nat)
    requires pos + HEADER_SIZE <= |data|
  {
    && Holds(data, pos, 0x53, 0x54, 0x41, 0x54) && Holds(data, pos + 4, 0x10, 0x00, 0x00, 0x00)
    && Holds(data, pos + 8, 0x20, 0x04, 0x00, 0x00) && Holds(data, pos + 12, 0x45, 0x23, 0x01, 0x00)
    && Holds(data, pos + 20, 0xD0, 0x00, 0x02, 0x00)
  }

  lemma GroupSampleRead(data: Blob, pos: nat)
    requires pos + HEADER_SIZE <= |data| && GroupSample(data, pos)
    ensures IsGroup(data, pos) && ParseGroupHeader(data, pos).groupSize == 64
    ensures StartOf(data, pos) == GroupStart(pos, 0, 0x54415453, 64)
  {
    hide ParseGroupHeader, Word4, IsGroup;
    SizeOfGroup();
    LabelOfGroup();
    TypeOfGroup();
    SignatureHeld(data, pos);
    GroupHeaderBytes(data, pos);
  }

  lemma SizeOfGroup()
    ensures Word4(0x40, 0, 0, 0) == 64
  {}

  lemma LabelOfGroup()
    ensures Word4(0x53, 0x54, 0x41, 0x54) == 0x54415453
  {}

  lemma TypeOfGroup()
    ensures Word4(0, 0, 0, 0) == 0
  {}

  lemma SizeOfRecord()
    ensures Word4(0x10, 0, 0, 0) == 16
  {}

  lemma FlagsOfRecord()
    ensures Word4(0x20, 4, 0, 0) == 0x420
  {}

  lemma FormIdOfRecord()
    ensures Word4(0x45, 0x23, 1, 0) == 0x0001_2345
  {}

  lemma VersionOfRecord()
    ensures Word2(0xD0, 0) == 208
  {}

  lemma SignatureHeld(data: Blob, pos: nat)
    requires pos + HEADER_SIZE <= |data|
    ensures Holds(data, pos, 0x47, 0x52, 0x55, 0x50) ==> IsGroup(data, pos)
    ensures Holds(data, pos, 0x53, 0x54, 0x41, 0x54) ==> !IsGroup(data, pos) && data[pos..pos + 4] == [0x53, 0x54, 0x41, 0x54]
  {
    assert data[pos..pos + 4][0] == data[pos];
  }

  lemma RecordSampleRead(data: Blob, pos: nat)
    requires pos + HEADER_SIZE <= |data| && RecordSample(data, pos)
    ensures !IsGroup(data, pos) && ParseRecordHeader(data, pos).dataSize == 16
    ensures RecordOf(data, pos) == RecordEvent(pos, 0x0001_2345, [0x53, 0x54, 0x41, 0x54], 0x420, 208)
  {
    hide ParseRecordHeader, Word2, Word4, IsGroup;
    SizeOfRecord();
    FlagsOfRecord();
    FormIdOfRecord();
    VersionOfRecord();
    SignatureHeld(data, pos);
    RecordHeaderBytes(data, pos);
    SliceOfSlice(data, pos, 24, 0, 4);
  }

  /** On the bytes of that group around that record, the walk enters the group, reports the
      record and leaves, whatever the record's data. */
  lemma SampleWalk(data: Blob)
    requires |data| == 64 && GroupSample(data, 0) && RecordSample(data, 24)
    ensures Walk(data, 0, 64) == Done([
      GroupStart(0, 0, 0x54415453, 64),
      RecordEvent(24, 0x0001_2345, [0x53, 0x54, 0x41, 0x54], 0x420, 208),
      GroupEnd(0)])
  {
    hide ParseRecordHeader, ParseGroupHeader, IsGroup, StartOf, RecordOf;
    GroupSampleRead(data, 0);
    RecordSampleRead(data, 24);
    hide Holds, GroupSample, RecordSample;
    assert Walk(data, 64, 64) == Done([]);
    assert Walk(data, 24, 64) == Prepend([RecordOf(data, 24)], Walk(data, 64, 64));
  }

  /** The smallest file body on which the source never ends: one empty group header. */
  lemma EmptyHeaderStalls()
    ensures var data := GRUP_SIG + LE(0, 20);
      Walk(data, 0, |data|) == Stalled([GroupStart(0, 0, 0, 0), GroupEnd(0)], 0)
  {
    hide LE, FromLE, Pow256;
    var h := GroupHeader(0, 0, 0, 0, 0);
    GroupHeaderRoundTrip(h, [], []);
    ZerosJoin();
    assert GRUP_SIG + LE(0, 20) == [] + PrintGroupHeader(h) + [];
  }

  lemma ZerosJoin()
    ensures LE(0, 20) == LE(0, 4) + LE(0, 4) + LE(0, 4) + LE(0, 4) + LE(0, 4)
  {
    ZerosAre(20);
    ZerosAre(4);
  }

  lemma {:induction false} ZerosAre(k: nat)
    ensures LE(0, k) == seq(k, _ => 0)
  {
    if k > 0 {
      ZerosAre(k - 1);
    }
  }

  // ------------------------------------------------------- walking what was printed

  function EventsOf(n: Node, offset: nat): seq<Event>
    requires Printable(n)
  {
    match n
    case Record(sig, flags, formId, _, version, _, _) => [RecordEvent(offset, formId, sig, flags, version)]
    case Group(groupLabel, t, _, _, children) =>
      [GroupStart(offset, t, groupLabel, |Print(n)|)] + Events(children, offset + HEADER_SIZE) + [GroupEnd(offset)]
  }

  /** The events of a forest printed at `offset`, in file order. */
  function Events(ns: seq<Node>, offset: nat): seq<Event>
    requires AllPrintable(ns)
  {
    if |ns| == 0 then [] else EventsOf(ns[0], offset) + Events(ns[1..], offset + |Print(ns[0])|)
  }

  lemma RecordWalked(n: Node, pre: Blob, post: Blob, end: nat)
    requires n.Record? && Valid(n) && |pre| + |Print(n)| <= end <= |pre + Print(n) + post|
    ensures var data := pre + Print(n) + post;
      Walk(data, |pre|, end) == Prepend(EventsOf(n, |pre|), Walk(data, |pre| + |Print(n)|, end))
  {
    hide ParseRecordHeader, PrintRecordHeader;
    var data, header := pre + Print(n) + post, PrintRecordHeader(HeaderOf(n));
    RecordHeaderRoundTrip(HeaderOf(n), pre, n.data + post);
    assert data == pre + header + (n.data + post);
    HeaderSignature(data, |pre|);
    PrependTwice([], [], Walk(data, |pre|, end));
    RecordStep(data, |pre|, end, [], |pre| + |Print(n)|);
    assert [] + EventsOf(n, |pre|) == EventsOf(n, |pre|);
  }

  lemma HeaderSignature(data: Blob, pos: nat)
    requires pos + HEADER_SIZE <= |data|
    ensures ParseRecordHeader(data, pos).signature == data[pos..pos + 4]
  {}

  function GroupHeaderOf(n: Node): GroupHeader
    requires n.Group? && Printable(n)
  {
    GroupHeader(|Print(n)|, n.groupLabel, n.groupType, n.stamp, n.unknown)
  }

  lemma PrintedGroup(n: Node, pre: Blob, post: Blob)
    requires n.Group? && Printable(n) && Valid(n)
    ensures Print(n) == PrintGroupHeader(GroupHeaderOf(n)) + PrintAll(n.children)
    ensures var data := pre + Print(n) + post;
      IsGroup(data, |pre|) && ParseGroupHeader(data, |pre|) == GroupHeaderOf(n)
  {
    hide ParseGroupHeader, PrintGroupHeader;
    var h, body := GroupHeaderOf(n), PrintAll(n.children);
    GroupHeaderRoundTrip(h, pre, body + post);
    assert pre + Print(n) + post == pre + PrintGroupHeader(h) + (body + post);
  }

  lemma GroupWalked(n: Node, pre: Blob, post: Blob, end: nat)
    requires n.Group? && Printable(n) && Valid(n) && |pre| + |Print(n)| <= end <= |pre + Print(n) + post|
    requires Walk(pre + Print(n) + post, |pre| + HEADER_SIZE, |pre| + |Print(n)|)
          == Done(Events(n.children, |pre| + HEADER_SIZE))
    ensures var data := pre + Print(n) + post;
      Walk(data, |pre|, end) == Prepend(EventsOf(n, |pre|), Walk(data, |pre| + |Print(n)|, end))
  {
    hide ParseGroupHeader, PrintGroupHeader, Walk, PrintAll, Valid, AllValid, AllPrintable, Events;
    var data := pre + Print(n) + post;
    PrintedGroup(n, pre, post);
    PrependTwice([], [], Walk(data, |pre|, end));
    GroupStep(data, |pre|, end, [], |pre| + |Print(n)|);
    assert [] + [StartOf(data, |pre|)] + Events(n.children, |pre| + HEADER_SIZE) + [GroupEnd(|pre|)] == EventsOf(n, |pre|);
  }

  /** Walking a printed forest emits exactly its events, wherever it stands. */
  lemma {:induction false} WalksForest(ns: seq<Node>, pre: Blob, post: Blob)
    requires AllPrintable(ns) && AllValid(ns)
    ensures Walk(pre + PrintAll(ns) + post, |pre|, |pre| + |PrintAll(ns)|) == Done(Events(ns, |pre|))
    decreases ns
  {
    hide ParseRecordHeader, ParseGroupHeader, PrintRecordHeader, PrintGroupHeader, Print, Walk, EventsOf;
    var data, end := pre + PrintAll(ns) + post, |pre| + |PrintAll(ns)|;
    if |ns| == 0 {
      EndStep(data, |pre|, end, []);
      PrependTwice([], [], Walk(data, |pre|, end));
    } else {
      var n, rest := ns[0], ns[1..];
      var post' := PrintAll(rest) + post;
      assert data == (pre + Print(n)) + PrintAll(rest) + post == pre + Print(n) + post';
      WalksForest(rest, pre + Print(n), post);
      match n
      case Record(_, _, _, _, _, _, _) => RecordWalked(n, pre, post', end);
      case Group(_, _, _, _, children) =>
        PrintedGroup(n, pre, post');
        var header := PrintGroupHeader(GroupHeaderOf(n));
        assert data == (pre + header) + PrintAll(children) + post';
        WalksForest(children, pre + header, post');
        GroupWalked(n, pre, post', end);
    }
  }

  /** After a printed forest, the walk goes on with what follows it. */
  lemma {:induction false} ForestThenRest(ns: seq<Node>, pre: Blob, post: Blob, end: nat)
    requires AllPrintable(ns) && AllValid(ns) && |pre| + |PrintAll(ns)| <= end <= |pre + PrintAll(ns) + post|
    ensures var data := pre + PrintAll(ns) + post;
      Walk(data, |pre|, end) == Prepend(Events(ns, |pre|), Walk(data, |pre| + |PrintAll(ns)|, end))
    decreases ns
  {
    hide ParseRecordHeader, ParseGroupHeader, PrintRecordHeader, PrintGroupHeader, Print, Walk, EventsOf;
    var data := pre + PrintAll(ns) + post;
    if |ns| == 0 {
      PrependTwice([], [], Walk(data, |pre|, end));
    } else {
      var n, rest := ns[0], ns[1..];
      var post' := PrintAll(rest) + post;
      assert data == (pre + Print(n)) + PrintAll(rest) + post == pre + Print(n) + post';
      ForestThenRest(rest, pre + Print(n), post, end);
      PrependTwice(EventsOf(n, |pre|), Events(rest, |pre| + |Print(n)|), Walk(data, |pre| + |PrintAll(ns)|, end));
      NodeWalked(n, pre, post', end);
    }
  }

  lemma NodeWalked(n: Node, pre: Blob, post: Blob, end: nat)
    requires Printable(n) && Valid(n) && |pre| + |Print(n)| <= end <= |pre + Print(n) + post|
    ensures var data := pre + Print(n) + post;
      Walk(data, |pre|, end) == Prepend(EventsOf(n, |pre|), Walk(data, |pre| + |Print(n)|, end))
  {
    hide ParseRecordHeader, ParseGroupHeader, PrintRecordHeader, PrintGroupHeader, Walk, EventsOf;
    match n
    case Record(_, _, _, _, _, _, _) => RecordWalked(n, pre, post, end);
    case Group(_, _, _, _, children) =>
      PrintedGroup(n, pre, post);
      var header := PrintGroupHeader(GroupHeaderOf(n));
      assert pre + Print(n) + post == (pre + header) + PrintAll(children) + post;
      WalksForest(children, pre + header, post);
      GroupWalked(n, pre, post, end);
  }

  lemma CutHeader(last: Node, n: nat, pre: Blob)
    requires Printable(last) && Valid(last) && HEADER_SIZE <= n < |Print(last)|
    ensures var data := pre + Print(last)[..n];
      && (last.Group? <==> IsGroup(data, |pre|))
      && (last.Group? ==> ParseGroupHeader(data, |pre|).groupSize == |Print(last)|)
      && (last.Record? ==> HEADER_SIZE + ParseRecordHeader(data, |pre|).dataSize == |Print(last)|)
  {
    hide ParseRecordHeader, ParseGroupHeader, PrintRecordHeader, PrintGroupHeader;
    var data := pre + Print(last)[..n];
    match last
    case Record(_, _, _, _, _, _, body) =>
      var h := PrintRecordHeader(HeaderOf(last));
      RecordHeaderRoundTrip(HeaderOf(last), pre, body[..n - HEADER_SIZE]);
      assert data == pre + h + body[..n - HEADER_SIZE];
      HeaderSignature(data, |pre|);
    case Group(_, _, _, _, children) =>
      PrintedGroup(last, [], []);
      var h := PrintGroupHeader(GroupHeaderOf(last));
      GroupHeaderRoundTrip(GroupHeaderOf(last), pre, PrintAll(children)[..n - HEADER_SIZE]);
      assert data == pre + h + PrintAll(children)[..n - HEADER_SIZE];
  }

  /** A container cut off inside its last node: cut inside a record, or inside any header,
      the walk ends quietly with everything before it; cut inside a group's body, it fails
      at that group, and reports nothing of it. */
  lemma CutShort(ns: seq<Node>, last: Node, n: nat, pre: Blob)
    requires AllPrintable(ns) && AllValid(ns) && Printable(last) && Valid(last) && n < |Print(last)|
    ensures var data := pre + PrintAll(ns) + Print(last)[..n];
      Walk(data, |pre|, |data|)
        == if last.Record? || n < HEADER_SIZE then Done(Events(ns, |pre|))
           else Overrun(Events(ns, |pre|), |pre| + |PrintAll(ns)|)
  {
    hide ParseRecordHeader, ParseGroupHeader, PrintAll, Print, Events, Valid, AllValid, Walk;
    var post := Print(last)[..n];
    var data := pre + PrintAll(ns) + post;
    var at := |pre + PrintAll(ns)|;
    ForestThenRest(ns, pre, post, |data|);
    if n < HEADER_SIZE {
      EndStep(data, at, |data|, Events(ns, |pre|));
    } else {
      CutHeader(last, n, pre + PrintAll(ns));
      if last.Group? {
        GroupStep(data, at, |data|, Events(ns, |pre|), at + |Print(last)|);
      } else {
        RecordStep(data, at, |data|, Events(ns, |pre|), at + |Print(last)|);
      }
    }
  }

  // ------------------------------------------------------------------- whole files

  /** A record as the flat walk reports it. */
  datatype RecordMeta = RecordMeta(offset: nat, signature: Signature, flags: nat, formVersion: nat)

  datatype FileWalk = TooSmall | Walking(walked: Walked)

  /** Skips the file header record and walks the rest of the file. */
  method WalkStructure(data: Blob) returns (r: FileWalk)
    ensures r == StructureOf(data)
  {
    if |data| < HEADER_SIZE {
      return TooSmall;
    }
    var tes4 := ParseRecordHeader(data, 0);
    var w := WalkContainer(data, HEADER_SIZE + tes4.dataSize, |data|);
    r := Walking(w);
  }

  function StructureOf(data: Blob): FileWalk {
    if |data| < HEADER_SIZE then TooSmall
    else Walking(Walk(data, HEADER_SIZE + ParseRecordHeader(data, 0).dataSize, |data|))
  }

  function Metas(events: seq<Event>): seq<RecordMeta> {
    if |events| == 0 then []
    else match events[0]
      case RecordEvent(offset, _, sig, flags, version) => [RecordMeta(offset, sig, flags, version)] + Metas(events[1..])
      case GroupStart(_, _, _, _) => Metas(events[1..])
      case GroupEnd(_) => Metas(events[1..])
  }

  /** What the flat walk keeps of a record. */
  lemma MetaOfRecord(e: Event)
    requires e.RecordEvent?
    ensures |Metas([e])| == 1
    ensures var m := Metas([e])[0];
      m.offset == e.offset && m.signature == e.signature && m.flags == e.flags && m.formVersion == e.formVersion
  {
    assert [e][1..] == [];
  }

  /** Keeps the records among the events. */
  method RecordsAmong(events: seq<Event>) returns (metas: seq<RecordMeta>)
    ensures metas == Metas(events)
  {
    metas := [];
    assert events[0..] == events;
    for i := 0 to |events|
      invariant metas + Metas(events[i..]) == Metas(events)
    {
      assert events[i..][1..] == events[i + 1..];
      if events[i].RecordEvent? {
        var e := events[i];
        metas := metas + [RecordMeta(e.offset, e.signature, e.flags, e.formVersion)];
      }
    }
    assert metas + [] == metas;
  }

  /** The flat record stream: the same walk with the groups left out. `complete`
      says whether the walk reached the end of the file. */
  method WalkRecords(data: Blob) returns (metas: seq<RecordMeta>, complete: bool)
    ensures complete <==> |data| >= HEADER_SIZE && data[..4] == [0x54, 0x45, 0x53, 0x34] && StructureOf(data).walked.Done?
    ensures metas == if |data| >= HEADER_SIZE && data[..4] == [0x54, 0x45, 0x53, 0x34] then Metas(StructureOf(data).walked.events) else []
  {
    hide Walk, Metas;
    metas, complete := [], false;
    if |data| < HEADER_SIZE || data[0..4] != TES4_SIG {
      return;
    }
    var tes4 := ParseRecordHeader(data, 0);
    var w := WalkContainer(data, HEADER_SIZE + tes4.dataSize, |data|);
    metas := RecordsAmong(w.events);
    complete := w.Done?;
  }

  /** The records of a forest printed at `offset`, parents before children. */
  function PreOrder(ns: seq<Node>, offset: nat): seq<RecordMeta>
    requires AllPrintable(ns)
  {
    if |ns| == 0 then [] else PreOrderOf(ns[0], offset) + PreOrder(ns[1..], offset + |Print(ns[0])|)
  }

  function PreOrderOf(n: Node, offset: nat): seq<RecordMeta>
    requires Printable(n)
  {
    match n
    case Record(sig, flags, _, _, version, _, _) => [RecordMeta(offset, sig, flags, version)]
    case Group(_, _, _, _, children) => PreOrder(children, offset + HEADER_SIZE)
  }

  lemma {:induction false} MetasConcat(a: seq<Event>, b: seq<Event>)
    ensures Metas(a + b) == Metas(a) + Metas(b)
  {
    if |a| == 0 {
      assert a + b == b;
    } else {
      assert (a + b)[1..] == a[1..] + b;
      MetasConcat(a[1..], b);
    }
  }

  lemma {:induction false} MetasOfEvents(ns: seq<Node>, offset: nat)
    requires AllPrintable(ns)
    ensures Metas(Events(ns, offset)) == PreOrder(ns, offset)
    decreases ns
  {
    if |ns| > 0 {
      hide Print;
      var n := ns[0];
      MetasOfEvents(ns[1..], offset + |Print(n)|);
      MetasConcat(EventsOf(n, offset), Events(ns[1..], offset + |Print(n)|));
      match n
      case Record(_, _, _, _, _, _, _) =>
        assert EventsOf(n, offset)[1..] == [];
      case Group(_, _, _, _, children) =>
        MetasOfEvents(children, offset + HEADER_SIZE);
        MetasOfGroup(n, offset);
    }
  }

  lemma MetasOfGroup(n: Node, offset: nat)
    requires n.Group? && Printable(n)
    ensures Metas(EventsOf(n, offset)) == Metas(Events(n.children, offset + HEADER_SIZE))
  {
    hide Print, Events;
    var start, inner := EventsOf(n, offset)[0], Events(n.children, offset + HEADER_SIZE);
    MetasConcat([start], inner + [GroupEnd(offset)]);
    MetasConcat(inner, [GroupEnd(offset)]);
    assert EventsOf(n, offset) == [start] + (inner + [GroupEnd(offset)]);
    assert [start][1..] == [] && [GroupEnd(offset)][1..] == [];
  }

  /** A file printed from its header record and a forest: the structural walk
      reads the forest back as events and the flat walk lists its records. */
  lemma PrintedFileIsRead(tes4: Node, ns: seq<Node>)
    requires tes4.Record? && tes4.signature == TES4_SIG && Valid(tes4)
    requires AllPrintable(ns) && AllValid(ns)
    ensures var data := Print(tes4) + PrintAll(ns);
      && data[..4] == TES4_SIG
      && StructureOf(data) == Walking(Done(Events(ns, |Print(tes4)|)))
      && Metas(StructureOf(data).walked.events) == PreOrder(ns, |Print(tes4)|)
  {
    hide ParseRecordHeader, Walk;
    var data := Print(tes4) + PrintAll(ns);
    var h := PrintRecordHeader(HeaderOf(tes4));
    RecordHeaderRoundTrip(HeaderOf(tes4), [], tes4.data + PrintAll(ns));
    assert data == [] + h + (tes4.data + PrintAll(ns)) == Print(tes4) + PrintAll(ns) + [];
    HeaderSignature(data, 0);
    WalksForest(ns, Print(tes4), []);
    MetasOfEvents(ns, |Print(tes4)|);
  }
}
