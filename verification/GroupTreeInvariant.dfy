/** What the group arena keeps after every event of any walk, printed or not. */
module GroupTreeInvariant {
  import opened Wrappers
  import opened Bytes
  import opened EsmFormat
  import opened EsmWalk
  import opened GroupTree

  /** Children come later, one level deeper, and name their parent; siblings are
      in file order. */
  ghost predicate ChildLinks(a: Arena) {
    forall i | 0 <= i < |a.groups| :: ChildrenLink(a, i, a.groups[i].children) && Ascending(a.groups[i].children)
  }

  ghost predicate ChildrenLink(a: Arena, i: nat, refs: seq<ChildRef>)
    requires i < |a.groups|
  {
    forall k | 0 <= k < |refs| && refs[k].GroupRef? :: ChildOf(a, refs[k].idx, i)
  }

  ghost predicate Ascending(refs: seq<ChildRef>) {
    forall k, l | 0 <= k < l < |refs| && refs[k].GroupRef? && refs[l].GroupRef? :: refs[k].idx < refs[l].idx
  }

  ghost predicate ChildOf(a: Arena, c: nat, i: nat)
    requires i < |a.groups|
  {
    i < c < |a.groups| && a.groups[c].parent == Some(i) && a.groups[c].depth == a.groups[i].depth + 1
  }

  /** Every group that has a parent is among its children. */
  ghost predicate ParentLinks(a: Arena) {
    forall c | 0 <= c < |a.groups| && a.groups[c].parent.Some? ::
      a.groups[c].parent.value < c && GroupRef(c) in a.groups[a.groups[c].parent.value].children
  }

  /** The roots are exactly the groups without a parent, in file order. */
  ghost predicate RootLinks(a: Arena) {
    && (forall c: nat :: c in a.roots <==> c < |a.groups| && a.groups[c].parent.None?)
    && (forall k, l | 0 <= k < l < |a.roots| :: a.roots[k] < a.roots[l])
    && (forall c | 0 <= c < |a.groups| && a.groups[c].parent.None? :: a.groups[c].depth == 0)
  }

  /** The open groups form a path down from a root. */
  ghost predicate StackPath(a: Arena) {
    && StackValid(a)
    && (forall k | 0 <= k < |a.stack| ::
          a.groups[a.stack[k]].depth == k && a.groups[a.stack[k]].parent == if k == 0 then None else Some(a.stack[k - 1]))
  }

  /** The offset map finds every group by its start and nothing else. */
  ghost predicate OffsetsInverse(a: Arena) {
    && (forall i | 0 <= i < |a.groups| :: a.groups[i].start in a.offsets && a.offsets[a.groups[i].start] == i)
    && (forall o <- a.offsets :: a.offsets[o] < |a.groups| && a.groups[a.offsets[o]].start == o)
  }

  /** A child lies inside its parent, behind the parent's header. */
  ghost predicate Nested(a: Arena) {
    forall c | 0 <= c < |a.groups| && a.groups[c].parent.Some? && a.groups[c].parent.value < |a.groups| ::
      var p := a.groups[a.groups[c].parent.value];
      p.start + HEADER_SIZE <= a.groups[c].start && a.groups[c].end <= p.end
  }

  ghost predicate WellFormed(a: Arena) {
    ChildLinks(a) && ParentLinks(a) && RootLinks(a) && StackPath(a) && OffsetsInverse(a) && Nested(a)
  }

  /** Every group so far starts before `pos`. */
  ghost predicate StartedBefore(a: Arena, pos: nat) {
    forall i | 0 <= i < |a.groups| :: a.groups[i].start < pos
  }

  /** The container `pos..end` lies inside the group on top of the stack. */
  ghost predicate InsideTop(a: Arena, pos: nat, end: nat)
    requires StackValid(a)
  {
    Top(a).Some? ==>
      var g := a.groups[Top(a).value];
      g.start + HEADER_SIZE <= pos && end <= g.end
  }

  // ------------------------------------------------------------------- one event

  /** How one event changes the groups that are there. */
  lemma PushKeeps(a: Arena, e: Event)
    requires StackValid(a)
    ensures var b := Push(a, e);
      && |a.groups| <= |b.groups|
      && forall j | 0 <= j < |a.groups| ::
           b.groups[j] == a.groups[j].(children := b.groups[j].children) && a.groups[j].children <= b.groups[j].children
  {}

  /** Groups keep what their children's links rely on. */
  ghost predicate Extends(a: Arena, b: Arena) {
    && |a.groups| <= |b.groups|
    && forall j | 0 <= j < |a.groups| :: b.groups[j] == a.groups[j].(children := b.groups[j].children)
  }

  lemma ChildrenStillLink(a: Arena, b: Arena, i: nat, refs: seq<ChildRef>)
    requires Extends(a, b) && i < |a.groups| && ChildrenLink(a, i, refs)
    ensures ChildrenLink(b, i, refs)
  {
    forall k | 0 <= k < |refs| && refs[k].GroupRef? ensures ChildOf(b, refs[k].idx, i) {
      assert ChildOf(a, refs[k].idx, i);
    }
  }

  lemma ChildAppended(a: Arena, b: Arena, i: nat, refs: seq<ChildRef>, c: ChildRef)
    requires i < |a.groups| && i < |b.groups| && ChildrenLink(a, i, refs) && ChildrenLink(b, i, refs) && Ascending(refs)
    requires c.GroupRef? ==> c.idx == |a.groups| && ChildOf(b, c.idx, i)
    ensures ChildrenLink(b, i, refs + [c]) && Ascending(refs + [c])
  {
    forall k | 0 <= k < |refs| && refs[k].GroupRef? ensures refs[k].idx < |a.groups| {
      assert ChildOf(a, refs[k].idx, i);
    }
  }

  lemma EnterKeepsChildLinks(a: Arena, e: Event)
    requires WellFormed(a) && e.GroupStart?
    ensures ChildLinks(Push(a, e))
  {
    hide Push, ParentLinks, RootLinks, OffsetsInverse, Nested, ChildrenLink, Ascending;
    var b, n := Push(a, e), |a.groups|;
    EnterEffect(a, e);
    PushKeeps(a, e);
    forall i | 0 <= i < |b.groups|
      ensures ChildrenLink(b, i, b.groups[i].children) && Ascending(b.groups[i].children)
    {
      if i == n {
        NoChildren(b, i);
      } else {
        ChildrenStillLink(a, b, i, a.groups[i].children);
        if Top(a) == Some(i) {
          assert a.stack[|a.stack| - 1] == i && b.groups[i].depth == |a.stack| - 1;
          ChildAppended(a, b, i, a.groups[i].children, GroupRef(n));
        }
      }
    }
  }

  lemma NoChildren(a: Arena, i: nat)
    requires i < |a.groups|
    ensures ChildrenLink(a, i, []) && Ascending([])
  {}

  lemma EnterKeepsParents(a: Arena, e: Event)
    requires WellFormed(a) && e.GroupStart?
    ensures ParentLinks(Push(a, e))
  {
    hide Push, ChildLinks, RootLinks, OffsetsInverse, Nested;
    var b, n := Push(a, e), |a.groups|;
    EnterEffect(a, e);
    PushKeeps(a, e);
    forall c | 0 <= c < |b.groups| && b.groups[c].parent.Some?
      ensures b.groups[c].parent.value < c && GroupRef(c) in b.groups[b.groups[c].parent.value].children
    {
      if c < n {
        StillListed(a, b, a.groups[c].parent.value, GroupRef(c));
      } else {
        var t := Top(a).value;
        assert b.groups[t].children[|b.groups[t].children| - 1] == GroupRef(n);
      }
    }
  }

  lemma StillListed(a: Arena, b: Arena, p: nat, r: ChildRef)
    requires p < |a.groups| && p < |b.groups| && a.groups[p].children <= b.groups[p].children
    requires r in a.groups[p].children
    ensures r in b.groups[p].children
  {
    var k :| 0 <= k < |a.groups[p].children| && a.groups[p].children[k] == r;
    assert b.groups[p].children[k] == r;
  }

  lemma EnterKeepsRoots(a: Arena, e: Event)
    requires WellFormed(a) && e.GroupStart?
    ensures RootLinks(Push(a, e))
  {
    hide Push, ChildLinks, ParentLinks, OffsetsInverse, Nested;
    var b, n := Push(a, e), |a.groups|;
    EnterEffect(a, e);
    PushKeeps(a, e);
    assert b.roots == if Top(a).None? then a.roots + [n] else a.roots;
    forall c: nat ensures c in b.roots <==> c < |b.groups| && b.groups[c].parent.None? {
      assert c in b.roots <==> c in a.roots || (Top(a).None? && c == n);
      assert c < n ==> b.groups[c].parent == a.groups[c].parent;
    }
    forall k, l | 0 <= k < l < |b.roots| ensures b.roots[k] < b.roots[l] {
      assert a.roots[k] in a.roots;
    }
    forall c | 0 <= c < |b.groups| && b.groups[c].parent.None? ensures b.groups[c].depth == 0 {
      assert c < n ==> b.groups[c].parent == a.groups[c].parent && b.groups[c].depth == a.groups[c].depth;
    }
  }

  lemma EnterKeepsStack(a: Arena, e: Event)
    requires WellFormed(a) && e.GroupStart?
    ensures StackPath(Push(a, e))
  {
    hide Push, ChildLinks, ParentLinks, RootLinks, OffsetsInverse, Nested;
    EnterEffect(a, e);
    PushKeeps(a, e);
  }

  lemma EnterKeepsOffsets(a: Arena, e: Event)
    requires WellFormed(a) && e.GroupStart? && StartedBefore(a, e.offset)
    ensures OffsetsInverse(Push(a, e)) && StartedBefore(Push(a, e), e.offset + 1)
  {
    hide ChildLinks, RootLinks, ParentLinks, Nested;
    var b, n := Push(a, e), |a.groups|;
    EnterEffect(a, e);
    PushKeeps(a, e);
    assert b.offsets == a.offsets[e.offset := n];
    hide Push;
    forall o <- b.offsets ensures b.offsets[o] < |b.groups| && b.groups[b.offsets[o]].start == o {}
  }

  lemma EnterKeepsNested(a: Arena, e: Event)
    requires WellFormed(a) && e.GroupStart? && InsideTop(a, e.offset, e.offset + e.groupSize)
    ensures Nested(Push(a, e))
  {
    hide ChildLinks, RootLinks, OffsetsInverse, Push;
    var b, n := Push(a, e), |a.groups|;
    EnterEffect(a, e);
    PushKeeps(a, e);
    forall c | 0 <= c < |b.groups| && b.groups[c].parent.Some? && b.groups[c].parent.value < |b.groups|
      ensures b.groups[b.groups[c].parent.value].start + HEADER_SIZE <= b.groups[c].start
      ensures b.groups[c].end <= b.groups[b.groups[c].parent.value].end
    {
      if c < n {
        ParentIsEarlier(a, c);
      }
    }
  }

  lemma ParentIsEarlier(a: Arena, c: nat)
    requires ParentLinks(a) && c < |a.groups| && a.groups[c].parent.Some?
    ensures a.groups[c].parent.value < c
  {}

  /** Entering a group inside the group on top keeps the arena well formed. */
  lemma EnterKeeps(a: Arena, e: Event)
    requires WellFormed(a) && e.GroupStart?
    requires StartedBefore(a, e.offset) && InsideTop(a, e.offset, e.offset + e.groupSize)
    ensures WellFormed(Push(a, e)) && StartedBefore(Push(a, e), e.offset + 1)
    ensures InsideTop(Push(a, e), e.offset + HEADER_SIZE, e.offset + e.groupSize)
  {
    hide ChildLinks, ParentLinks, RootLinks, OffsetsInverse, Nested, Push;
    EnterKeepsChildLinks(a, e);
    EnterKeepsParents(a, e);
    EnterKeepsRoots(a, e);
    EnterKeepsStack(a, e);
    EnterKeepsOffsets(a, e);
    EnterKeepsNested(a, e);
    EnterEffect(a, e);
  }

  lemma LeaveKeeps(a: Arena, e: Event)
    requires WellFormed(a) && e.GroupEnd?
    ensures WellFormed(Push(a, e))
  {
    if |a.stack| > 0 {
      LeaveEffect(a, e.offset);
    }
  }

  /** What a record changes: the group on top gains a child. */
  lemma RecordEffect(a: Arena, e: Event)
    requires StackValid(a) && e.RecordEvent?
    ensures var b := Push(a, e);
      && b == a.(groups := b.groups) && |b.groups| == |a.groups|
      && (forall j | 0 <= j < |a.groups| && Top(a) != Some(j) :: b.groups[j] == a.groups[j])
      && (Top(a).Some? ==>
            b.groups[Top(a).value].children == a.groups[Top(a).value].children + [RecordRef(e.formId, e.offset, e.signature)])
  {}

  lemma RecordKeepsLinks(a: Arena, e: Event)
    requires WellFormed(a) && e.RecordEvent?
    ensures ChildLinks(Push(a, e)) && ParentLinks(Push(a, e))
  {
    hide Push, RootLinks, OffsetsInverse, Nested, ChildrenLink, Ascending;
    var b := Push(a, e);
    RecordEffect(a, e);
    PushKeeps(a, e);
    forall i | 0 <= i < |b.groups|
      ensures ChildrenLink(b, i, b.groups[i].children) && Ascending(b.groups[i].children)
    {
      ChildrenStillLink(a, b, i, a.groups[i].children);
      if Top(a) == Some(i) {
        ChildAppended(a, b, i, a.groups[i].children, RecordRef(e.formId, e.offset, e.signature));
      }
    }
    forall c | 0 <= c < |b.groups| && b.groups[c].parent.Some?
      ensures b.groups[c].parent.value < c && GroupRef(c) in b.groups[b.groups[c].parent.value].children
    {
      StillListed(a, b, a.groups[c].parent.value, GroupRef(c));
    }
  }

  lemma StackKept(a: Arena, b: Arena)
    requires StackPath(a) && b.stack == a.stack && |a.groups| == |b.groups|
    requires forall j | 0 <= j < |a.groups| :: b.groups[j] == a.groups[j].(children := b.groups[j].children)
    ensures StackPath(b)
  {
    forall k | 0 <= k < |b.stack| ensures b.stack[k] < |b.groups| {
      assert a.stack[k] < |a.groups|;
    }
  }

  lemma RecordKeeps(a: Arena, e: Event)
    requires WellFormed(a) && e.RecordEvent?
    ensures WellFormed(Push(a, e))
  {
    hide Push, ChildLinks, ParentLinks;
    RecordEffect(a, e);
    PushKeeps(a, e);
    RecordKeepsLinks(a, e);
    var b := Push(a, e);
    StackKept(a, b);
    assert Nested(b) by {
      forall c | 0 <= c < |a.groups| && a.groups[c].parent.Some? ensures a.groups[c].parent.value < |a.groups| {
        ParentIsEarlier(a, c);
      }
    }
  }

  // ------------------------------------------------------------- every prefix of a walk

  ghost predicate AlwaysWellFormed(a: Arena, events: seq<Event>)
    requires StackValid(a)
  {
    forall k | 0 <= k <= |events| :: WellFormed(Fold(a, events[..k]))
  }

  lemma AlwaysConcat(a: Arena, es: seq<Event>, fs: seq<Event>)
    requires StackValid(a) && AlwaysWellFormed(a, es) && AlwaysWellFormed(Fold(a, es), fs)
    ensures AlwaysWellFormed(a, es + fs)
  {
    hide WellFormed, Fold;
    forall k | 0 <= k <= |es + fs| ensures WellFormed(Fold(a, (es + fs)[..k])) {
      if k <= |es| {
        assert (es + fs)[..k] == es[..k];
      } else {
        assert (es + fs)[..k] == es + fs[..k - |es|];
        FoldConcat(a, es, fs[..k - |es|]);
      }
    }
  }

  lemma AlwaysNone(a: Arena)
    requires WellFormed(a)
    ensures AlwaysWellFormed(a, [])
  {
    StackOf(a);
    hide WellFormed;
    var none: seq<Event> := [];
    assert none[..0] == none;
    assert Fold(a, []) == a;
  }

  lemma AlwaysOne(a: Arena, e: Event)
    requires WellFormed(a) && WellFormed(Push(a, e))
    ensures AlwaysWellFormed(a, [e])
  {
    StackOf(a);
    hide WellFormed, Push;
    FoldOne(a, e);
    assert Fold(a, []) == a;
    forall k | 0 <= k <= 1 ensures WellFormed(Fold(a, [e][..k])) {
      assert [e][..k] == if k == 0 then [] else [e];
    }
  }

  /** What a walk leaves behind: a well-formed arena with the same open groups,
      whose groups still have the places they had. */
  ghost predicate Resumes(a: Arena, b: Arena, pos: nat) {
    && WellFormed(b)
    && b.stack == a.stack
    && StartedBefore(b, pos)
    && |a.groups| <= |b.groups|
    && forall j | 0 <= j < |a.groups| :: b.groups[j].start == a.groups[j].start && b.groups[j].end == a.groups[j].end
  }

  lemma ResumesInside(a: Arena, b: Arena, pos: nat, from: nat, end: nat)
    requires StackValid(a) && StackValid(b) && Resumes(a, b, pos) && InsideTop(a, from, end)
    ensures InsideTop(b, from, end)
  {
    hide WellFormed;
  }

  /** After every prefix of the events of any walk the arena is well formed. */
  lemma {:induction false} WalkKeeps(data: Blob, pos: nat, end: nat, a: Arena)
    requires end <= |data| && WellFormed(a) && StartedBefore(a, pos) && InsideTop(a, pos, end)
    ensures AlwaysWellFormed(a, Walk(data, pos, end).events)
    ensures Walk(data, pos, end).Done? ==> Resumes(a, Fold(a, Walk(data, pos, end).events), if pos < end then end else pos)
    decreases if pos < end then end - pos else 0
  {
    hide WellFormed, ParseGroupHeader, ParseRecordHeader, Push, IsGroup;
    assert StackValid(a) by { StackOf(a); }
    if pos + HEADER_SIZE > end {
      AlwaysNone(a);
      assert Fold(a, []) == a;
    } else if IsGroup(data, pos) {
      var groupEnd := pos + ParseGroupHeader(data, pos).groupSize;
      AlwaysNone(a);
      if groupEnd <= end {
        GroupKeeps(data, pos, end, a, groupEnd);
      }
    } else {
      var recordEnd := pos + HEADER_SIZE + ParseRecordHeader(data, pos).dataSize;
      AlwaysNone(a);
      assert Fold(a, []) == a;
      if recordEnd <= end {
        var e := RecordOf(data, pos);
        var b := Push(a, e);
        RecordKeeps(a, e);
        RecordResumes(a, e, pos);
        ResumesInside(a, b, pos, recordEnd, end);
        WalkKeeps(data, recordEnd, end, b);
        AlwaysOne(a, e);
        FoldOne(a, e);
        AlwaysConcat(a, [e], Walk(data, recordEnd, end).events);
        FoldConcat(a, [e], Walk(data, recordEnd, end).events);
      }
    }
  }

  lemma StackOf(a: Arena)
    requires WellFormed(a)
    ensures StackValid(a)
  {}

  lemma RecordResumes(a: Arena, e: Event, pos: nat)
    requires WellFormed(a) && e.RecordEvent? && StartedBefore(a, pos)
    ensures Resumes(a, Push(a, e), pos) && StartedBefore(Push(a, e), pos + HEADER_SIZE)
    ensures InsideTop(a, pos, pos) ==> InsideTop(Push(a, e), pos, pos)
  {
    hide WellFormed;
    StackOf(a);
    PushKeeps(a, e);
    RecordKeeps(a, e);
  }

  /** Leaving a group opens again what was open before it. */
  lemma GroupCloses(a: Arena, start: Event, inner: seq<Event>, leave: Event, groupEnd: nat)
    requires StackValid(a) && start.GroupStart? && leave.GroupEnd?
    requires AlwaysWellFormed(a, [start] + inner)
    requires Resumes(Push(a, start), Fold(Push(a, start), inner), groupEnd)
    ensures var d := Push(Fold(Push(a, start), inner), leave);
      && AlwaysWellFormed(a, [start] + inner + [leave])
      && Fold(a, [start] + inner + [leave]) == d
      && Resumes(a, d, groupEnd)
  {
    hide WellFormed, Push, AlwaysWellFormed;
    EnterEffect(a, start);
    FoldOne(a, start);
    FoldConcat(a, [start], inner);
    var c := Fold(Push(a, start), inner);
    StackOf(c);
    LeaveKeeps(c, leave);
    LeaveEffect(c, leave.offset);
    AlwaysOne(c, leave);
    FoldOne(c, leave);
    AlwaysConcat(a, [start] + inner, [leave]);
    FoldConcat(a, [start] + inner, [leave]);
  }

  lemma {:induction false} GroupKeeps(data: Blob, pos: nat, end: nat, a: Arena, groupEnd: nat)
    requires end <= |data| && WellFormed(a) && StartedBefore(a, pos) && InsideTop(a, pos, end)
    requires pos + HEADER_SIZE <= end && IsGroup(data, pos)
    requires groupEnd == pos + ParseGroupHeader(data, pos).groupSize && groupEnd <= end
    ensures AlwaysWellFormed(a, Walk(data, pos, end).events)
    ensures Walk(data, pos, end).Done? ==> Resumes(a, Fold(a, Walk(data, pos, end).events), end)
    decreases end - pos, 0
  {
    hide WellFormed, ParseGroupHeader, ParseRecordHeader, Push, IsGroup, AlwaysWellFormed;
    StackOf(a);
    var start, leave := StartOf(data, pos), GroupEnd(pos);
    EnterKeeps(a, start);
    var b := Push(a, start);
    EnterEffect(a, start);
    AlwaysOne(a, start);
    FoldOne(a, start);
    if groupEnd == pos {
      LeaveKeeps(b, leave);
      AlwaysOne(b, leave);
      AlwaysConcat(a, [start], [leave]);
      assert [start] + [leave] == [start, leave];
    } else {
      var inner := Walk(data, pos + HEADER_SIZE, groupEnd);
      assert StartedBefore(b, pos + HEADER_SIZE);
      WalkKeeps(data, pos + HEADER_SIZE, groupEnd, b);
      AlwaysConcat(a, [start], inner.events);
      FoldConcat(a, [start], inner.events);
      if inner.Done? {
        var d, own := Push(Fold(b, inner.events), leave), [start] + inner.events + [leave];
        GroupCloses(a, start, inner.events, leave, groupEnd);
        ResumesInside(a, d, groupEnd, groupEnd, end);
        WalkKeeps(data, groupEnd, end, d);
        AlwaysConcat(a, own, Walk(data, groupEnd, end).events);
        FoldConcat(a, own, Walk(data, groupEnd, end).events);
      }
    }
  }

  lemma EmptyWellFormed()
    ensures WellFormed(EMPTY)
  {}

  /** Whatever the bytes of a file, the tree is well formed after every event of
      its walk, and a walk that reaches the end leaves no group open. */
  lemma FileTreeIsWellFormed(data: Blob, start: nat)
    requires start <= |data|
    ensures AlwaysWellFormed(EMPTY, Walk(data, start, |data|).events)
    ensures Walk(data, start, |data|).Done? ==> Fold(EMPTY, Walk(data, start, |data|).events).stack == []
  {
    EmptyWellFormed();
    hide WellFormed, Walk;
    WalkKeeps(data, start, |data|, EMPTY);
  }
}
