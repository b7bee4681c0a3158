/** The arena of groups folded from the structural walk's events. */
module GroupTree {
  import opened Wrappers
  import opened Bytes
  import opened EsmFormat
  import opened EsmWalk

  datatype ChildRef =
    | GroupRef(idx: nat)
    | RecordRef(formId: nat, offset: nat, signature: Signature)

  datatype GroupEntry = GroupEntry(
    groupType: int, groupLabel: nat, start: nat, end: nat, depth: nat, parent: Option<nat>, children: seq<ChildRef>)

  /** The arena being built: `stack` holds the groups entered but not yet left. */
  datatype Arena = Arena(groups: seq<GroupEntry>, roots: seq<nat>, offsets: map<nat, nat>, stack: seq<nat>)

  const EMPTY: Arena := Arena([], [], map[], [])

  predicate StackValid(a: Arena) {
    forall k | 0 <= k < |a.stack| :: a.stack[k] < |a.groups|
  }

  function Top(a: Arena): Option<nat> {
    if |a.stack| == 0 then None else Some(a.stack[|a.stack| - 1])
  }

  function AddChild(groups: seq<GroupEntry>, idx: nat, c: ChildRef): seq<GroupEntry>
    requires idx < |groups|
  {
    groups[idx := groups[idx].(children := groups[idx].children + [c])]
  }

  /** One event folded into the arena. */
  function Push(a: Arena, e: Event): (a': Arena)
    requires StackValid(a)
    ensures StackValid(a')
  {
    match e
    case GroupStart(offset, groupType, groupLabel, groupSize) =>
      var idx := |a.groups|;
      var groups := a.groups + [GroupEntry(groupType, groupLabel, offset, offset + groupSize, |a.stack|, Top(a), [])];
      var offsets := a.offsets[offset := idx];
      (match Top(a)
       case Some(p) => Arena(AddChild(groups, p, GroupRef(idx)), a.roots, offsets, a.stack + [idx])
       case None => Arena(groups, a.roots + [idx], offsets, a.stack + [idx]))
    case GroupEnd(_) =>
      if |a.stack| == 0 then a else a.(stack := a.stack[..|a.stack| - 1])
    case RecordEvent(offset, formId, sig, _, _) =>
      match Top(a)
      case Some(p) => a.(groups := AddChild(a.groups, p, RecordRef(formId, offset, sig)))
      case None => a
  }

  function Fold(a: Arena, events: seq<Event>): (a': Arena)
    requires StackValid(a)
    ensures StackValid(a')
    decreases |events|
  {
    if |events| == 0 then a else Fold(Push(a, events[0]), events[1..])
  }

  lemma {:induction false} FoldConcat(a: Arena, es: seq<Event>, fs: seq<Event>)
    requires StackValid(a)
    ensures Fold(a, es + fs) == Fold(Fold(a, es), fs)
    decreases |es|
  {
    hide Push;
    if |es| == 0 {
      assert es + fs == fs;
    } else {
      assert (es + fs)[1..] == es[1..] + fs;
      FoldConcat(Push(a, es[0]), es[1..], fs);
    }
  }

  /** The incremental builder, fed one event at a time. */
  class TreeBuilder {
    var groups: seq<GroupEntry>
    var roots: seq<nat>
    var offsetMap: map<nat, nat>
    var stack: seq<nat>

    ghost function View(): Arena
      reads this
    {
      Arena(groups, roots, offsetMap, stack)
    }

    constructor ()
      ensures View() == EMPTY && StackValid(View())
    {
      groups, roots, offsetMap, stack := [], [], map[], [];
    }

    method PushEvent(e: Event)
      requires StackValid(View())
      modifies this
      ensures StackValid(View()) && View() == Push(old(View()), e)
    {
      match e {
        case GroupStart(offset, groupType, groupLabel, groupSize) =>
          var depth := |stack|;
          var parent := if |stack| == 0 then None else Some(stack[|stack| - 1]);
          var idx := |groups|;
          groups := groups + [GroupEntry(groupType, groupLabel, offset, offset + groupSize, depth, parent, [])];
          offsetMap := offsetMap[offset := idx];
          if parent.Some? {
            groups := AddChild(groups, parent.value, GroupRef(idx));
          } else {
            roots := roots + [idx];
          }
          stack := stack + [idx];
        case GroupEnd(_) =>
          if |stack| > 0 {
            stack := stack[..|stack| - 1];
          }
        case RecordEvent(offset, formId, sig, _, _) =>
          if |stack| > 0 {
            groups := AddChild(groups, stack[|stack| - 1], RecordRef(formId, offset, sig));
          }
      }
    }
  }

  /** Folds every event of a walk. */
  method BuildTree(events: seq<Event>) returns (tree: TreeBuilder)
    ensures tree.View() == Fold(EMPTY, events)
  {
    hide Push;
    tree := new TreeBuilder();
    assert events[0..] == events;
    for i := 0 to |events|
      invariant fresh(tree) && StackValid(tree.View())
      invariant Fold(tree.View(), events[i..]) == Fold(EMPTY, events)
    {
      assert events[i..][1..] == events[i + 1..];
      tree.PushEvent(events[i]);
    }
  }

  // ------------------------------------------------------------- reading it back

  /** What the arena remembers of a node. */
  datatype Outline =
    | GroupOutline(offset: nat, end: nat, groupType: int, groupLabel: nat, children: seq<Outline>)
    | RecordOutline(offset: nat, formId: nat, signature: Signature)
    | Dangling

  function OutlineOf(n: Node, offset: nat): Outline
    requires Printable(n)
  {
    match n
    case Record(sig, _, formId, _, _, _, _) => RecordOutline(offset, formId, sig)
    case Group(groupLabel, t, _, _, children) =>
      GroupOutline(offset, offset + |Print(n)|, t, groupLabel, Outlines(children, offset + HEADER_SIZE, true))
  }

  /** A forest printed at `offset`; `records` says whether records that stand
      outside every group are kept. */
  function Outlines(ns: seq<Node>, offset: nat, records: bool): seq<Outline>
    requires AllPrintable(ns)
  {
    if |ns| == 0 then []
    else (if records || ns[0].Group? then [OutlineOf(ns[0], offset)] else [])
         + Outlines(ns[1..], offset + |Print(ns[0])|, records)
  }

  /** The nodes named by `refs`, following only references to later groups. */
  function ReadRefs(groups: seq<GroupEntry>, refs: seq<ChildRef>, lo: nat): seq<Outline>
    requires lo <= |groups|
    decreases |groups| - lo, |refs|, 0
  {
    if |refs| == 0 then [] else [ReadRef(groups, refs[0], lo)] + ReadRefs(groups, refs[1..], lo)
  }

  function ReadRef(groups: seq<GroupEntry>, r: ChildRef, lo: nat): Outline
    requires lo <= |groups|
    decreases |groups| - lo, 0, 1
  {
    match r
    case RecordRef(formId, offset, sig) => RecordOutline(offset, formId, sig)
    case GroupRef(i) =>
      if lo <= i < |groups| then
        var g := groups[i];
        GroupOutline(g.start, g.end, g.groupType, g.groupLabel, ReadRefs(groups, g.children, i + 1))
      else Dangling
  }

  lemma {:induction false} ReadConcat(groups: seq<GroupEntry>, xs: seq<ChildRef>, ys: seq<ChildRef>, lo: nat)
    requires lo <= |groups|
    ensures ReadRefs(groups, xs + ys, lo) == ReadRefs(groups, xs, lo) + ReadRefs(groups, ys, lo)
    decreases |xs|
  {
    hide ReadRef;
    if |xs| == 0 {
      assert xs + ys == ys;
    } else {
      assert (xs + ys)[1..] == xs[1..] + ys;
      ReadConcat(groups, xs[1..], ys, lo);
    }
  }

  /** Every group named by `refs` lies in `lo..hi`. */
  ghost predicate Within(refs: seq<ChildRef>, lo: nat, hi: nat) {
    forall k | 0 <= k < |refs| && refs[k].GroupRef? :: lo <= refs[k].idx < hi
  }

  /** Groups `lo..hi` name only later groups below `hi`. */
  ghost predicate Closed(groups: seq<GroupEntry>, lo: nat, hi: nat)
    requires hi <= |groups|
  {
    forall j | lo <= j < hi :: Within(groups[j].children, j + 1, hi)
  }

  /** What is read depends only on the groups in reach. */
  lemma {:induction false} ReadFrame(g: seq<GroupEntry>, g': seq<GroupEntry>, refs: seq<ChildRef>, lo: nat, lo': nat, from: nat, hi: nat)
    requires hi <= |g| && hi <= |g'| && lo <= from <= hi && lo' <= from
    requires Within(refs, from, hi) && Closed(g, from, hi)
    requires forall j | from <= j < hi :: g[j] == g'[j]
    ensures ReadRefs(g, refs, lo) == ReadRefs(g', refs, lo')
    decreases hi - from, |refs|
  {
    if |refs| > 0 {
      ReadFrame(g, g', refs[1..], lo, lo', from, hi);
      if refs[0].GroupRef? {
        var i := refs[0].idx;
        assert Within(g[i].children, i + 1, hi);
        ReadFrame(g, g', g[i].children, i + 1, i + 1, i + 1, hi);
      }
    }
  }

  function Indices(refs: seq<ChildRef>): (idxs: seq<nat>)
    requires forall k | 0 <= k < |refs| :: refs[k].GroupRef?
    ensures |idxs| == |refs| && forall k | 0 <= k < |refs| :: idxs[k] == refs[k].idx
  {
    seq(|refs|, k requires 0 <= k < |refs| => refs[k].idx)
  }

  /** Folding a forest's events appends its groups, hands its references to the
      group on top of the stack (or to the roots), and leaves everything else as
      it was. */
  ghost predicate Grown(a: Arena, a': Arena, refs: seq<ChildRef>)
    requires StackValid(a)
  {
    && a'.stack == a.stack
    && |a.groups| <= |a'.groups|
    && (forall j | 0 <= j < |a.groups| && Top(a) != Some(j) :: a'.groups[j] == a.groups[j])
    && Handed(a, a', refs)
    && Within(refs, |a.groups|, |a'.groups|)
    && Closed(a'.groups, |a.groups|, |a'.groups|)
  }

  ghost predicate Handed(a: Arena, a': Arena, refs: seq<ChildRef>)
    requires StackValid(a) && |a.groups| <= |a'.groups|
  {
    match Top(a)
    case Some(t) =>
      a'.groups[t] == a.groups[t].(children := a.groups[t].children + refs) && a'.roots == a.roots
    case None =>
      (forall k | 0 <= k < |refs| :: refs[k].GroupRef?) && a'.roots == a.roots + Indices(refs)
  }

  /** The arena holds the forest: what `refs` name reads back as its outline. */
  ghost predicate Restored(a: Arena, a': Arena, refs: seq<ChildRef>, outlines: seq<Outline>)
    requires StackValid(a)
  {
    Grown(a, a', refs) && ReadRefs(a'.groups, refs, |a.groups|) == outlines
  }

  lemma NothingRestored(a: Arena)
    requires StackValid(a)
    ensures Restored(a, a, [], [])
  {
    match Top(a)
    case Some(t) => assert a.groups[t].children + [] == a.groups[t].children;
    case None => assert a.roots + Indices([]) == a.roots;
  }

  lemma RestoredTwice(a: Arena, b: Arena, c: Arena, xs: seq<ChildRef>, ys: seq<ChildRef>, os: seq<Outline>, ps: seq<Outline>)
    requires StackValid(a) && StackValid(b)
    requires Restored(a, b, xs, os) && Restored(b, c, ys, ps)
    ensures Restored(a, c, xs + ys, os + ps)
  {
    hide ReadRefs;
    GrownTwice(a, b, c, xs, ys);
    ReadConcat(c.groups, xs, ys, |a.groups|);
    ReadFrame(b.groups, c.groups, xs, |a.groups|, |a.groups|, |a.groups|, |b.groups|);
    ReadFrame(c.groups, c.groups, ys, |b.groups|, |a.groups|, |b.groups|, |c.groups|);
  }

  lemma GrownTwice(a: Arena, b: Arena, c: Arena, xs: seq<ChildRef>, ys: seq<ChildRef>)
    requires StackValid(a) && StackValid(b) && Grown(a, b, xs) && Grown(b, c, ys)
    ensures Grown(a, c, xs + ys)
  {
    assert forall j | |a.groups| <= j < |b.groups| :: c.groups[j] == b.groups[j];
    match Top(a)
    case Some(t) => assert a.groups[t].children + xs + ys == a.groups[t].children + (xs + ys);
    case None => assert a.roots + Indices(xs) + Indices(ys) == a.roots + Indices(xs + ys);
  }

  /** What entering a group changes. */
  lemma EnterEffect(a: Arena, e: Event)
    requires StackValid(a) && e.GroupStart?
    ensures var b := Push(a, e);
      && |b.groups| == |a.groups| + 1
      && b.stack == a.stack + [|a.groups|]
      && b.groups[|a.groups|] == GroupEntry(e.groupType, e.groupLabel, e.offset, e.offset + e.groupSize, |a.stack|, Top(a), [])
      && (forall j | 0 <= j < |a.groups| && Top(a) != Some(j) :: b.groups[j] == a.groups[j])
      && Handed(a, b, [GroupRef(|a.groups|)])
  {
    match Top(a)
    case Some(t) =>
    case None => assert Indices([GroupRef(|a.groups|)]) == [|a.groups|];
  }

  lemma LeaveEffect(a: Arena, offset: nat)
    requires StackValid(a) && |a.stack| > 0
    ensures Push(a, GroupEnd(offset)) == a.(stack := a.stack[..|a.stack| - 1])
  {}

  lemma GroupGrown(a: Arena, e: Event, inner: Arena, refs: seq<ChildRef>)
    requires StackValid(a) && e.GroupStart? && Grown(Push(a, e), inner, refs)
    ensures StackValid(inner) && |inner.groups| > |a.groups|
    ensures inner.groups[|a.groups|] == GroupEntry(e.groupType, e.groupLabel, e.offset, e.offset + e.groupSize, |a.stack|, Top(a), refs)
    ensures Grown(a, Push(inner, GroupEnd(e.offset)), [GroupRef(|a.groups|)])
  {
    hide Push, Closed, Within;
    var idx, b := |a.groups|, Push(a, e);
    EnterEffect(a, e);
    assert Top(b) == Some(idx);
    assert inner.groups[idx].children == [] + refs == refs;
    LeaveEffect(inner, e.offset);
    var left := Push(inner, GroupEnd(e.offset));
    assert left.stack == a.stack;
    ClosedFrom(left.groups, idx, refs);
  }

  lemma ClosedFrom(groups: seq<GroupEntry>, idx: nat, refs: seq<ChildRef>)
    requires idx < |groups| && groups[idx].children == refs
    requires Within(refs, idx + 1, |groups|) && Closed(groups, idx + 1, |groups|)
    ensures Closed(groups, idx, |groups|) && Within([GroupRef(idx)], idx, |groups|)
  {}

  lemma ReadOne(groups: seq<GroupEntry>, idx: nat)
    requires idx < |groups|
    ensures ReadRefs(groups, [GroupRef(idx)], idx)
         == [GroupOutline(groups[idx].start, groups[idx].end, groups[idx].groupType, groups[idx].groupLabel,
                          ReadRefs(groups, groups[idx].children, idx + 1))]
  {
    assert [GroupRef(idx)][1..] == [];
    assert ReadRefs(groups, [], idx) == [];
  }

  /** A group's events: the references its children hand over become its own. */
  lemma GroupRestored(a: Arena, n: Node, offset: nat, inner: Arena, refs: seq<ChildRef>, outlines: seq<Outline>)
    requires StackValid(a) && n.Group? && Printable(n)
    requires var entered := Push(a, GroupStart(offset, n.groupType, n.groupLabel, |Print(n)|));
      Restored(entered, inner, refs, outlines)
    ensures var left := Push(inner, GroupEnd(offset));
      Restored(a, left, [GroupRef(|a.groups|)],
               [GroupOutline(offset, offset + |Print(n)|, n.groupType, n.groupLabel, outlines)])
  {
    hide Print, Push, ReadRefs, Grown;
    var e := GroupStart(offset, n.groupType, n.groupLabel, |Print(n)|);
    GroupGrown(a, e, inner, refs);
    EnteredTop(a, e);
    GrownStack(Push(a, e), inner, refs);
    LeaveEffect(inner, offset);
    ReadOne(inner.groups, |a.groups|);
  }

  lemma GrownStack(a: Arena, b: Arena, refs: seq<ChildRef>)
    requires StackValid(a) && Grown(a, b, refs)
    ensures b.stack == a.stack && StackValid(b)
  {}

  lemma RecordRestored(a: Arena, n: Node, offset: nat)
    requires StackValid(a) && n.Record?
    ensures var a' := Push(a, RecordEvent(offset, n.formId, n.signature, n.flags, n.formVersion));
      if Top(a).Some? then
        Restored(a, a', [RecordRef(n.formId, offset, n.signature)], [RecordOutline(offset, n.formId, n.signature)])
      else a' == a
  {
    if Top(a).Some? {
      var a' := Push(a, RecordEvent(offset, n.formId, n.signature, n.flags, n.formVersion));
      var r := RecordRef(n.formId, offset, n.signature);
      assert ReadRefs(a'.groups, [r], |a.groups|) == [ReadRef(a'.groups, r, |a.groups|)] + ReadRefs(a'.groups, [], |a.groups|);
    }
  }

  /** Folding a forest's events puts the forest into the arena. */
  lemma {:induction false} ForestRestored(a: Arena, ns: seq<Node>, offset: nat) returns (refs: seq<ChildRef>)
    requires StackValid(a) && AllPrintable(ns)
    ensures Restored(a, Fold(a, Events(ns, offset)), refs, Outlines(ns, offset, Top(a).Some?))
    decreases ns
  {
    hide Push, Restored, Print;
    refs := [];
    if |ns| == 0 {
      NothingRestored(a);
    } else {
      var n, rest := ns[0], ns[1..];
      var own, after := EventsOf(n, offset), offset + |Print(n)|;
      FoldConcat(a, own, Events(rest, after));
      var b := Fold(a, own);
      match n
      case Record(_, _, _, _, _, _, _) =>
        RecordRestored(a, n, offset);
        FoldOne(a, own[0]);
        if Top(a).Some? {
          SameTop(a, b);
          var more := ForestRestored(b, rest, after);
          RestoredTwice(a, b, Fold(b, Events(rest, after)), [RecordRef(n.formId, offset, n.signature)], more,
                        [OutlineOf(n, offset)], Outlines(rest, after, true));
          refs := [RecordRef(n.formId, offset, n.signature)] + more;
        } else {
          refs := ForestRestored(b, rest, after);
          assert [] + Outlines(rest, after, false) == Outlines(rest, after, false);
        }
      case Group(groupLabel, t, _, _, children) =>
        var start := GroupStart(offset, t, groupLabel, |Print(n)|);
        var entered := Push(a, start);
        EnteredTop(a, start);
        var inside := Events(children, offset + HEADER_SIZE);
        var childRefs := ForestRestored(entered, children, offset + HEADER_SIZE);
        var inner := Fold(entered, inside);
        GroupRestored(a, n, offset, inner, childRefs, Outlines(children, offset + HEADER_SIZE, true));
        FoldConcat(a, [start], inside + [GroupEnd(offset)]);
        FoldConcat(entered, inside, [GroupEnd(offset)]);
        FoldOne(a, start);
        FoldOne(inner, GroupEnd(offset));
        assert own == [start] + (inside + [GroupEnd(offset)]);
        SameTop(a, b);
        var more := ForestRestored(b, rest, after);
        RestoredTwice(a, b, Fold(b, Events(rest, after)), [GroupRef(|a.groups|)], more,
                      [OutlineOf(n, offset)], Outlines(rest, after, Top(a).Some?));
        refs := [GroupRef(|a.groups|)] + more;
    }
  }

  lemma FoldOne(a: Arena, e: Event)
    requires StackValid(a)
    ensures Fold(a, [e]) == Push(a, e)
  {
    hide Push;
    assert [e][1..] == [];
    assert Fold(Push(a, e), []) == Push(a, e);
  }

  lemma SameTop(a: Arena, b: Arena)
    ensures b.stack == a.stack ==> Top(a) == Top(b)
    ensures forall refs, os :: StackValid(a) && Restored(a, b, refs, os) ==> b.stack == a.stack
  {}

  lemma EnteredTop(a: Arena, e: Event)
    requires StackValid(a) && e.GroupStart?
    ensures Top(Push(a, e)) == Some(|a.groups|)
    ensures |Push(a, e).groups| == |a.groups| + 1 && |Push(a, e).stack| > 0
  {}

  /** Printing a forest, walking the bytes and folding the events gives back the
      forest: the roots read back as its groups, with every offset and, inside the
      groups, every record in file order. Records outside every group are the only
      thing the arena does not keep. */
  lemma ForestRoundTrip(ns: seq<Node>, pre: Blob, post: Blob)
    requires AllPrintable(ns) && AllValid(ns)
    ensures var w := Walk(pre + PrintAll(ns) + post, |pre|, |pre| + |PrintAll(ns)|);
      && w.Done?
      && var tree := Fold(EMPTY, w.events);
      && tree.stack == []
      && ReadRefs(tree.groups, RootRefs(tree), 0) == Outlines(ns, |pre|, false)
  {
    WalksForest(ns, pre, post);
    var refs := ForestRestored(EMPTY, ns, |pre|);
    var tree := Fold(EMPTY, Events(ns, |pre|));
    assert tree.roots == [] + Indices(refs) == Indices(refs);
    assert RootRefs(tree) == refs;
  }

  function RootRefs(a: Arena): seq<ChildRef> {
    seq(|a.roots|, k requires 0 <= k < |a.roots| => GroupRef(a.roots[k]))
  }

  /** The arena keeps every node exactly when no record stands outside a group. */
  lemma {:induction false} AllKept(ns: seq<Node>, offset: nat)
    requires AllPrintable(ns)
    ensures Outlines(ns, offset, false) == Outlines(ns, offset, true) <==> forall n <- ns :: n.Group?
  {
    OutlineCounts(ns, offset);
    if forall n <- ns :: n.Group? {
      KeptAll(ns, offset);
    }
  }

  lemma {:induction false} OutlineCounts(ns: seq<Node>, offset: nat)
    requires AllPrintable(ns)
    ensures |Outlines(ns, offset, true)| == |ns|
    ensures |Outlines(ns, offset, false)| <= |ns|
    ensures (exists n <- ns :: n.Record?) ==> |Outlines(ns, offset, false)| < |ns|
  {
    hide OutlineOf, Print;
    if |ns| > 0 {
      OutlineCounts(ns[1..], offset + |Print(ns[0])|);
      if n :| n in ns && n.Record? && n != ns[0] {
        assert n in ns[1..];
      }
    }
  }

  lemma {:induction false} KeptAll(ns: seq<Node>, offset: nat)
    requires AllPrintable(ns) && forall n <- ns :: n.Group?
    ensures Outlines(ns, offset, false) == Outlines(ns, offset, true)
  {
    hide OutlineOf, Print;
    if |ns| > 0 {
      assert ns[0] in ns && forall n <- ns[1..] :: n in ns;
      KeptAll(ns[1..], offset + |Print(ns[0])|);
    }
  }
}
