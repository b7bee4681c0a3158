/** The recursive walk that turns a leveled list into a table of odds, and the
    proof that the table holds the probabilities of the list's random process. */
module DropTable {
  import opened Wrappers
  import opened RealMath
  import opened RandomProcess
  import opened Selection
  import opened SelectionProcess
  import opened Gates
  import opened LeveledList

  /** One item's odds: its chance of at least one copy and its expected copies. */
  datatype Leaf = Leaf(p: real, expected: real)

  type Leaves = map<FormId, Leaf>

  /** One direct entry of a list in the tree; odds are per run of the root. */
  datatype DropBranch = DropBranch(fid: FormId, expected: real, p: real, sublist: Sublist)

  datatype Sublist = NotAList | List(list: DropList)

  datatype DropList = DropList(model: Model, pNothing: real, itemCount: nat, entries: Entries)

  /** The rows of a list, or nothing past the last expanded level. */
  datatype Entries = Collapsed | Expanded(rows: seq<DropBranch>)

  datatype NodeResult = NodeResult(
    pEmpty: real, leaves: Leaves, truncated: bool, model: Model, branches: Entries)

  /** How many tree levels are still to expand, and what turns one run of this
      list into one run of the root. */
  datatype TreeScale = TreeScale(levels: nat, p: real, expected: real)

  /** An item one run of a target yields. */
  datatype Reach = Reach(fid: FormId, p: real, expected: real)

  function LeafAt(leaves: Leaves, f: FormId): Leaf {
    if f in leaves then leaves[f] else Leaf(0.0, 0.0)
  }

  ghost const EVERYTHING: iset<FormId> := iset f: FormId | true

  ghost function ProcessLeaf(p: Process, f: FormId): Leaf {
    Leaf(Expect(Hits(iset{f}), p), Expect(Copies(f), p))
  }

  /** The odds are those of the process. */
  ghost predicate Describes(pEmpty: real, leaves: Leaves, p: Process) {
    && pEmpty == Missed(EVERYTHING, p)
    && forall f :: LeafAt(leaves, f) == ProcessLeaf(p, f)
  }

  // ------------------------------------------------------------ totals over leaves

  datatype Column = Chance | Expected

  ghost function Cell(c: Column, leaf: Leaf): real {
    if c == Chance then leaf.p else leaf.expected
  }

  ghost function Total(c: Column, leaves: Leaves): real
    decreases |leaves|
  {
    if leaves == map[] then 0.0
    else
      var f :| f in leaves;
      Cell(c, leaves[f]) + Total(c, leaves - {f})
  }

  lemma {:induction false} TotalPick(c: Column, leaves: Leaves, f: FormId)
    requires f in leaves
    ensures Total(c, leaves) == Cell(c, leaves[f]) + Total(c, leaves - {f})
    decreases |leaves|
  {
    var g :| g in leaves && Total(c, leaves) == Cell(c, leaves[g]) + Total(c, leaves - {g});
    if f != g {
      TotalPick(c, leaves - {g}, f);
      TotalPick(c, leaves - {f}, g);
      assert leaves - {g} - {f} == leaves - {f} - {g};
    }
  }

  lemma TotalUpdate(c: Column, leaves: Leaves, f: FormId, leaf: Leaf)
    ensures Total(c, leaves[f := leaf]) == Total(c, leaves) - Cell(c, LeafAt(leaves, f)) + Cell(c, leaf)
  {
    TotalPick(c, leaves[f := leaf], f);
    if f in leaves {
      TotalPick(c, leaves, f);
      assert leaves[f := leaf] - {f} == leaves - {f};
    } else {
      assert leaves[f := leaf] - {f} == leaves;
    }
  }

  // ---------------------------------------------------------------------- reaches

  ghost function ReachAt(reaches: seq<Reach>, f: FormId): Leaf {
    if |reaches| == 0 then Leaf(0.0, 0.0)
    else if reaches[0].fid == f then Leaf(reaches[0].p, reaches[0].expected)
    else ReachAt(reaches[1..], f)
  }

  ghost predicate Distinct(reaches: seq<Reach>) {
    forall i, j | 0 <= i < j < |reaches| :: reaches[i].fid != reaches[j].fid
  }

  function SumReaches(reaches: seq<Reach>): real {
    if |reaches| == 0 then 0.0 else reaches[0].expected + SumReaches(reaches[1..])
  }

  lemma {:induction false} ReachAtNone(reaches: seq<Reach>, f: FormId)
    requires forall r <- reaches :: r.fid != f
    ensures ReachAt(reaches, f) == Leaf(0.0, 0.0)
  {
    if |reaches| > 0 {
      assert reaches[0] in reaches && forall r <- reaches[1..] :: r in reaches;
      ReachAtNone(reaches[1..], f);
    }
  }

  /** The leaves as a list. The engine sorts it by FormID so that its rounding does
      not depend on hash order; exact sums do not depend on any order. */
  method ReachesOf(leaves: Leaves) returns (reaches: seq<Reach>)
    ensures Distinct(reaches)
    ensures forall f :: ReachAt(reaches, f) == LeafAt(leaves, f)
    ensures SumReaches(reaches) == Total(Expected, leaves) && |reaches| == |leaves|
  {
    reaches := [];
    var rest := leaves;
    while rest != map[]
      invariant rest.Keys <= leaves.Keys && forall f <- rest :: rest[f] == leaves[f]
      invariant Distinct(reaches) && forall r <- reaches :: r.fid in leaves && r.fid !in rest
      invariant forall f | f !in rest :: ReachAt(reaches, f) == LeafAt(leaves, f)
      invariant SumReaches(reaches) + Total(Expected, rest) == Total(Expected, leaves)
      invariant |reaches| + |rest| == |leaves|
      decreases |rest|
    {
      var f :| f in rest;
      var r := Reach(f, rest[f].p, rest[f].expected);
      TotalPick(Expected, rest, f);
      ghost var before := reaches;
      reaches := [r] + reaches;
      assert reaches[1..] == before;
      rest := rest - {f};
    }
    forall f ensures ReachAt(reaches, f) == LeafAt(leaves, f) {}
  }

  /** The reaches are those of one run of the process. */
  ghost predicate DescribesReaches(childEmpty: real, reaches: seq<Reach>, p: Process) {
    && Distinct(reaches)
    && childEmpty == Missed(EVERYTHING, p)
    && forall f :: ReachAt(reaches, f) == ProcessLeaf(p, f)
  }

  // ---------------------------------------------------------------------- merging

  /** Chances of entries that exclude each other add; independent ones combine by
      their chances of missing. */
  function Absorb(disjoint: bool, x: real, c: real): real {
    if disjoint then x + c else 1.0 - Mul(1.0 - x, 1.0 - c)
  }

  function Min(x: real, y: real): real {
    if x < y then x else y
  }

  function MergeLeaf(leaves: Leaves, fid: FormId, p: real, expected: real, disjoint: bool): Leaves {
    var agg := LeafAt(leaves, fid);
    leaves[fid := Leaf(if disjoint then Min(agg.p + p, 1.0) else 1.0 - Mul(1.0 - agg.p, 1.0 - p),
                       agg.expected + expected)]
  }

  ghost function Merged(disjoint: bool, leaf: Leaf, effective: real, quantity: real, reach: Leaf): Leaf {
    Leaf(Absorb(disjoint, leaf.p, Mul(effective, reach.p)),
         leaf.expected + Mul(Mul(effective, quantity), reach.expected))
  }

  /** Adding contributions that keep every chance within 1 never meets the cap. */
  ghost predicate Fits(disjoint: bool, leaves: Leaves, effective: real, reaches: seq<Reach>) {
    disjoint ==> forall f :: LeafAt(leaves, f).p + Mul(effective, ReachAt(reaches, f).p) <= 1.0
  }

  lemma MergedNothing(disjoint: bool, leaf: Leaf, effective: real, quantity: real)
    ensures Merged(disjoint, leaf, effective, quantity, Leaf(0.0, 0.0)) == leaf
  {}

  /** What every item comes to once `reaches` are added to `leaves`. */
  ghost predicate SameOutcome(disjoint: bool, effective: real, quantity: real,
                              leaves: Leaves, reaches: seq<Reach>, leaves': Leaves, reaches': seq<Reach>) {
    forall f ::
      Merged(disjoint, LeafAt(leaves, f), effective, quantity, ReachAt(reaches, f))
      == Merged(disjoint, LeafAt(leaves', f), effective, quantity, ReachAt(reaches', f))
  }

  /** Adding the first reach leaves the rest to be added, still within the cap. */
  lemma MergeOne(disjoint: bool, effective: real, quantity: real, leaves: Leaves, reaches: seq<Reach>)
    requires |reaches| > 0 && Distinct(reaches) && Fits(disjoint, leaves, effective, reaches)
    ensures var r, rest := reaches[0], reaches[1..];
      var leaves' := MergeLeaf(leaves, r.fid, Mul(effective, r.p), Mul(Mul(effective, quantity), r.expected), disjoint);
      && Distinct(rest) && Fits(disjoint, leaves', effective, rest)
      && SameOutcome(disjoint, effective, quantity, leaves, reaches, leaves', rest)
      && Total(Expected, leaves') == Total(Expected, leaves) + Mul(Mul(effective, quantity), r.expected)
  {
    hide Mul, Merged, Total;
    var r, rest := reaches[0], reaches[1..];
    var p, expected := Mul(effective, r.p), Mul(Mul(effective, quantity), r.expected);
    var leaves' := MergeLeaf(leaves, r.fid, p, expected, disjoint);
    var agg := LeafAt(leaves, r.fid);
    assert ReachAt(reaches, r.fid) == Leaf(r.p, r.expected);
    ReachAtNone(rest, r.fid);
    MulUnits(effective);
    TotalUpdate(Expected, leaves, r.fid, Leaf(Absorb(disjoint, agg.p, p), agg.expected + expected));
    MergedFirst(disjoint, effective, quantity, leaves, r);
    forall f ensures Merged(disjoint, LeafAt(leaves, f), effective, quantity, ReachAt(reaches, f))
                  == Merged(disjoint, LeafAt(leaves', f), effective, quantity, ReachAt(rest, f)) {
      if f == r.fid {
        MergedNothing(disjoint, LeafAt(leaves', f), effective, quantity);
      }
    }
  }

  lemma MergedFirst(disjoint: bool, effective: real, quantity: real, leaves: Leaves, r: Reach)
    requires disjoint ==> LeafAt(leaves, r.fid).p + Mul(effective, r.p) <= 1.0
    ensures var leaves' := MergeLeaf(leaves, r.fid, Mul(effective, r.p), Mul(Mul(effective, quantity), r.expected), disjoint);
      LeafAt(leaves', r.fid) == Merged(disjoint, LeafAt(leaves, r.fid), effective, quantity, Leaf(r.p, r.expected))
  {
    hide Mul;
  }

  method MergeReaches(leaves: Leaves, reaches: seq<Reach>, effective: real, quantity: real, disjoint: bool)
    returns (merged: Leaves)
    requires Distinct(reaches) && Fits(disjoint, leaves, effective, reaches)
    ensures forall f :: LeafAt(merged, f) == Merged(disjoint, LeafAt(leaves, f), effective, quantity, ReachAt(reaches, f))
    ensures Total(Expected, merged) == Total(Expected, leaves) + Mul(Mul(effective, quantity), SumReaches(reaches))
  {
    hide Mul, Merged, Total, Fits, Distinct, MergeLeaf, LeafAt;
    merged := leaves;
    ghost var scale := Mul(effective, quantity);
    assert reaches[0..] == reaches;
    for j := 0 to |reaches|
      invariant Distinct(reaches[j..]) && Fits(disjoint, merged, effective, reaches[j..])
      invariant SameOutcome(disjoint, effective, quantity, leaves, reaches, merged, reaches[j..])
      invariant Total(Expected, merged) + Mul(scale, SumReaches(reaches[j..]))
             == Total(Expected, leaves) + Mul(scale, SumReaches(reaches))
    {
      var r := reaches[j];
      assert reaches[j..][1..] == reaches[j + 1..];
      MulAdds(scale, r.expected, SumReaches(reaches[j + 1..]));
      MergeOne(disjoint, effective, quantity, merged, reaches[j..]);
      merged := MergeLeaf(merged, r.fid, Mul(effective, r.p), Mul(Mul(effective, quantity), r.expected), disjoint);
    }
    assert reaches[|reaches|..] == [];
    MulUnits(scale);
    forall f ensures LeafAt(merged, f) == Merged(disjoint, LeafAt(leaves, f), effective, quantity, ReachAt(reaches, f)) {
      MergedNothing(disjoint, LeafAt(merged, f), effective, quantity);
    }
  }

  // ------------------------------------------------------------ sums over the tree

  function BranchSum(bs: seq<DropBranch>): real {
    if |bs| == 0 then 0.0 else bs[0].expected + BranchSum(bs[1..])
  }

  function ChanceSum(bs: seq<DropBranch>): real {
    if |bs| == 0 then 0.0 else bs[0].p + ChanceSum(bs[1..])
  }

  predicate IsExpanded(b: DropBranch) {
    b.sublist.List? && b.sublist.list.entries.Expanded?
  }

  /** The copies of `f` among the leaves of the tree: an expanded list counts by
      its entries, anything else by its own row. */
  function LeafSum(bs: seq<DropBranch>, f: FormId): real {
    if |bs| == 0 then 0.0 else BranchLeafSum(bs[0], f) + LeafSum(bs[1..], f)
  }

  function BranchLeafSum(b: DropBranch, f: FormId): real {
    if IsExpanded(b) then LeafSum(b.sublist.list.entries.rows, f)
    else if b.fid == f then b.expected
    else 0.0
  }

  /** Every expanded sublist's subtotal is the sum of its entries. */
  predicate Conserved(bs: seq<DropBranch>) {
    |bs| > 0 ==> BranchConserved(bs[0]) && Conserved(bs[1..])
  }

  predicate BranchConserved(b: DropBranch) {
    IsExpanded(b) ==>
      b.expected == BranchSum(b.sublist.list.entries.rows) && Conserved(b.sublist.list.entries.rows)
  }

  lemma {:induction false} SumsAppend(bs: seq<DropBranch>, b: DropBranch)
    ensures BranchSum(bs + [b]) == BranchSum(bs) + b.expected
    ensures ChanceSum(bs + [b]) == ChanceSum(bs) + b.p
    ensures forall f :: LeafSum(bs + [b], f) == LeafSum(bs, f) + BranchLeafSum(b, f)
    ensures Conserved(bs + [b]) <==> Conserved(bs) && BranchConserved(b)
  {
    if |bs| == 0 {
      assert bs + [b] == [b];
    } else {
      assert (bs + [b])[1..] == bs[1..] + [b];
      SumsAppend(bs[1..], b);
    }
  }

  /** The tree rows of a list: they exist while levels remain, add up to the
      list's own odds scaled to the root, and when no level can run out before the
      depth cap their leaves are the list's items. */
  ghost predicate TreeOf(branches: Entries, scale: TreeScale, leaves: Leaves, depthLeft: nat) {
    && (branches.Expanded? <==> scale.levels > 0)
    && (branches.Expanded? ==> RowsOf(branches.rows, scale.levels > depthLeft, scale.expected, leaves))
  }

  ghost predicate RowsOf(rows: seq<DropBranch>, deep: bool, scale: real, leaves: Leaves) {
    && Conserved(rows)
    && BranchSum(rows) == Mul(scale, Total(Expected, leaves))
    && (deep ==> forall f :: LeafSum(rows, f) == Mul(scale, LeafAt(leaves, f).expected))
  }

  // ------------------------------------------------------ what is still to be added

  /** `x` is what the first `i` entries contribute to the measure whose value on
      each entry is `vals`. */
  ghost predicate Tracks(disjoint: bool, x: real, odds: seq<real>, vals: seq<real>, i: nat)
    requires |odds| == |vals| && i <= |odds|
  {
    if disjoint then x + Dot(odds[i..], vals[i..]) == Dot(odds, vals)
    else Mul(1.0 - x, NoneOf(odds[i..], vals[i..])) == NoneOf(odds, vals)
  }

  lemma TracksStart(disjoint: bool, odds: seq<real>, vals: seq<real>)
    requires |odds| == |vals|
    ensures Tracks(disjoint, 0.0, odds, vals, 0)
  {
    hide Mul, Dot, NoneOf;
    assert odds[0..] == odds && vals[0..] == vals;
    MulUnits(NoneOf(odds, vals));
  }

  lemma TracksStep(disjoint: bool, x: real, odds: seq<real>, vals: seq<real>, i: nat)
    requires |odds| == |vals| && i < |odds| && Tracks(disjoint, x, odds, vals, i)
    ensures Tracks(disjoint, Absorb(disjoint, x, Mul(odds[i], vals[i])), odds, vals, i + 1)
  {
    hide Mul;
    assert odds[i..][1..] == odds[i + 1..] && vals[i..][1..] == vals[i + 1..];
    if !disjoint {
      MulAssociates(1.0 - x, 1.0 - Mul(odds[i], vals[i]), NoneOf(odds[i + 1..], vals[i + 1..]));
    }
  }

  lemma TracksEnd(disjoint: bool, x: real, odds: seq<real>, vals: seq<real>)
    requires |odds| == |vals| && Tracks(disjoint, x, odds, vals, |odds|)
    ensures if disjoint then x == Dot(odds, vals) else 1.0 - x == NoneOf(odds, vals)
  {
    hide Mul;
    assert odds[|odds|..] == [] && vals[|vals|..] == [];
    MulUnits(1.0 - x);
  }

  lemma {:induction false} DotNonNegative(odds: seq<real>, vals: seq<real>)
    requires |odds| == |vals|
    requires forall i | 0 <= i < |odds| :: odds[i] >= 0.0 && vals[i] >= 0.0
    ensures Dot(odds, vals) >= 0.0
  {
    hide Mul;
    if |odds| > 0 {
      DotNonNegative(odds[1..], vals[1..]);
      MulSign(odds[0], vals[0]);
    }
  }

  /** Among entries that exclude each other, what is absorbed so far never exceeds
      the whole. */
  lemma TracksFits(x: real, odds: seq<real>, vals: seq<real>, i: nat)
    requires |odds| == |vals| && i < |odds| && Tracks(true, x, odds, vals, i)
    requires forall j | 0 <= j < |odds| :: odds[j] >= 0.0 && vals[j] >= 0.0
    ensures x + Mul(odds[i], vals[i]) <= Dot(odds, vals)
  {
    TracksStep(true, x, odds, vals, i);
    DotNonNegative(odds[i + 1..], vals[i + 1..]);
  }

  // ----------------------------------------------------------- one entry's share

  /** An entry's share of a measure is its target's, thinned by the chance the
      entry is selected and not lost to its Chance None. */
  lemma EntryShare(records: Records, opts: DropOptions, e: Eligible, path: seq<FormId>, depth: nat, chosen: real, effective: real)
    requires depth <= opts.maxDepth && e.target.Some?
    requires effective == Mul(chosen, 1.0 - e.chanceNone)
    ensures var p, t := EntryProcess(records, opts, e, path, depth), TargetProcess(records, opts, e.target.value, path, depth);
      (forall items :: Mul(chosen, Expect(Hits(items), p)) == Mul(effective, Expect(Hits(items), t))) &&
      (forall f :: Mul(chosen, Expect(Copies(f), p)) == Mul(Mul(effective, e.quantity), Expect(Copies(f), t)))
  {
    hide Mul, Mix, TargetProcess, Expect;
    var t := TargetProcess(records, opts, e.target.value, path, depth);
    var p := EntryProcess(records, opts, e, path, depth);
    var keep := 1.0 - e.chanceNone;
    forall items
      ensures Mul(chosen, Expect(Hits(items), p)) == Mul(effective, Expect(Hits(items), t))
    {
      ExpectThin(Hits(items), keep, Scaled(e.quantity, t));
      ScaledHits(e.quantity, t, items);
      MulAssociates(chosen, keep, Expect(Hits(items), t));
    }
    forall f
      ensures Mul(chosen, Expect(Copies(f), p)) == Mul(Mul(effective, e.quantity), Expect(Copies(f), t))
    {
      ExpectThin(Copies(f), keep, Scaled(e.quantity, t));
      ScaledCopies(e.quantity, t, f);
      MulAssociates(chosen, keep, Mul(e.quantity, Expect(Copies(f), t)));
      MulAssociates(effective, e.quantity, Expect(Copies(f), t));
    }
  }

  /** An entry that is skipped has no share. */
  lemma SkippedShare(records: Records, opts: DropOptions, e: Eligible, path: seq<FormId>, depth: nat, chosen: real)
    requires depth <= opts.maxDepth
    requires chosen == 0.0 || Mul(chosen, 1.0 - e.chanceNone) == 0.0 || e.target.None?
    ensures forall m :: Mul(chosen, Expect(m, EntryProcess(records, opts, e, path, depth))) == 0.0
  {
    hide Mul, Mix, TargetProcess, Expect;
    var p := EntryProcess(records, opts, e, path, depth);
    forall m ensures Mul(chosen, Expect(m, p)) == 0.0 {
      MulUnits(chosen);
      MulUnits(Expect(m, p));
      if e.target.None? {
        NothingIsNothing(m);
      } else if chosen != 0.0 {
        var s := Scaled(e.quantity, TargetProcess(records, opts, e.target.value, path, depth));
        ExpectThin(m, 1.0 - e.chanceNone, s);
        MulAssociates(chosen, 1.0 - e.chanceNone, Expect(m, s));
        MulUnits(Expect(m, s));
      }
    }
  }

  // ------------------------------------------------------------------- the walk

  /** What the loop over a list's entries accumulates. */
  datatype Tally = Tally(leaves: Leaves, survive: real, allFail: real, rows: seq<DropBranch>, truncated: bool)

  /** The chance that something was drawn so far. */
  function Something(disjoint: bool, t: Tally): real {
    if disjoint then t.survive else 1.0 - t.allFail
  }

  /** Adding an entry's share `chosen * p` to a tally. */
  ghost predicate Adds(disjoint: bool, t: Tally, t': Tally, chosen: real, p: Process) {
    && Something(disjoint, t') == Absorb(disjoint, Something(disjoint, t), Mul(chosen, Expect(Hits(EVERYTHING), p)))
    && forall f :: LeafAt(t'.leaves, f)
         == Leaf(Absorb(disjoint, LeafAt(t.leaves, f).p, Mul(chosen, Expect(Hits(iset{f}), p))),
                 LeafAt(t.leaves, f).expected + Mul(chosen, Expect(Copies(f), p)))
  }

  /** The rows so far: their expected copies are the tally's, scaled to the root;
      so are their chances when entries exclude each other. */
  ghost predicate RowsTrack(disjoint: bool, levels: nat, depthLeft: nat, scaleP: real, scaleExpected: real, t: Tally) {
    if levels == 0 then t.rows == []
    else
      && RowsOf(t.rows, levels > depthLeft, scaleExpected, t.leaves)
      && (disjoint ==> ChanceSum(t.rows) == Mul(scaleP, t.survive))
  }

  lemma AddsNothing(disjoint: bool, t: Tally, chosen: real, p: Process)
    requires forall m :: Mul(chosen, Expect(m, p)) == 0.0
    ensures Adds(disjoint, t, t, chosen, p)
  {
    AbsorbNothing(disjoint, Something(disjoint, t));
    forall f ensures Absorb(disjoint, LeafAt(t.leaves, f).p, 0.0) == LeafAt(t.leaves, f).p {
      AbsorbNothing(disjoint, LeafAt(t.leaves, f).p);
    }
  }

  lemma AbsorbNothing(disjoint: bool, x: real)
    ensures Absorb(disjoint, x, 0.0) == x
  {}

  ghost predicate Fitting(disjoint: bool, t: Tally, chosen: real, p: Process) {
    disjoint ==> forall f :: LeafAt(t.leaves, f).p + Mul(chosen, Expect(Hits(iset{f}), p)) <= 1.0
  }

  lemma CertainReach(f: FormId)
    ensures DescribesReaches(0.0, [Reach(f, 1.0, 1.0)], Certain(f))
  {
    var reaches := [Reach(f, 1.0, 1.0)];
    assert reaches[1..] == [];
    assert f in EVERYTHING && Meets(map[f := 1.0], EVERYTHING);
    forall g ensures ReachAt(reaches, g) == ProcessLeaf(Certain(f), g) {
      assert Meets(map[f := 1.0], iset{g}) <==> f == g;
    }
  }

  lemma NothingReached()
    ensures DescribesReaches(1.0, [], Nothing)
  {}

  // ----------------------------------------------------------- the loop's progress

  ghost predicate LeafTracks(disjoint: bool, leaf: Leaf, odds: seq<real>, ps: seq<Process>, i: nat, f: FormId)
    requires |odds| == |ps| && i <= |odds|
  {
    && Tracks(disjoint, leaf.p, odds, Values(Hits(iset{f}), ps), i)
    && Tracks(true, leaf.expected, odds, Values(Copies(f), ps), i)
  }

  ghost predicate Progress(disjoint: bool, t: Tally, odds: seq<real>, ps: seq<Process>, i: nat)
    requires |odds| == |ps| && i <= |odds|
  {
    && Tracks(disjoint, Something(disjoint, t), odds, Values(Hits(EVERYTHING), ps), i)
    && forall f :: LeafTracks(disjoint, LeafAt(t.leaves, f), odds, ps, i, f)
  }

  lemma ProgressStart(disjoint: bool, t: Tally, odds: seq<real>, ps: seq<Process>)
    requires |odds| == |ps| && t.leaves == map[] && t.survive == 0.0 && t.allFail == 1.0
    ensures Progress(disjoint, t, odds, ps, 0)
  {
    hide Tracks;
    TracksStart(disjoint, odds, Values(Hits(EVERYTHING), ps));
    forall f ensures LeafTracks(disjoint, LeafAt(t.leaves, f), odds, ps, 0, f) {
      TracksStart(disjoint, odds, Values(Hits(iset{f}), ps));
      TracksStart(true, odds, Values(Copies(f), ps));
    }
  }

  lemma ProgressStep(disjoint: bool, t: Tally, t': Tally, odds: seq<real>, ps: seq<Process>, i: nat)
    requires |odds| == |ps| && i < |odds|
    requires Progress(disjoint, t, odds, ps, i) && Adds(disjoint, t, t', odds[i], ps[i])
    ensures Progress(disjoint, t', odds, ps, i + 1)
  {
    hide Tracks, Mul, Expect, Something;
    TracksStep(disjoint, Something(disjoint, t), odds, Values(Hits(EVERYTHING), ps), i);
    forall f ensures LeafTracks(disjoint, LeafAt(t'.leaves, f), odds, ps, i + 1, f) {
      assert LeafTracks(disjoint, LeafAt(t.leaves, f), odds, ps, i, f);
      TracksStep(disjoint, LeafAt(t.leaves, f).p, odds, Values(Hits(iset{f}), ps), i);
      TracksStep(true, LeafAt(t.leaves, f).expected, odds, Values(Copies(f), ps), i);
    }
  }

  /** Among entries that exclude each other no chance can pass 1, so the cap of
      the merge never binds. */
  lemma ProgressFits(model: Model, t: Tally, gates: seq<real>, ps: seq<Process>, i: nat)
    requires |gates| == |ps| && i < |gates| && Probabilities(gates) && AllProper(ps)
    requires Progress(!model.UseAll?, t, Odds(model, gates), ps, i)
    ensures Fitting(!model.UseAll?, t, Odds(model, gates)[i], ps[i])
  {
    hide Tracks, Mul, Expect, Odds, Select, Dot, AllFail;
    if !model.UseAll? {
      var odds := Odds(model, gates);
      OddsLaw(model, gates);
      SelectKeeps(model, gates, ps);
      forall f ensures LeafAt(t.leaves, f).p + Mul(odds[i], Expect(Hits(iset{f}), ps[i])) <= 1.0 {
        var m := Hits(iset{f});
        var vals := Values(m, ps);
        assert LeafTracks(true, LeafAt(t.leaves, f), odds, ps, i, f);
        forall j | 0 <= j < |odds| ensures odds[j] >= 0.0 && vals[j] >= 0.0 {
          assert ps[j] in ps;
          HitsBounded(ps[j], iset{f});
        }
        TracksFits(LeafAt(t.leaves, f).p, odds, vals, i);
        ExpectSelect(m, model, gates, ps);
        HitsBounded(Select(model, gates, ps), iset{f});
      }
    }
  }

  /** After the last entry the tally holds the selection's probabilities. */
  lemma ProgressEnd(model: Model, t: Tally, gates: seq<real>, ps: seq<Process>)
    requires |gates| == |ps| && Probabilities(gates)
    requires Progress(!model.UseAll?, t, Odds(model, gates), ps, |gates|)
    ensures Something(!model.UseAll?, t) == Expect(Hits(EVERYTHING), Select(model, gates, ps))
    ensures forall f :: LeafAt(t.leaves, f) == ProcessLeaf(Select(model, gates, ps), f)
  {
    hide Tracks, Mul, Expect, Odds, Select, Dot, Something;
    HitsEnd(model, Something(!model.UseAll?, t), gates, ps, EVERYTHING);
    forall f ensures LeafAt(t.leaves, f) == ProcessLeaf(Select(model, gates, ps), f) {
      assert LeafTracks(!model.UseAll?, LeafAt(t.leaves, f), Odds(model, gates), ps, |gates|, f);
      HitsEnd(model, LeafAt(t.leaves, f).p, gates, ps, iset{f});
      CopiesEnd(model, LeafAt(t.leaves, f).expected, gates, ps, f);
    }
  }

  lemma HitsEnd(model: Model, x: real, gates: seq<real>, ps: seq<Process>, items: iset<FormId>)
    requires |gates| == |ps| && Probabilities(gates)
    requires Tracks(!model.UseAll?, x, Odds(model, gates), Values(Hits(items), ps), |gates|)
    ensures x == Expect(Hits(items), Select(model, gates, ps))
  {
    hide Tracks, Mul, Expect, PoolProcess, UseAllProcess, CascadeProcess, LotteryProcess, Dot, NoneOf, PoolDraw;
    TracksEnd(!model.UseAll?, x, Odds(model, gates), Values(Hits(items), ps));
    if model.UseAll? {
      MissedUseAll(items, gates, ps);
    } else {
      ExpectSelect(Hits(items), model, gates, ps);
    }
  }

  lemma CopiesEnd(model: Model, x: real, gates: seq<real>, ps: seq<Process>, f: FormId)
    requires |gates| == |ps| && Probabilities(gates)
    requires Tracks(true, x, Odds(model, gates), Values(Copies(f), ps), |gates|)
    ensures x == Expect(Copies(f), Select(model, gates, ps))
  {
    hide Tracks, Mul, Expect, PoolProcess, UseAllProcess, CascadeProcess, LotteryProcess, Dot, NoneOf, PoolDraw;
    TracksEnd(true, x, Odds(model, gates), Values(Copies(f), ps));
    if model.UseAll? {
      CopiesUseAll(f, gates, ps);
    } else {
      ExpectSelect(Copies(f), model, gates, ps);
    }
  }

  // -------------------------------------------------------------------- projection

  function ScaleLeaves(factor: real, leaves: Leaves): Leaves {
    map f | f in leaves :: Leaf(Clamp(Mul(leaves[f].p, factor), 0.0, 1.0), Mul(leaves[f].expected, factor))
  }

  lemma {:induction false} TotalScaled(factor: real, leaves: Leaves)
    ensures Total(Expected, ScaleLeaves(factor, leaves)) == Mul(factor, Total(Expected, leaves))
    decreases |leaves|
  {
    hide Mul, Clamp;
    MulUnits(factor);
    if leaves == map[] {
      assert ScaleLeaves(factor, leaves) == map[];
    } else {
      var f :| f in leaves;
      TotalScaled(factor, leaves - {f});
      TotalPick(Expected, leaves, f);
      TotalPick(Expected, ScaleLeaves(factor, leaves), f);
      assert ScaleLeaves(factor, leaves) - {f} == ScaleLeaves(factor, leaves - {f});
      MulAdds(factor, leaves[f].expected, Total(Expected, leaves - {f}));
      MulAssociates(factor, leaves[f].expected, 1.0);
    }
  }

  /** A list's own Chance None thins its selection; none of the clamps binds. */
  lemma Projected(factor: real, leaves: Leaves, something: real, p: Process)
    requires Proper(p) && 0.0 <= factor <= 1.0
    requires something == Expect(Hits(EVERYTHING), p) && forall f :: LeafAt(leaves, f) == ProcessLeaf(p, f)
    ensures 0.0 <= something <= 1.0 && 0.0 <= Mul(factor, something) <= 1.0
    ensures Describes(1.0 - Mul(factor, something), ScaleLeaves(factor, leaves), Thin(factor, p))
  {
    hide Mul, Expect;
    HitsBounded(p, EVERYTHING);
    MulBounded(factor, something);
    ExpectThin(Hits(EVERYTHING), factor, p);
    forall f ensures LeafAt(ScaleLeaves(factor, leaves), f) == ProcessLeaf(Thin(factor, p), f) {
      assert LeafAt(leaves, f) == ProcessLeaf(p, f);
      HitsBounded(p, iset{f});
      ExpectThin(Hits(iset{f}), factor, p);
      ExpectThin(Copies(f), factor, p);
      MulUnits(factor);
      MulBounded(factor, Expect(Hits(iset{f}), p));
      MulAssociates(factor, Expect(Hits(iset{f}), p), 1.0);
      MulAssociates(factor, Expect(Copies(f), p), 1.0);
    }
  }

  lemma ProjectedRows(factor: real, scale: TreeScale, disjoint: bool, depthLeft: nat, t: Tally)
    requires RowsTrack(disjoint, scale.levels, depthLeft, Mul(scale.p, factor), Mul(scale.expected, factor), t)
    ensures TreeOf(if scale.levels > 0 then Expanded(t.rows) else Collapsed, scale, ScaleLeaves(factor, t.leaves), depthLeft)
    ensures scale.levels > 0 && disjoint ==> ChanceSum(t.rows) == Mul(scale.p, Mul(factor, t.survive))
  {
    hide Mul, Clamp;
    if scale.levels > 0 {
      var leaves := ScaleLeaves(factor, t.leaves);
      TotalScaled(factor, t.leaves);
      MulAssociates(scale.expected, factor, Total(Expected, t.leaves));
      MulAssociates(scale.p, factor, t.survive);
      if scale.levels > depthLeft {
        forall f ensures LeafSum(t.rows, f) == Mul(scale.expected, LeafAt(leaves, f).expected) {
          var x := LeafAt(t.leaves, f).expected;
          MulAssociates(scale.expected, factor, x);
          MulAssociates(x, factor, 1.0);
          MulUnits(factor);
        }
      }
    }
  }

  /** Merging the reaches of a target adds the entry's share. */
  lemma MergedAdds(disjoint: bool, t: Tally, t': Tally, chosen: real, effective: real, quantity: real,
                   reaches: seq<Reach>, childEmpty: real, p: Process, target: Process)
    requires DescribesReaches(childEmpty, reaches, target)
    requires forall items :: Mul(chosen, Expect(Hits(items), p)) == Mul(effective, Expect(Hits(items), target))
    requires forall f :: Mul(chosen, Expect(Copies(f), p)) == Mul(Mul(effective, quantity), Expect(Copies(f), target))
    requires forall f :: LeafAt(t'.leaves, f) == Merged(disjoint, LeafAt(t.leaves, f), effective, quantity, ReachAt(reaches, f))
    requires if disjoint then t'.survive == t.survive + Mul(effective, 1.0 - childEmpty)
             else t'.allFail == Mul(t.allFail, 1.0 - Mul(effective, 1.0 - childEmpty))
    ensures Adds(disjoint, t, t', chosen, p)
  {
    hide Mul, Expect;
    assert 1.0 - childEmpty == Expect(Hits(EVERYTHING), target);
    forall f
      ensures LeafAt(t'.leaves, f) == Leaf(Absorb(disjoint, LeafAt(t.leaves, f).p, Mul(chosen, Expect(Hits(iset{f}), p))),
                                           LeafAt(t.leaves, f).expected + Mul(chosen, Expect(Copies(f), p)))
    {
      assert ReachAt(reaches, f) == ProcessLeaf(target, f);
    }
  }

  /** The chances of a target fit beside what was drawn before. */
  lemma TargetFits(disjoint: bool, t: Tally, chosen: real, effective: real,
                   reaches: seq<Reach>, childEmpty: real, p: Process, target: Process)
    requires DescribesReaches(childEmpty, reaches, target) && Fitting(disjoint, t, chosen, p)
    requires forall items :: Mul(chosen, Expect(Hits(items), p)) == Mul(effective, Expect(Hits(items), target))
    ensures Fits(disjoint, t.leaves, effective, reaches)
  {
    hide Mul, Expect;
    if disjoint {
      forall f ensures LeafAt(t.leaves, f).p + Mul(effective, ReachAt(reaches, f).p) <= 1.0 {
        assert ReachAt(reaches, f) == ProcessLeaf(target, f);
        assert Mul(chosen, Expect(Hits(iset{f}), p)) == Mul(effective, Expect(Hits(iset{f}), target));
      }
    }
  }

  lemma RowAdded(disjoint: bool, levels: nat, depthLeft: nat, scaleP: real, scaleExpected: real, t: Tally, t': Tally,
                 row: DropBranch, effective: real, quantity: real, reaches: seq<Reach>, childEmpty: real)
    requires levels > 0 && RowsTrack(disjoint, levels, depthLeft, scaleP, scaleExpected, t)
    requires t'.rows == t.rows + [row] && BranchConserved(row)
    requires row.expected == Mul(Mul(scaleExpected, Mul(effective, quantity)), SumReaches(reaches))
    requires row.p == Mul(Mul(scaleP, effective), 1.0 - childEmpty)
    requires disjoint ==> t'.survive == t.survive + Mul(effective, 1.0 - childEmpty)
    requires Total(Expected, t'.leaves) == Total(Expected, t.leaves) + Mul(Mul(effective, quantity), SumReaches(reaches))
    requires forall f :: LeafAt(t'.leaves, f).expected
                      == LeafAt(t.leaves, f).expected + Mul(Mul(effective, quantity), ReachAt(reaches, f).expected)
    requires levels > depthLeft ==>
               forall f :: BranchLeafSum(row, f) == Mul(Mul(scaleExpected, Mul(effective, quantity)), ReachAt(reaches, f).expected)
    ensures RowsTrack(disjoint, levels, depthLeft, scaleP, scaleExpected, t')
  {
    hide Mul, Total, LeafSum, BranchLeafSum, SumReaches, ReachAt, BranchSum, ChanceSum, Conserved, BranchConserved;
    var share := Mul(effective, quantity);
    SumsAppend(t.rows, row);
    MulAssociates(scaleExpected, share, SumReaches(reaches));
    MulAdds(scaleExpected, Total(Expected, t.leaves), Mul(share, SumReaches(reaches)));
    MulAssociates(scaleP, effective, 1.0 - childEmpty);
    MulAdds(scaleP, t.survive, Mul(effective, 1.0 - childEmpty));
    if levels > depthLeft {
      forall f ensures LeafSum(t'.rows, f) == Mul(scaleExpected, LeafAt(t'.leaves, f).expected) {
        var x := ReachAt(reaches, f).expected;
        MulAssociates(scaleExpected, share, x);
        MulAdds(scaleExpected, LeafAt(t.leaves, f).expected, Mul(share, x));
      }
    }
  }

  // --------------------------------------------------------- what the tree rows mean

  /** Whether the entry can drop nothing at all, and so has no row. */
  predicate Skips(e: Eligible, chosen: real) {
    chosen <= 0.0 || Mul(chosen, 1.0 - e.chanceNone) <= 0.0 || e.target.None?
  }

  /** Only what is never selected, never survives its Chance None, or names nothing. */
  lemma SkipsIff(e: Eligible, chosen: real)
    requires ValidEntry(e) && 0.0 <= chosen
    ensures Skips(e, chosen) <==> chosen == 0.0 || e.chanceNone == 1.0 || e.target.None?
  {
    if chosen > 0.0 && e.chanceNone < 1.0 {
      assert chosen * (1.0 - e.chanceNone) > 0.0;
    }
  }

  /** Whether the target is a list the walk goes into. */
  predicate Enters(records: Records, opts: DropOptions, t: Target, path: seq<FormId>, depth: nat) {
    t.isSublist && t.fid !in path && depth < opts.maxDepth && t.fid in records
  }

  /** Whether the table is only partly expanded below a target: a list at the depth cap,
      or one entered and itself cut short. */
  ghost predicate TargetCut(records: Records, opts: DropOptions, t: Target, path: seq<FormId>, depth: nat)
    requires depth <= opts.maxDepth
    decreases opts.maxDepth - depth, 0
  {
    && t.isSublist && t.fid !in path
    && (depth == opts.maxDepth || (t.fid in records && ListCut(records, opts, records[t.fid], path + [t.fid], depth + 1)))
  }

  ghost predicate EntryCut(records: Records, opts: DropOptions, e: Eligible, chosen: real, path: seq<FormId>, depth: nat)
    requires depth <= opts.maxDepth
    decreases opts.maxDepth - depth, 1
  {
    !Skips(e, chosen) && TargetCut(records, opts, e.target.value, path, depth)
  }

  /** Whether a list is cut short: an approximated pool, or an entry that can drop
      something and whose target is cut short. */
  ghost predicate ListCut(records: Records, opts: DropOptions, fields: ListFields, path: seq<FormId>, depth: nat)
    requires depth <= opts.maxDepth
    decreases opts.maxDepth - depth, 2
  {
    var list := ResolveList(fields, opts);
    || (list.model.Pool? && |list.entries| > MAX_EXACT_POOL_ENTRIES)
    || exists i | 0 <= i < |list.entries| ::
         EntryCut(records, opts, list.entries[i], Odds(list.model, GatesOf(list.entries))[i], path, depth)
  }

  /** A row says of one entry: its item, the chance that one run of the root yields
      anything through it, and the copies to expect; for a list that is entered also the
      list's own model and odds, and the same for every row below, one level less of them;
      past the last of the `levels` a list has no rows. `p` and `expected` turn one run of the entry's list into one of the root. */
  ghost predicate RowMeans(records: Records, opts: DropOptions, e: Eligible, chosen: real, path: seq<FormId>, depth: nat, levels: nat,
                           p: real, expected: real, row: DropBranch)
    requires depth <= opts.maxDepth
    decreases opts.maxDepth - depth, 1
  {
    var effective := Mul(chosen, 1.0 - e.chanceNone);
    e.target.Some? && row.fid == e.target.value.fid
    && RowOdds(TargetProcess(records, opts, e.target.value, path, depth), Mul(p, effective),
               Mul(expected, Mul(effective, e.quantity)), row)
    && (row.sublist.List? <==> Enters(records, opts, e.target.value, path, depth))
    && (row.sublist.List? ==>
          levels > 0 &&
          ListMeans(records, opts, records[row.fid], path + [row.fid], depth + 1, levels - 1,
                    Mul(p, effective), Mul(expected, Mul(effective, e.quantity)), row.sublist.list))
  }

  /** The odds of a row whose target is run with the given scale; the item count of a list
      is the number of its items. */
  ghost predicate RowOdds(target: Process, p: real, expected: real, row: DropBranch) {
    && row.p == Mul(p, Expect(Hits(EVERYTHING), target))
    && exists reaches: seq<Reach> ::
         && DescribesReaches(Missed(EVERYTHING, target), reaches, target)
         && row.expected == Mul(expected, SumReaches(reaches))
         && (row.sublist.List? ==> row.sublist.list.itemCount == |reaches|)
  }

  ghost predicate ListMeans(records: Records, opts: DropOptions, fields: ListFields, path: seq<FormId>, depth: nat, levels: nat,
                            p: real, expected: real, list: DropList)
    requires depth <= opts.maxDepth
    decreases opts.maxDepth - depth, |ResolveList(fields, opts).entries| + 3
  {
    && list.model == SelectionModel(fields)
    && list.pNothing == Missed(EVERYTHING, ListProcess(records, opts, fields, path, depth))
    && (list.entries.Expanded? <==> levels > 0)
    && (list.entries.Expanded? ==> RowsMean(records, opts, fields, path, depth, levels, p, expected, list.entries.rows))
  }

  /** The rows of a list are those of its entries that can drop something, in order. */
  ghost predicate RowsMean(records: Records, opts: DropOptions, fields: ListFields, path: seq<FormId>, depth: nat, levels: nat,
                           p: real, expected: real, rows: seq<DropBranch>)
    requires depth <= opts.maxDepth
    decreases opts.maxDepth - depth, |ResolveList(fields, opts).entries| + 2
  {
    var list := ResolveList(fields, opts);
    RowsFollow(records, opts, list.entries, Odds(list.model, GatesOf(list.entries)), |list.entries|, path, depth, levels,
               Mul(p, list.factor), Mul(expected, list.factor), rows)
  }

  ghost predicate RowsFollow(records: Records, opts: DropOptions, entries: seq<Eligible>, odds: seq<real>, i: nat,
                             path: seq<FormId>, depth: nat, levels: nat, p: real, expected: real, rows: seq<DropBranch>)
    requires depth <= opts.maxDepth && i <= |entries| == |odds|
    decreases opts.maxDepth - depth, i + 1
  {
    if i == 0 then rows == []
    else if Skips(entries[i - 1], odds[i - 1]) then RowsFollow(records, opts, entries, odds, i - 1, path, depth, levels, p, expected, rows)
    else
      && |rows| > 0
      && RowMeans(records, opts, entries[i - 1], odds[i - 1], path, depth, levels, p, expected, rows[|rows| - 1])
      && RowsFollow(records, opts, entries, odds, i - 1, path, depth, levels, p, expected, rows[..|rows| - 1])
  }

  lemma RowIsMeant(records: Records, opts: DropOptions, e: Eligible, chosen: real, path: seq<FormId>, depth: nat, levels: nat,
                   p: real, expected: real, row: DropBranch, reaches: seq<Reach>, childEmpty: real)
    requires depth <= opts.maxDepth && e.target.Some? && row.fid == e.target.value.fid
    requires DescribesReaches(childEmpty, reaches, TargetProcess(records, opts, e.target.value, path, depth))
    requires var effective := Mul(chosen, 1.0 - e.chanceNone);
      && row.p == Mul(Mul(p, effective), 1.0 - childEmpty)
      && row.expected == Mul(Mul(expected, Mul(effective, e.quantity)), SumReaches(reaches))
    requires row.sublist.List? <==> Enters(records, opts, e.target.value, path, depth)
    requires row.sublist.List? ==>
      && row.sublist.list.itemCount == |reaches| && levels > 0
      && ListMeans(records, opts, records[row.fid], path + [row.fid], depth + 1, levels - 1, Mul(p, Mul(chosen, 1.0 - e.chanceNone)),
                   Mul(expected, Mul(Mul(chosen, 1.0 - e.chanceNone), e.quantity)), row.sublist.list)
    ensures RowMeans(records, opts, e, chosen, path, depth, levels, p, expected, row)
  {
    hide Mul, TargetProcess, Expect, SumReaches, ListMeans, Distinct;
    var target := TargetProcess(records, opts, e.target.value, path, depth);
    assert 1.0 - childEmpty == Expect(Hits(EVERYTHING), target);
    assert DescribesReaches(Missed(EVERYTHING, target), reaches, target);
    assert RowOdds(target, Mul(p, Mul(chosen, 1.0 - e.chanceNone)), Mul(expected, Mul(Mul(chosen, 1.0 - e.chanceNone), e.quantity)), row);
  }

  lemma NoRowsYet(records: Records, opts: DropOptions, entries: seq<Eligible>, odds: seq<real>, path: seq<FormId>, depth: nat, levels: nat,
                  p: real, expected: real)
    requires depth <= opts.maxDepth && |entries| == |odds|
    ensures RowsFollow(records, opts, entries, odds, 0, path, depth, levels, p, expected, [])
  {}

  lemma RowsGoOn(records: Records, opts: DropOptions, entries: seq<Eligible>, odds: seq<real>, i: nat,
                 path: seq<FormId>, depth: nat, levels: nat,
                 p: real, expected: real, before: seq<DropBranch>, after: seq<DropBranch>)
    requires depth <= opts.maxDepth && i < |entries| == |odds|
    requires RowsFollow(records, opts, entries, odds, i, path, depth, levels, p, expected, before)
    requires Skips(entries[i], odds[i]) ==> after == before
    requires !Skips(entries[i], odds[i]) ==>
      && |after| > 0 && after[..|after| - 1] == before
      && RowMeans(records, opts, entries[i], odds[i], path, depth, levels, p, expected, after[|after| - 1])
    ensures RowsFollow(records, opts, entries, odds, i + 1, path, depth, levels, p, expected, after)
  {
    hide Skips, RowMeans;
  }

  class Walker {
    const records: Records
    const opts: DropOptions
    /** The lists being expanded, root first. */
    var path: seq<FormId>

    constructor (records: Records, opts: DropOptions, root: FormId)
      ensures this.records == records && this.opts == opts && path == [root]
    {
      this.records, this.opts, path := records, opts, [root];
    }

    /** One run of a target, seen from the entry that names it: the items it
        yields, its chance to yield nothing, and its tree rows. */
    method ReachTarget(t: Target, depth: nat, scale: TreeScale)
      returns (reaches: seq<Reach>, childEmpty: real, sublist: Sublist, truncated: bool)
      requires depth <= opts.maxDepth
      requires 0.0 <= scale.p <= 1.0
      modifies this
      ensures path == old(path)
      ensures DescribesReaches(childEmpty, reaches, TargetProcess(records, opts, t, path, depth))
      ensures !truncated ==> Same(TargetProcess(records, opts, t, path, depth), IdealTarget(records, opts, t, path))
      ensures truncated <==> TargetCut(records, opts, t, path, depth)
      ensures scale.levels > 0 ==> sublist.List? ==>
                sublist.list.entries.Expanded? ==>
                  Conserved(sublist.list.entries.rows) &&
                  BranchSum(sublist.list.entries.rows) == Mul(scale.expected, SumReaches(reaches))
      ensures scale.levels > opts.maxDepth - depth ==>
                forall f :: BranchLeafSum(DropBranch(t.fid, Mul(scale.expected, SumReaches(reaches)), 0.0, sublist), f)
                         == Mul(scale.expected, ReachAt(reaches, f).expected)
      ensures scale.levels > 0 ==> (sublist.List? <==> Enters(records, opts, t, path, depth))
      ensures sublist.List? ==>
                && Enters(records, opts, t, path, depth) && sublist.list.itemCount == |reaches| && scale.levels > 0
                && ListMeans(records, opts, records[t.fid], path + [t.fid], depth + 1, scale.levels - 1, scale.p, scale.expected, sublist.list)
      decreases opts.maxDepth - depth, 0
    {
      hide Mul, Mix, ListProcess, RowsMean, ListCut;
      reaches, childEmpty, sublist, truncated := [], 1.0, NotAList, false;
      MulUnits(scale.expected);
      if !t.isSublist {
        reaches, childEmpty := [Reach(t.fid, 1.0, 1.0)], 0.0;
        CertainReach(t.fid);
      } else if t.fid in path {
        NothingReached();
      } else if depth >= opts.maxDepth {
        truncated := true;
        reaches, childEmpty := [Reach(t.fid, 1.0, 1.0)], 0.0;
        CertainReach(t.fid);
      } else if t.fid in records {
        path := path + [t.fid];
        var childScale := TreeScale(if scale.levels == 0 then 0 else scale.levels - 1, scale.p, scale.expected);
        var child := WalkNode(records[t.fid], depth + 1, childScale);
        path := path[..|path| - 1];
        if scale.levels > 0 {
          sublist := List(DropList(child.model, child.pEmpty, |child.leaves|, child.branches));
        }
        truncated := child.truncated;
        reaches := ReachesOf(child.leaves);
        childEmpty := child.pEmpty;
      } else {
        NothingReached();
      }
    }

    /** Adds one entry to the tally. */
    method WalkEntry(e: Eligible, chosen: real, factor: real, disjoint: bool, depth: nat, scale: TreeScale, t: Tally)
      returns (t': Tally)
      requires depth <= opts.maxDepth && ValidEntry(e) && 0.0 <= chosen <= 1.0 && 0.0 <= factor <= 1.0
      requires 0.0 <= scale.p <= 1.0
      requires Fitting(disjoint, t, chosen, EntryProcess(records, opts, e, path, depth))
      requires RowsTrack(disjoint, scale.levels, opts.maxDepth - depth, Mul(scale.p, factor), Mul(scale.expected, factor), t)
      modifies this
      ensures path == old(path)
      ensures Adds(disjoint, t, t', chosen, EntryProcess(records, opts, e, path, depth))
      ensures t'.truncated <==> t.truncated || EntryCut(records, opts, e, chosen, path, depth)
      ensures !t'.truncated ==> ExactShare(records, opts, e, path, depth, chosen)
      ensures RowsTrack(disjoint, scale.levels, opts.maxDepth - depth, Mul(scale.p, factor), Mul(scale.expected, factor), t')
      ensures scale.levels == 0 || Skips(e, chosen) ==> t'.rows == t.rows
      ensures scale.levels > 0 && !Skips(e, chosen) ==>
                && |t'.rows| > 0 && t'.rows[..|t'.rows| - 1] == t.rows
                && RowMeans(records, opts, e, chosen, path, depth, scale.levels, Mul(scale.p, factor), Mul(scale.expected, factor),
                            t'.rows[|t'.rows| - 1])
      decreases opts.maxDepth - depth, 1
    {
      hide Mul, Mix, TargetProcess, EntryProcess, Absorb, Expect, Merged, ExactShare, RowMeans, ListMeans, Enters, TargetCut,
        SumReaches, ReachAt, Fits, Fitting, IdealTarget, Resolve;
      t' := t;
      var effective := Mul(chosen, 1.0 - e.chanceNone);
      MulBounded(chosen, 1.0 - e.chanceNone);
      if chosen <= 0.0 || effective <= 0.0 || e.target.None? {
        SkippedShare(records, opts, e, path, depth, chosen);
        AddsNothing(disjoint, t, chosen, EntryProcess(records, opts, e, path, depth));
        SkippedExact(records, opts, e, path, depth, chosen);
        return;
      }
      var target := e.target.value;
      var reachP := Mul(Mul(scale.p, factor), effective);
      var reachExpected := Mul(Mul(scale.expected, factor), Mul(effective, e.quantity));
      MulBounded(scale.p, factor);
      MulBounded(Mul(scale.p, factor), effective);
      var reaches, childEmpty, sublist, truncated :=
        ReachTarget(target, depth, TreeScale(scale.levels, reachP, reachExpected));
      EntryShare(records, opts, e, path, depth, chosen, effective);
      ghost var p, q := EntryProcess(records, opts, e, path, depth), TargetProcess(records, opts, target, path, depth);
      if !truncated {
        TargetExact(records, opts, e, path, depth, chosen);
      }
      TargetFits(disjoint, t, chosen, effective, reaches, childEmpty, p, q);
      var leaves := MergeReaches(t.leaves, reaches, effective, e.quantity, disjoint);
      var survive := Mul(effective, 1.0 - childEmpty);
      t' := t.(leaves := leaves, truncated := t.truncated || truncated);
      t' := if disjoint then t'.(survive := t.survive + survive) else t'.(allFail := Mul(t.allFail, 1.0 - survive));
      MergedAdds(disjoint, t, t', chosen, effective, e.quantity, reaches, childEmpty, p, q);
      if scale.levels > 0 {
        TargetProper(records, opts, target, path, depth);
        HitsBounded(TargetProcess(records, opts, target, path, depth), EVERYTHING);
        MulBounded(reachP, 1.0 - childEmpty);
        var row := DropBranch(target.fid, Mul(reachExpected, SumReaches(reaches)),
                              Clamp(Mul(reachP, 1.0 - childEmpty), 0.0, 1.0), sublist);
        t' := t'.(rows := t.rows + [row]);
        RowIsMeant(records, opts, e, chosen, path, depth, scale.levels, Mul(scale.p, factor), Mul(scale.expected, factor), row, reaches, childEmpty);
        RowAdded(disjoint, scale.levels, opts.maxDepth - depth, Mul(scale.p, factor), Mul(scale.expected, factor),
                 t, t', row, effective, e.quantity, reaches, childEmpty);
      }
    }

    /** Resolves one list: its chance to yield nothing, the odds of every item it
        can yield and, while levels remain, its tree rows. */
    method WalkNode(fields: ListFields, depth: nat, scale: TreeScale) returns (node: NodeResult)
      requires depth <= opts.maxDepth && 0.0 <= scale.p <= 1.0
      modifies this
      ensures path == old(path)
      ensures node.model == SelectionModel(fields)
      ensures Describes(node.pEmpty, node.leaves, ListProcess(records, opts, fields, path, depth))
      ensures !node.truncated ==>
                Same(ListProcess(records, opts, fields, path, depth), IdealList(records, opts, fields, path))
      ensures node.truncated <==> ListCut(records, opts, fields, path, depth)
      ensures TreeOf(node.branches, scale, node.leaves, opts.maxDepth - depth)
      ensures scale.levels > 0 && !node.model.UseAll? ==>
                ChanceSum(node.branches.rows) == Mul(scale.p, 1.0 - node.pEmpty)
      ensures node.branches.Expanded? ==>
                RowsMean(records, opts, fields, path, depth, scale.levels, scale.p, scale.expected, node.branches.rows)
      decreases opts.maxDepth - depth, 2
    {
      hide Mul, Mix, Odds, Select, EntryProcess, Progress, RowsTrack, TreeOf, ScaleLeaves, ExactShare, Same,
        RowsFollow, RowMeans, Skips, EntryCut;
      var list := ComputeResolvedList(fields, opts);
      var gates := GatesOf(list.entries);
      GatesProbable(list.entries);
      var odds, approximate := SelectionOdds(list.model, gates);
      OddsLaw(list.model, gates);
      var disjoint := !list.model.UseAll?;
      var factor := list.factor;
      ghost var ps := EntryProcesses(records, opts, list.entries, path, depth);
      EntriesProper(records, opts, list.entries, path, depth);
      SelectKeeps(list.model, gates, ps);
      var t := Tally(map[], 0.0, 1.0, [], approximate);
      ProgressStart(disjoint, t, odds, ps);
      RowsStart(disjoint, scale.levels, opts.maxDepth - depth, Mul(scale.p, factor), Mul(scale.expected, factor), t);
      NoRowsYet(records, opts, list.entries, odds, path, depth, scale.levels, Mul(scale.p, factor), Mul(scale.expected, factor));
      for i := 0 to |list.entries|
        invariant path == old(path)
        invariant Progress(disjoint, t, odds, ps, i)
        invariant t.truncated <==> approximate || exists j | 0 <= j < i :: EntryCut(records, opts, list.entries[j], odds[j], path, depth)
        invariant !t.truncated ==> forall j | 0 <= j < i :: ExactShare(records, opts, list.entries[j], path, depth, odds[j])
        invariant RowsTrack(disjoint, scale.levels, opts.maxDepth - depth, Mul(scale.p, factor), Mul(scale.expected, factor), t)
        invariant scale.levels > 0 ==>
          RowsFollow(records, opts, list.entries, odds, i, path, depth, scale.levels, Mul(scale.p, factor), Mul(scale.expected, factor), t.rows)
      {
        ProgressFits(list.model, t, gates, ps, i);
        ghost var before := t;
        t := WalkEntry(list.entries[i], odds[i], factor, disjoint, depth, scale, t);
        if scale.levels > 0 {
          RowsGoOn(records, opts, list.entries, odds, i, path, depth, scale.levels, Mul(scale.p, factor), Mul(scale.expected, factor),
                   before.rows, t.rows);
        }
        ProgressStep(disjoint, before, t, odds, ps, i);
      }
      ProgressEnd(list.model, t, gates, ps);
      Projected(factor, t.leaves, Something(disjoint, t), Select(list.model, gates, ps));
      ProjectedRows(factor, scale, disjoint, opts.maxDepth - depth, t);
      if !t.truncated {
        ListExact(records, opts, fields, path, depth);
      }
      var pEmptyBefore := Clamp(if disjoint then 1.0 - t.survive else t.allFail, 0.0, 1.0);
      var something := Mul(factor, 1.0 - pEmptyBefore);
      var pEmpty := Clamp(1.0 - something, 0.0, 1.0);
      node := NodeResult(pEmpty, ScaleLeaves(factor, t.leaves), t.truncated, list.model,
                         if scale.levels > 0 then Expanded(t.rows) else Collapsed);
    }
  }

  // ------------------------------------------------------------ untruncated is exact

  /** Neither the depth cap nor an approximation changes the entry's share. */
  ghost predicate ExactShare(records: Records, opts: DropOptions, e: Eligible, path: seq<FormId>, depth: nat, chosen: real)
    requires depth <= opts.maxDepth
  {
    SameShare(chosen, EntryProcess(records, opts, e, path, depth), IdealEntry(records, opts, e, path))
  }

  lemma SkippedExact(records: Records, opts: DropOptions, e: Eligible, path: seq<FormId>, depth: nat, chosen: real)
    requires depth <= opts.maxDepth
    requires chosen == 0.0 || Mul(chosen, 1.0 - e.chanceNone) == 0.0 || e.target.None?
    ensures ExactShare(records, opts, e, path, depth, chosen)
  {
    hide Mul, TargetProcess, IdealTarget, Expect;
    SkippedShare(records, opts, e, path, depth, chosen);
    var p := IdealEntry(records, opts, e, path);
    forall m ensures Mul(chosen, Expect(m, p)) == 0.0 {
      MulUnits(chosen);
      MulUnits(Expect(m, p));
      if e.target.None? {
        NothingIsNothing(m);
      } else if chosen != 0.0 {
        var s := Scaled(e.quantity, IdealTarget(records, opts, e.target.value, path));
        ExpectThin(m, 1.0 - e.chanceNone, s);
        MulAssociates(chosen, 1.0 - e.chanceNone, Expect(m, s));
        MulUnits(Expect(m, s));
      }
    }
  }

  lemma TargetExact(records: Records, opts: DropOptions, e: Eligible, path: seq<FormId>, depth: nat, chosen: real)
    requires depth <= opts.maxDepth && e.target.Some?
    requires Same(TargetProcess(records, opts, e.target.value, path, depth), IdealTarget(records, opts, e.target.value, path))
    ensures ExactShare(records, opts, e, path, depth, chosen)
  {
    hide Mul, Mix, TargetProcess, IdealTarget, Expect;
    var t, i := TargetProcess(records, opts, e.target.value, path, depth), IdealTarget(records, opts, e.target.value, path);
    SameScaled(e.quantity, t, i);
    SameThin(1.0 - e.chanceNone, Scaled(e.quantity, t), Scaled(e.quantity, i));
  }

  lemma ListExact(records: Records, opts: DropOptions, fields: ListFields, path: seq<FormId>, depth: nat)
    requires depth <= opts.maxDepth
    requires var list := ResolveList(fields, opts);
      (list.model.Pool? ==> |list.entries| <= MAX_EXACT_POOL_ENTRIES) &&
      forall j | 0 <= j < |list.entries| ::
        ExactShare(records, opts, list.entries[j], path, depth, Odds(list.model, GatesOf(list.entries))[j])
    ensures Same(ListProcess(records, opts, fields, path, depth), IdealList(records, opts, fields, path))
  {
    hide Mul, EntryProcess, IdealEntry, Same, Select, ExactSelect, Odds, SameShare;
    var list := ResolveList(fields, opts);
    var gates := GatesOf(list.entries);
    var ps, qs := EntryProcesses(records, opts, list.entries, path, depth), IdealEntries(records, opts, list.entries, path);
    ResolveEntriesValid(fields.entries, opts);
    GatesProbable(list.entries);
    forall i | 0 <= i < |ps| ensures SameShare(Odds(list.model, gates)[i], ps[i], qs[i]) {
      assert ExactShare(records, opts, list.entries[i], path, depth, Odds(list.model, gates)[i]);
    }
    SameSelect(list.model, gates, ps, qs);
    SameThin(list.factor, Select(list.model, gates, ps), ExactSelect(list.model, gates, qs));
  }

  // -------------------------------------------------------------------- the table

  datatype Table = Table(model: Model, pNothing: real, rows: Leaves, truncated: bool, tree: Option<DropList>)

  /** What odds of one run must satisfy: nothing drops with a probability, each
      item drops at most as often as anything does, and anything drops at most as
      often as all items together. */
  ghost predicate SoundOdds(pNothing: real, rows: Leaves) {
    && 0.0 <= pNothing <= 1.0
    && (forall f <- rows :: 0.0 <= rows[f].p <= 1.0 - pNothing)
    && 1.0 - pNothing <= Total(Chance, rows)
  }

  ghost function Among(keys: set<FormId>): iset<FormId> {
    iset f | f in keys
  }

  ghost function Restrict(rows: Leaves, keys: set<FormId>): Leaves {
    map f | f in keys && f in rows :: rows[f]
  }

  lemma {:induction false} UnionBound(rows: Leaves, keys: set<FormId>, p: Process)
    requires Proper(p) && keys <= rows.Keys
    requires forall f <- keys :: rows[f].p == Expect(Hits(iset{f}), p)
    ensures Expect(Hits(Among(keys)), p) <= Total(Chance, Restrict(rows, keys))
    decreases keys
  {
    hide Expect;
    if keys == {} {
      NeverMet(p, Among(keys));
      assert Restrict(rows, keys) == map[];
    } else {
      var f :| f in keys;
      UnionBound(rows, keys - {f}, p);
      assert Among(keys) == Among(keys - {f}) + iset{f};
      HitsUnion(p, Among(keys - {f}), iset{f});
      TotalPick(Chance, Restrict(rows, keys), f);
      assert Restrict(rows, keys) - {f} == Restrict(rows, keys - {f});
    }
  }

  lemma {:induction false} NeverMet(p: Process, items: iset<FormId>)
    requires items == iset{}
    ensures Expect(Hits(items), p) == 0.0
  {
    hide Mix;
    if p.Flip? {
      NeverMet(p.heads, items);
      NeverMet(p.tails, items);
      MixConstant(p.chance, 0.0);
    }
  }

  /** Odds that describe a process are sound. */
  lemma DescribedIsSound(pNothing: real, rows: Leaves, p: Process)
    requires Proper(p) && Describes(pNothing, rows, p)
    ensures SoundOdds(pNothing, rows)
  {
    hide Expect, Total;
    HitsBounded(p, EVERYTHING);
    forall f <- rows ensures 0.0 <= rows[f].p <= 1.0 - pNothing {
      assert LeafAt(rows, f) == ProcessLeaf(p, f);
      HitsBounded(p, iset{f});
      HitsMonotone(p, iset{f}, EVERYTHING);
    }
    var keys := Among(rows.Keys);
    forall f | f in EVERYTHING - keys ensures Expect(Hits(iset{f}), p) == 0.0 {
      assert LeafAt(rows, f) == ProcessLeaf(p, f);
    }
    HitsNeverDropping(p, keys, EVERYTHING);
    forall f <- rows.Keys ensures rows[f].p == Expect(Hits(iset{f}), p) {
      assert LeafAt(rows, f) == ProcessLeaf(p, f);
    }
    UnionBound(rows, rows.Keys, p);
    assert Restrict(rows, rows.Keys) == rows;
  }

  lemma DescribedCopies(pNothing: real, rows: Leaves, p: Process)
    requires Proper(p) && WholeCopies(p) && Describes(pNothing, rows, p)
    ensures forall f <- rows :: rows[f].p <= rows[f].expected
  {
    hide Expect;
    forall f <- rows ensures rows[f].p <= rows[f].expected {
      assert LeafAt(rows, f) == ProcessLeaf(p, f);
      CopiesAtLeastHits(p, f);
    }
  }

  /** The odds of a list: they are the probabilities of its random process, exact
      ones when the table is not truncated; and the nesting tree holds the same
      odds. */
  method DropTableOf(records: Records, root: FormId, fields: ListFields, opts: DropOptions) returns (table: Table)
    ensures Describes(table.pNothing, table.rows, ListProcess(records, opts, fields, [root], 0))
    ensures SoundOdds(table.pNothing, table.rows)
    ensures AllWholeQuantities(records) && WholeQuantities(fields) ==>
              forall f <- table.rows :: table.rows[f].p <= table.rows[f].expected
    ensures !table.truncated ==> Describes(table.pNothing, table.rows, IdealList(records, opts, fields, [root]))
    ensures table.truncated <==> ListCut(records, opts, fields, [root], 0)
    ensures table.tree.Some? <==> opts.treeDepth > 0
    ensures table.tree.Some? ==>
              && table.tree.value.entries.Expanded?
              && RowsOf(table.tree.value.entries.rows, opts.treeDepth > opts.maxDepth, 1.0, table.rows)
              && (!table.model.UseAll? ==> ChanceSum(table.tree.value.entries.rows) == 1.0 - table.pNothing)
              && ListMeans(records, opts, fields, [root], 0, opts.treeDepth, 1.0, 1.0, table.tree.value)
              && table.tree.value.itemCount == |table.rows|
    ensures table.model == SelectionModel(fields)
  {
    hide Mul, Expect, ListProcess, IdealList, RowsOf, RowsMean, ListCut;
    var walker := new Walker(records, opts, root);
    var node := walker.WalkNode(fields, 0, TreeScale(opts.treeDepth, 1.0, 1.0));
    assert walker.path == [root];
    ListProper(records, opts, fields, [root], 0);
    DescribedIsSound(node.pEmpty, node.leaves, ListProcess(records, opts, fields, [root], 0));
    if AllWholeQuantities(records) && WholeQuantities(fields) {
      ListWhole(records, opts, fields, [root], 0);
      DescribedCopies(node.pEmpty, node.leaves, ListProcess(records, opts, fields, [root], 0));
    }
    if !node.truncated {
      SameDescribes(node.pEmpty, node.leaves, ListProcess(records, opts, fields, [root], 0), IdealList(records, opts, fields, [root]));
    }
    MulUnits(1.0 - node.pEmpty);
    var tree := if opts.treeDepth > 0 then Some(DropList(node.model, node.pEmpty, |node.leaves|, node.branches)) else None;
    table := Table(node.model, node.pEmpty, node.leaves, node.truncated, tree);
  }

  lemma SameDescribes(pNothing: real, rows: Leaves, p: Process, q: Process)
    requires Same(p, q) && Describes(pNothing, rows, p)
    ensures Describes(pNothing, rows, q)
  {
    hide Expect;
    forall f ensures LeafAt(rows, f) == ProcessLeaf(q, f) {
      assert LeafAt(rows, f) == ProcessLeaf(p, f);
    }
  }

  lemma RowsStart(disjoint: bool, levels: nat, depthLeft: nat, scaleP: real, scaleExpected: real, t: Tally)
    requires t.rows == [] && t.leaves == map[] && t.survive == 0.0
    ensures RowsTrack(disjoint, levels, depthLeft, scaleP, scaleExpected, t)
  {
    hide Mul;
    MulUnits(scaleP);
    MulUnits(scaleExpected);
  }
}
