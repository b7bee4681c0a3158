/** Condition gates of a leveled-list entry: rows of rolls joined by AND/OR. */
module Gates {
  import opened Wrappers
  import opened RealMath

  datatype Operator = GreaterThan | GreaterOrEqual | LessThan | LessOrEqual | OtherOperator

  /** One condition row. `comparison` is absent when its Global names no value;
      `orNext` is set when the row is joined to the next by OR. */
  datatype Row = Row(isRandomPercent: bool, operator: Operator, comparison: Option<real>, orNext: bool)

  function Clamp(x: real, lo: real, hi: real): real {
    if x < lo then lo else if x > hi then hi else x
  }

  /** A row's pass chance. Only a random percentage is a probability; any other
      condition is assumed to pass, or under `strict` to fail. */
  function RowChance(row: Row, strict: bool): (p: real)
    ensures 0.0 <= p <= 1.0
  {
    var fallback := if strict then 0.0 else 1.0;
    if !row.isRandomPercent then fallback
    else match row.comparison
      case None => fallback
      case Some(cmp) =>
        match row.operator
        case GreaterThan => Clamp((100.0 - cmp) / 100.0, 0.0, 1.0)
        case GreaterOrEqual => Clamp((100.0 - cmp) / 100.0, 0.0, 1.0)
        case LessThan => Clamp(cmp / 100.0, 0.0, 1.0)
        case LessOrEqual => Clamp(cmp / 100.0, 0.0, 1.0)
        case OtherOperator => fallback
  }

  // ------------------------------------------------------------- the roll itself

  ghost function Interval(lo: int, hi: int): (s: set<int>)
    requires lo <= hi
    ensures |s| == hi - lo && forall k :: k in s <==> lo <= k < hi
    decreases hi - lo
  {
    if lo == hi then {} else Interval(lo, hi - 1) + {hi - 1}
  }

  /** Out of the evenly spaced rolls `0, 1/n, 2/n, ..` below 100, those that reach `cmp`. */
  ghost function RollsAtLeast(n: nat, cmp: real): set<int> {
    set k | k in Interval(0, 100 * n) && k as real >= cmp * n as real
  }

  /** Those that stay below it. */
  ghost function RollsBelow(n: nat, cmp: real): set<int> {
    set k | k in Interval(0, 100 * n) && (k as real) < cmp * n as real
  }

  /** How many of the rolls stay below: the rest reach. */
  lemma RollsSplit(n: nat, cmp: real) returns (below: nat)
    requires n > 0
    ensures |RollsBelow(n, cmp)| == below && |RollsAtLeast(n, cmp)| == 100 * n - below && below <= 100 * n
    ensures below as real - 1.0 < Clamp(cmp * n as real, 0.0, (100 * n) as real) <= below as real
  {
    var x := Clamp(cmp * n as real, 0.0, (100 * n) as real);
    below := if x.Floor as real == x then x.Floor else x.Floor + 1;
    assert RollsBelow(n, cmp) == Interval(0, below);
    assert RollsAtLeast(n, cmp) == Interval(below, 100 * n);
  }

  /** Scaling commutes with clamping. */
  lemma ClampScaled(y: real, m: real)
    requires m > 0.0
    ensures Clamp(y * m, 0.0, m) == Clamp(y, 0.0, 1.0) * m
  {
    if y < 0.0 {
      MulSign(-y, m);
    } else if y > 1.0 {
      MulSign(y - 1.0, m);
    } else {
      MulSign(1.0 - y, m);
      MulSign(y, m);
    }
  }

  /** The share of the rolls below `cmp`, as a clamped fraction of all of them. */
  lemma BelowScaled(n: nat, cmp: real)
    requires n > 0
    ensures Clamp(cmp * n as real, 0.0, (100 * n) as real) == Clamp(cmp / 100.0, 0.0, 1.0) * (100 * n) as real
  {
    var m := (100 * n) as real;
    ClampScaled(cmp / 100.0, m);
    assert cmp / 100.0 * m == cmp * n as real by {
      assert m == 100.0 * n as real;
    }
  }

  lemma ReadableRow(row: Row, strict: bool)
    requires row.isRandomPercent && row.comparison.Some?
    ensures row.operator.GreaterOrEqual? || row.operator.GreaterThan? ==>
      RowChance(row, strict) == 1.0 - Clamp(row.comparison.value / 100.0, 0.0, 1.0)
    ensures row.operator.LessThan? || row.operator.LessOrEqual? ==>
      RowChance(row, strict) == Clamp(row.comparison.value / 100.0, 0.0, 1.0)
  {}

  lemma ShareLeft(c: real, m: real)
    ensures (1.0 - c) * m == m - c * m
  {}

  /** "At least `cmp`" passes as often as a percentage rolled evenly reaches `cmp`, to
      within one roll however finely the rolls are spaced, and so for one comparison
      only. */
  lemma ReachesAsRolled(row: Row, strict: bool, n: nat)
    requires row.isRandomPercent && row.comparison.Some? && (row.operator.GreaterOrEqual? || row.operator.GreaterThan?) && n > 0
    ensures var hits := |RollsAtLeast(n, row.comparison.value)|;
      hits as real <= RowChance(row, strict) * (100 * n) as real < hits as real + 1.0
  {
    hide RowChance, Clamp, RollsAtLeast, RollsBelow;
    var cmp := row.comparison.value;
    var below := RollsSplit(n, cmp);
    BelowScaled(n, cmp);
    ReadableRow(row, strict);
    ShareLeft(Clamp(cmp / 100.0, 0.0, 1.0), (100 * n) as real);
  }

  /** And "below `cmp`" as often as the roll stays below it. */
  lemma StaysBelowAsRolled(row: Row, strict: bool, n: nat)
    requires row.isRandomPercent && row.comparison.Some? && (row.operator.LessThan? || row.operator.LessOrEqual?) && n > 0
    ensures var hits := |RollsBelow(n, row.comparison.value)|;
      hits as real - 1.0 < RowChance(row, strict) * (100 * n) as real <= hits as real
  {
    hide RowChance, Clamp, RollsAtLeast, RollsBelow;
    var cmp := row.comparison.value;
    var below := RollsSplit(n, cmp);
    BelowScaled(n, cmp);
    ReadableRow(row, strict);
    assert RowChance(row, strict) * (100 * n) as real == Clamp(cmp * n as real, 0.0, (100 * n) as real);
  }

  lemma CountPercents(cmp: int) returns (below: nat)
    ensures |set r | r in Interval(0, 100) && r >= cmp| == 100 - below && |set r | r in Interval(0, 100) && r < cmp| == below
    ensures Clamp(cmp as real / 100.0, 0.0, 1.0) == below as real / 100.0
    ensures below == if cmp < 0 then 0 else if cmp > 100 then 100 else cmp
  {
    hide Interval;
    below := if cmp < 0 then 0 else if cmp > 100 then 100 else cmp;
    assert (set r | r in Interval(0, 100) && r >= cmp) == Interval(below, 100);
    assert (set r | r in Interval(0, 100) && r < cmp) == Interval(0, below);
  }

  /** Of the hundred whole percentages, exactly those that reach a whole comparison
      count for "at least", and exactly those below it for "less than"; a comparison
      outside 0 to 100 is certain or impossible. */
  lemma WholePercents(row: Row, strict: bool, cmp: int)
    requires row.isRandomPercent && row.comparison == Some(cmp as real)
    ensures row.operator.GreaterOrEqual? || row.operator.GreaterThan? ==>
      && RowChance(row, strict) == |set r | r in Interval(0, 100) && r >= cmp| as real / 100.0
      && (cmp <= 0 ==> RowChance(row, strict) == 1.0) && (cmp >= 100 ==> RowChance(row, strict) == 0.0)
    ensures row.operator.LessThan? || row.operator.LessOrEqual? ==>
      && RowChance(row, strict) == |set r | r in Interval(0, 100) && r < cmp| as real / 100.0
      && (cmp <= 0 ==> RowChance(row, strict) == 0.0) && (cmp >= 100 ==> RowChance(row, strict) == 1.0)
  {
    hide RowChance, Clamp, Interval;
    ReadableRow(row, strict);
    var below := CountPercents(cmp);
  }

  /** A row no chance can be read from passes, or fails under `strict`: one that is no
      random percentage, names no value, or compares in another way. */
  lemma UnreadableRow(row: Row, strict: bool)
    requires !row.isRandomPercent || row.comparison.None? || row.operator.OtherOperator?
    ensures RowChance(row, strict) == (if strict then 0.0 else 1.0)
  {}

  // ---------------------------------------------------------- what a gate means

  /** Row `i` ends its OR-group: it is not joined to a next row. */
  predicate Closes(rows: seq<Row>, i: nat)
    requires i < |rows|
  {
    !rows[i].orNext || i == |rows| - 1
  }

  /** The first row of the OR-group that row `i` belongs to. */
  ghost function GroupStart(rows: seq<Row>, i: nat): (s: nat)
    requires i < |rows|
    ensures s <= i
  {
    if i == 0 || Closes(rows, i - 1) then i else GroupStart(rows, i - 1)
  }

  ghost predicate GroupHit(rows: seq<Row>, rolls: seq<bool>, i: nat)
    requires i < |rolls| <= |rows|
  {
    exists j | GroupStart(rows, i) <= j <= i :: rolls[j]
  }

  /** Every OR-group decided so far has a row that passed. Over all the rows this
      is what the gate asks for. */
  ghost predicate Holds(rows: seq<Row>, rolls: seq<bool>)
    requires |rolls| <= |rows|
  {
    forall i | 0 <= i < |rolls| && Closes(rows, i) :: GroupHit(rows, rolls, i)
  }

  /** The chance that independent rolls of the rows, given the first `rolls`,
      satisfy the gate. */
  ghost function RollChance(rows: seq<Row>, strict: bool, rolls: seq<bool>): real
    requires |rolls| <= |rows|
    decreases |rows| - |rolls|
  {
    if |rolls| == |rows| then (if Holds(rows, rolls) then 1.0 else 0.0)
    else Mix(RowChance(rows[|rolls|], strict),
             RollChance(rows, strict, rolls + [true]),
             RollChance(rows, strict, rolls + [false]))
  }

  // -------------------------------------------------- the chance row by row

  /** The chance that rows `i..` complete the gate, when `any` says whether the
      group row `i` belongs to already has a passing row. */
  ghost function Completes(rows: seq<Row>, strict: bool, i: nat, any: bool): real
    requires i <= |rows|
    decreases |rows| - i
  {
    if i == |rows| then 1.0
    else Mix(RowChance(rows[i], strict), AfterRow(rows, strict, i, true), AfterRow(rows, strict, i, any))
  }

  ghost function AfterRow(rows: seq<Row>, strict: bool, i: nat, any: bool): real
    requires i < |rows|
    decreases |rows| - i, 0
  {
    if !Closes(rows, i) then Completes(rows, strict, i + 1, any)
    else if any then Completes(rows, strict, i + 1, false)
    else 0.0
  }

  /** The group still open after `rolls` has a passing row. */
  ghost predicate Open(rows: seq<Row>, rolls: seq<bool>)
    requires |rolls| < |rows|
  {
    exists j | GroupStart(rows, |rolls|) <= j < |rolls| :: rolls[j]
  }

  lemma HoldsStep(rows: seq<Row>, rolls: seq<bool>, b: bool)
    requires |rolls| < |rows|
    ensures Holds(rows, rolls + [b])
       <==> Holds(rows, rolls) && (Closes(rows, |rolls|) ==> Open(rows, rolls) || b)
  {
    var n, rolls' := |rolls|, rolls + [b];
    forall i | 0 <= i < n ensures GroupHit(rows, rolls', i) <==> GroupHit(rows, rolls, i) {
      assert forall j | GroupStart(rows, i) <= j <= i :: rolls'[j] == rolls[j];
    }
    assert GroupHit(rows, rolls', n) <==> Open(rows, rolls) || b by {
      assert rolls'[n] == b;
      assert forall j | 0 <= j < n :: rolls'[j] == rolls[j];
      if Open(rows, rolls) {
        var j :| GroupStart(rows, n) <= j < n && rolls[j];
        assert rolls'[j];
      }
    }
    if Holds(rows, rolls') {
      forall i | 0 <= i < n && Closes(rows, i) ensures GroupHit(rows, rolls, i) {
        assert GroupHit(rows, rolls', i);
      }
    }
  }

  lemma OpenStep(rows: seq<Row>, rolls: seq<bool>, b: bool)
    requires |rolls| + 1 < |rows|
    ensures Open(rows, rolls + [b]) <==> !Closes(rows, |rolls|) && (Open(rows, rolls) || b)
  {
    var n, rolls' := |rolls|, rolls + [b];
    assert rolls'[n] == b;
    assert forall j | 0 <= j < n :: rolls'[j] == rolls[j];
    if !Closes(rows, n) && Open(rows, rolls) {
      var j :| GroupStart(rows, n) <= j < n && rolls[j];
      assert rolls'[j];
    }
  }

  lemma {:induction false} RollChanceIsCompletes(rows: seq<Row>, strict: bool, rolls: seq<bool>)
    requires |rolls| < |rows|
    ensures RollChance(rows, strict, rolls)
         == if Holds(rows, rolls) then Completes(rows, strict, |rolls|, Open(rows, rolls)) else 0.0
    decreases |rows| - |rolls|
  {
    hide Mix, RowChance, Holds, Open;
    var n := |rolls|;
    MixConstant(RowChance(rows[n], strict), 0.0);
    HoldsStep(rows, rolls, true);
    HoldsStep(rows, rolls, false);
    if n + 1 < |rows| {
      RollChanceIsCompletes(rows, strict, rolls + [true]);
      RollChanceIsCompletes(rows, strict, rolls + [false]);
      OpenStep(rows, rolls, true);
      OpenStep(rows, rolls, false);
    }
    assert |rolls + [true]| == |rolls + [false]| == n + 1;
    if Holds(rows, rolls) {
      assert RollChance(rows, strict, rolls + [true]) == AfterRow(rows, strict, n, true);
      assert RollChance(rows, strict, rolls + [false]) == AfterRow(rows, strict, n, Open(rows, rolls));
    }
  }

  // ------------------------------------------------------------------- the engine

  lemma GroupGrows(rows: seq<Row>, strict: bool, i: nat, fail: real, p: real)
    requires i < |rows|
    requires p == RowChance(rows[i], strict)
    ensures Mix(fail, Completes(rows, strict, i, false), Completes(rows, strict, i, true))
         == if Closes(rows, i) then Mul(1.0 - Mul(fail, 1.0 - p), Completes(rows, strict, i + 1, false))
            else Mix(Mul(fail, 1.0 - p), Completes(rows, strict, i + 1, false), Completes(rows, strict, i + 1, true))
  {
    hide Mix, Mul, RowChance;
    MixConstant(p, AfterRow(rows, strict, i, true));
    GroupRing(fail, p, AfterRow(rows, strict, i, true), AfterRow(rows, strict, i, false));
  }

  lemma GroupRing(fail: real, p: real, yes: real, no: real)
    ensures Mix(fail, Mix(p, yes, no), yes) == Mix(Mul(fail, 1.0 - p), no, yes)
    ensures no == 0.0 ==> Mix(fail, Mix(p, yes, no), yes) == Mul(1.0 - Mul(fail, 1.0 - p), yes)
  {}

  /** An entry's overall gate: OR-groups combine by their chance of all failing,
      and the groups' chances multiply. The result is the chance that independent
      rolls satisfy the gate; its final clamp never binds. */
  method EntryGateChance(rows: seq<Row>, strict: bool) returns (total: real)
    ensures total == RollChance(rows, strict, [])
    ensures 0.0 <= total <= 1.0
  {
    hide Mix, Mul, RowChance, Holds, Open;
    if |rows| == 0 {
      assert Holds(rows, []) by { EmptyHolds(rows); }
      return 1.0;
    }
    total := 1.0;
    var i := 0;
    MulUnits(Completes(rows, strict, 0, false));
    while i < |rows|
      invariant i <= |rows|
      invariant Mul(total, Completes(rows, strict, i, false)) == Completes(rows, strict, 0, false)
      invariant 0.0 <= total <= 1.0
    {
      var groupFail := 1.0;
      ghost var first, start := i, Completes(rows, strict, i, false);
      MixEnds(start, Completes(rows, strict, i, true));
      var open := true;
      while open
        invariant first <= i <= |rows| && 0.0 <= groupFail <= 1.0
        invariant !open ==> first < i
        invariant open ==> i < |rows|
        invariant open ==> Mix(groupFail, Completes(rows, strict, i, false), Completes(rows, strict, i, true)) == start
        invariant !open ==> Mul(1.0 - groupFail, Completes(rows, strict, i, false)) == start
        decreases open, |rows| - i
      {
        var p := RowChance(rows[i], strict);
        GroupGrows(rows, strict, i, groupFail, p);
        RowChanceBounded(rows[i], strict);
        MulBounded(groupFail, 1.0 - p);
        groupFail := Mul(groupFail, 1.0 - p);
        open := !Closes(rows, i);
        i := i + 1;
      }
      MulAssociates(total, 1.0 - groupFail, Completes(rows, strict, i, false));
      MulBounded(total, 1.0 - groupFail);
      total := Mul(total, 1.0 - groupFail);
    }
    MulUnits(total);
    assert total == Completes(rows, strict, 0, false);
    StartHolds(rows);
    RollChanceIsCompletes(rows, strict, []);
    total := Clamp(total, 0.0, 1.0);
  }

  lemma RowChanceBounded(row: Row, strict: bool)
    ensures 0.0 <= RowChance(row, strict) <= 1.0
  {}

  lemma EmptyHolds(rows: seq<Row>)
    ensures Holds(rows, [])
  {}

  lemma StartHolds(rows: seq<Row>)
    requires |rows| > 0
    ensures Holds(rows, []) && !Open(rows, [])
  {}

  // ------------------------------------------------------- AND and OR, one by one

  /** The chance that every row fails. */
  ghost function RowsFail(rows: seq<Row>, strict: bool): real {
    if |rows| == 0 then 1.0 else Mul(1.0 - RowChance(rows[0], strict), RowsFail(rows[1..], strict))
  }

  lemma {:induction false} OrCompletes(rows: seq<Row>, strict: bool, i: nat)
    requires i < |rows| && (forall k | 0 <= k < |rows| - 1 :: rows[k].orNext)
    ensures Completes(rows, strict, i, true) == 1.0
    ensures Completes(rows, strict, i, false) == 1.0 - RowsFail(rows[i..], strict)
    decreases |rows| - i
  {
    hide RowChance, Mix, Mul;
    var p, rest := RowChance(rows[i], strict), RowsFail(rows[i + 1..], strict);
    assert rows[i..][1..] == rows[i + 1..];
    MixConstant(p, 1.0);
    OrRing(p, rest);
    if i + 1 < |rows| {
      OrCompletes(rows, strict, i + 1);
      assert !Closes(rows, i);
    } else {
      assert Completes(rows, strict, i + 1, false) == 1.0 && rest == 1.0;
    }
    assert AfterRow(rows, strict, i, true) == 1.0;
    assert AfterRow(rows, strict, i, false) == 1.0 - rest;
  }

  lemma OrRing(p: real, rest: real)
    ensures Mix(p, 1.0, 1.0 - rest) == 1.0 - Mul(1.0 - p, rest)
  {}

  /** Rows joined by OR pass unless all of them fail; one row alone passes by its own
      chance. */
  lemma OrGroup(rows: seq<Row>, strict: bool)
    requires |rows| > 0 && (forall k | 0 <= k < |rows| - 1 :: rows[k].orNext)
    ensures RollChance(rows, strict, []) == 1.0 - RowsFail(rows, strict)
    ensures |rows| == 1 ==> RollChance(rows, strict, []) == RowChance(rows[0], strict)
  {
    hide RowChance, RollChance, Completes;
    StartHolds(rows);
    RollChanceIsCompletes(rows, strict, []);
    OrCompletes(rows, strict, 0);
    assert rows[0..] == rows;
    MulUnits(1.0 - RowChance(rows[0], strict));
  }

  lemma {:induction false} CompletesShift(rows: seq<Row>, strict: bool, n: nat, i: nat, any: bool)
    requires n <= |rows| && i <= |rows[n..]|
    ensures Completes(rows, strict, n + i, any) == Completes(rows[n..], strict, i, any)
    decreases |rows| - i
  {
    hide RowChance, Mix;
    if i < |rows[n..]| {
      CompletesShift(rows, strict, n, i + 1, true);
      CompletesShift(rows, strict, n, i + 1, false);
    }
  }

  lemma {:induction false} CompletesSplit(rows: seq<Row>, strict: bool, n: nat, i: nat, any: bool)
    requires i < n < |rows| && !rows[n - 1].orNext
    ensures Completes(rows, strict, i, any) == Mul(Completes(rows[n..], strict, 0, false), Completes(rows[..n], strict, i, any))
    decreases n - i
  {
    hide RowChance, Mix, Mul;
    var q := Completes(rows[n..], strict, 0, false);
    MulUnits(q);
    MixScaled(RowChance(rows[i], strict), q, AfterRow(rows[..n], strict, i, true), AfterRow(rows[..n], strict, i, any));
    if i + 1 < n {
      CompletesSplit(rows, strict, n, i + 1, true);
      CompletesSplit(rows, strict, n, i + 1, false);
      assert Closes(rows[..n], i) == Closes(rows, i);
    } else {
      CompletesShift(rows, strict, n, 0, false);
      assert Closes(rows[..n], i) && Closes(rows, i);
      assert Completes(rows[..n], strict, n, false) == 1.0;
    }
    assert AfterRow(rows, strict, i, true) == Mul(q, AfterRow(rows[..n], strict, i, true));
    assert AfterRow(rows, strict, i, any) == Mul(q, AfterRow(rows[..n], strict, i, any));
  }

  /** A row not joined by OR ends its group: the gate up to it and the gate after it
      must both hold, and their chances multiply. */
  lemma AndSplits(rows: seq<Row>, strict: bool, n: nat)
    requires 0 < n < |rows| && !rows[n - 1].orNext
    ensures RollChance(rows, strict, []) == RollChance(rows[..n], strict, []) * RollChance(rows[n..], strict, [])
  {
    hide RowChance, RollChance, Completes;
    StartHolds(rows);
    StartHolds(rows[..n]);
    StartHolds(rows[n..]);
    RollChanceIsCompletes(rows, strict, []);
    RollChanceIsCompletes(rows[..n], strict, []);
    RollChanceIsCompletes(rows[n..], strict, []);
    CompletesSplit(rows, strict, n, 0, false);
  }
}
