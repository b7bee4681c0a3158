/** What an entry's and a list's fields mean for the odds, stated without the functions
    that read them. */
module DropRules {
  import opened Wrappers
  import opened RealMath
  import opened RandomProcess
  import opened Selection
  import opened SelectionProcess
  import opened Gates
  import opened LeveledList
  import opened DropTable

  /** The chance that something survives a Chance None: that of a percentage roll
      reaching it; without one, nothing is lost. */
  ghost function Survives(chanceNone: Option<real>): real {
    if chanceNone.None? then 1.0 else RowChance(Row(true, GreaterOrEqual, chanceNone, false), false)
  }

  /** Chance None is a roll like a gate's, so the bounds of the rolls are its own. */
  lemma ChanceNoneIsARoll(chanceNone: Option<real>)
    ensures 1.0 - PercentToProbability(chanceNone) == Survives(chanceNone)
  {
    if chanceNone.Some? {
      ReadableRow(Row(true, GreaterOrEqual, chanceNone, false), false);
    }
  }

  /** The level gate lets an entry in from its minimum level on; without one, always. */
  ghost predicate Unlocked(e: EntryFields, level: real) {
    e.minLevel.None? || level >= e.minLevel.value
  }

  lemma {:induction false} ResolveAppend(a: seq<EntryFields>, b: seq<EntryFields>, opts: DropOptions)
    ensures ResolveEntries(a + b, opts) == ResolveEntries(a, opts) + ResolveEntries(b, opts)
  {
    hide Resolve, Qualifies;
    if |a| == 0 {
      assert a + b == b;
    } else {
      assert (a + b)[0] == a[0] && (a + b)[1..] == a[1..] + b;
      ResolveAppend(a[1..], b, opts);
    }
  }

  lemma ResolveOne(e: EntryFields, opts: DropOptions)
    ensures ResolveEntries([e], opts) == if Unlocked(e, opts.level) then [Resolve(e, opts)] else []
  {
    hide Resolve;
    assert [e][1..] == [];
  }

  lemma ResolveAround(a: seq<EntryFields>, e: EntryFields, b: seq<EntryFields>, opts: DropOptions)
    ensures ResolveEntries(a + [e] + b, opts)
         == ResolveEntries(a, opts) + (if Unlocked(e, opts.level) then [Resolve(e, opts)] else []) + ResolveEntries(b, opts)
  {
    hide Resolve, ResolveEntries, Unlocked;
    ResolveAppend(a + [e], b, opts);
    ResolveAppend(a, [e], opts);
    ResolveOne(e, opts);
  }

  /** An entry above the level is as good as absent; any other takes part, in its place. */
  lemma LockedIsAbsent(fields: ListFields, a: seq<EntryFields>, e: EntryFields, b: seq<EntryFields>, opts: DropOptions)
    requires fields.entries == a + [e] + b
    ensures !Unlocked(e, opts.level) ==> ResolveList(fields, opts) == ResolveList(fields.(entries := a + b), opts)
    ensures Unlocked(e, opts.level) ==>
      ResolveList(fields, opts).entries == ResolveEntries(a, opts) + [Resolve(e, opts)] + ResolveEntries(b, opts)
  {
    hide Resolve, ResolveEntries, PercentToProbability, Unlocked;
    ResolveAround(a, e, b, opts);
    ResolveAppend(a, b, opts);
    assert ResolveEntries(a, opts) + [] == ResolveEntries(a, opts);
  }

  // ------------------------------------------------------------- one entry alone

  /** With one entry, every model selects it as often as its gate passes. */
  lemma SelectOne(m: Measure, model: Model, gate: real, p: Process)
    requires 0.0 <= gate <= 1.0
    ensures Expect(m, Select(model, [gate], [p])) == Mul(gate, Expect(m, p))
  {
    hide Mul, Mix;
    assert [gate][1..] == [] && [p][1..] == [] && Values(m, [p]) == [Expect(m, p)];
    NothingIsNothing(m);
    MixNothing(gate, Expect(m, p));
    match model
    case UseAll =>
      assert UseAllProcess([gate], [p]) == Both(Thin(gate, p), Nothing);
      BothNothing(m, Thin(gate, p));
    case UseFirstMatch =>
      assert CascadeProcess([gate], [p]) == Flip(gate, p, Nothing);
    case Pool =>
      assert PoolProcess([gate], [p], []) == Flip(gate, DrawOne([p]), DrawOne([])) by {
        assert [] + [p] == [p];
      }
      MixEnds(Expect(m, p), 0.0);
      assert Inverse(1) == 1.0;
      assert DrawOne([p]) == Flip(1.0, p, Nothing);
  }

  lemma {:induction false} BothNothing(m: Measure, p: Process)
    ensures Expect(m, Both(p, Nothing)) == Expect(m, p)
  {
    hide Mix;
    match p
    case Stop(drop) =>
      assert Merge(drop, map[]).Keys == drop.Keys;
    case Flip(c, heads, tails) =>
      BothNothing(m, heads);
      BothNothing(m, tails);
  }

  /** One run of a list of one unlocked entry: the list's own Chance None, the gate and
      the entry's Chance None must all let it through; then its target runs, each copy
      counting as often as the quantity says, where none or 0 means once. */
  lemma LoneEntry(records: Records, opts: DropOptions, fields: ListFields, e: EntryFields, t: Target, path: seq<FormId>, depth: nat)
    requires depth <= opts.maxDepth && fields.entries == [e] && e.target == Some(t) && t.fid != 0 && Unlocked(e, opts.level)
    ensures var through := Mul(Survives(fields.chanceNone), Mul(RollChance(e.rows, opts.strict, []), Survives(e.chanceNone)));
      var target := TargetProcess(records, opts, t, path, depth);
      var list := ListProcess(records, opts, fields, path, depth);
      && (forall items :: Expect(Hits(items), list) == Mul(through, Expect(Hits(items), target)))
      && (forall f :: Expect(Copies(f), list)
            == Mul(through, Mul(if e.quantity.None? || e.quantity.value == 0.0 then 1.0 else e.quantity.value,
                                Expect(Copies(f), target))))
  {
    hide RollChance, PercentToProbability, TargetProcess, Select, Survives, Mul;
    var target := TargetProcess(records, opts, t, path, depth);
    ResolveOne(e, opts);
    var r := Resolve(e, opts);
    assert ResolveList(fields, opts).entries == [r] && r.quantity == Quantity(e);
    ChanceNoneIsARoll(fields.chanceNone);
    ChanceNoneIsARoll(e.chanceNone);
    RollChanceBounded(e.rows, opts.strict, []);
    assert GatesOf([r]) == [r.gate];
    assert EntryProcesses(records, opts, [r], path, depth) == [EntryProcess(records, opts, r, path, depth)];
    forall items ensures Expect(Hits(items), ListProcess(records, opts, fields, path, depth))
      == Mul(Mul(Survives(fields.chanceNone), Mul(r.gate, Survives(e.chanceNone))), Expect(Hits(items), target))
    {
      LoneMeasure(Hits(items), SelectionModel(fields), Survives(fields.chanceNone), r.gate, Survives(e.chanceNone), r.quantity, target);
      ScaledHits(r.quantity, target, items);
    }
    forall f ensures Expect(Copies(f), ListProcess(records, opts, fields, path, depth))
      == Mul(Mul(Survives(fields.chanceNone), Mul(r.gate, Survives(e.chanceNone))), Mul(r.quantity, Expect(Copies(f), target)))
    {
      LoneMeasure(Copies(f), SelectionModel(fields), Survives(fields.chanceNone), r.gate, Survives(e.chanceNone), r.quantity, target);
      ScaledCopies(r.quantity, target, f);
    }
  }

  lemma LoneMeasure(m: Measure, model: Model, whole: real, gate: real, own: real, quantity: real, target: Process)
    requires 0.0 <= gate <= 1.0
    ensures Expect(m, Thin(whole, Select(model, [gate], [Thin(own, Scaled(quantity, target))])))
         == Mul(Mul(whole, Mul(gate, own)), Expect(m, Scaled(quantity, target)))
  {
    hide Mul, Select, Thin, Scaled;
    var p := Scaled(quantity, target);
    var v := Expect(m, p);
    SelectOne(m, model, gate, Thin(own, p));
    ExpectThin(m, own, p);
    ExpectThin(m, whole, Select(model, [gate], [Thin(own, p)]));
    MulAssociates(gate, own, v);
    MulAssociates(whole, Mul(gate, own), v);
  }

  /** The table of a list of one unlocked entry for an item, in numbers: the item's row, and
      no chance for anything else. */
  lemma LoneItemTable(records: Records, opts: DropOptions, fields: ListFields, e: EntryFields, f: FormId, root: FormId,
                      pNothing: real, rows: Leaves)
    requires fields.entries == [e] && e.target == Some(Target(f, false)) && f != 0 && Unlocked(e, opts.level)
    requires Describes(pNothing, rows, ListProcess(records, opts, fields, [root], 0))
    ensures var through := Mul(Survives(fields.chanceNone), Mul(RollChance(e.rows, opts.strict, []), Survives(e.chanceNone)));
      var quantity := if e.quantity.None? || e.quantity.value == 0.0 then 1.0 else e.quantity.value;
      && LeafAt(rows, f) == Leaf(through, Mul(through, quantity))
      && pNothing == 1.0 - through
      && forall g | g != f :: LeafAt(rows, g) == Leaf(0.0, 0.0)
  {
    hide ListProcess, RollChance, Survives, Mul;
    LoneEntry(records, opts, fields, e, Target(f, false), [root], 0);
    var quantity := if e.quantity.None? || e.quantity.value == 0.0 then 1.0 else e.quantity.value;
    var through := Mul(Survives(fields.chanceNone), Mul(RollChance(e.rows, opts.strict, []), Survives(e.chanceNone)));
    MulUnits(through);
    MulUnits(quantity);
    assert f in map[f := 1.0] && f in EVERYTHING;
  }

  /** An entry whose target has no FormID, or that names none, drops nothing. */
  lemma LoneEntryWithoutTarget(records: Records, opts: DropOptions, fields: ListFields, e: EntryFields, path: seq<FormId>, depth: nat,
                               items: iset<FormId>)
    requires depth <= opts.maxDepth && fields.entries == [e] && (e.target.None? || e.target.value.fid == 0)
    ensures Expect(Hits(items), ListProcess(records, opts, fields, path, depth)) == 0.0
  {
    hide RollChance, PercentToProbability, Select, Mul;
    var m := Hits(items);
    ResolveOne(e, opts);
    var list := ResolveList(fields, opts);
    NothingIsNothing(m);
    MulUnits(list.factor);
    ExpectThin(m, list.factor, Select(list.model, GatesOf(list.entries), EntryProcesses(records, opts, list.entries, path, depth)));
    if Unlocked(e, opts.level) {
      var r := Resolve(e, opts);
      assert GatesOf([r]) == [r.gate] && EntryProcesses(records, opts, [r], path, depth) == [Nothing];
      RollChanceBounded(e.rows, opts.strict, []);
      SelectOne(m, list.model, r.gate, Nothing);
      MulUnits(r.gate);
    } else {
      assert GatesOf([]) == [] && EntryProcesses(records, opts, [], path, depth) == [];
      SelectNone(list.model);
    }
  }

  lemma SelectNone(model: Model)
    ensures Select(model, [], []) == Nothing
  {}

  /** What a target yields: an item itself; a list that is running already, or cannot be
      fetched, nothing; a list past the depth cap counts as an item; any other list
      runs, as one of the lists that are running. */
  lemma TargetYields(records: Records, opts: DropOptions, t: Target, path: seq<FormId>, depth: nat, items: iset<FormId>)
    requires depth <= opts.maxDepth
    ensures var hits := Expect(Hits(items), TargetProcess(records, opts, t, path, depth));
      && (!t.isSublist ==> hits == if t.fid in items then 1.0 else 0.0)
      && (t.isSublist && t.fid in path ==> hits == 0.0)
      && (t.isSublist && t.fid !in path && depth == opts.maxDepth ==> hits == if t.fid in items then 1.0 else 0.0)
      && (t.isSublist && t.fid !in path && depth < opts.maxDepth && t.fid !in records ==> hits == 0.0)
      && (t.isSublist && t.fid !in path && depth < opts.maxDepth && t.fid in records ==>
            hits == Expect(Hits(items), ListProcess(records, opts, records[t.fid], path + [t.fid], depth + 1)))
  {
    hide ListProcess;
    NothingIsNothing(Hits(items));
    assert t.fid in map[t.fid := 1.0];
  }

  // ------------------------------------------------------------ several entries

  /** An entry for an item that always drops. */
  function Sure(f: FormId): EntryFields {
    EntryFields(Some(Target(f, false)), None, [], None, None)
  }

  lemma SureProcess(records: Records, opts: DropOptions, f: FormId, path: seq<FormId>, depth: nat, item: FormId)
    requires depth <= opts.maxDepth && f != 0
    ensures Resolve(Sure(f), opts).gate == 1.0
    ensures Expect(Hits(iset{item}), EntryProcess(records, opts, Resolve(Sure(f), opts), path, depth)) == if f == item then 1.0 else 0.0
  {
    hide Mul;
    EmptyHolds([]);
    var r := Resolve(Sure(f), opts);
    var p := Scaled(r.quantity, Certain(f));
    ScaledHits(r.quantity, Certain(f), iset{item});
    MulUnits(Expect(Hits(iset{item}), p));
    ExpectThin(Hits(iset{item}), 1.0, p);
    assert f in map[f := 1.0];
  }

  /** How a list picks, on two items that are always ready to drop: "use all" drops both,
      whatever else is set; otherwise "use first match" drops the first and never the
      second; otherwise each drops every other time. */
  lemma TwoSureEntries(records: Records, opts: DropOptions, fields: ListFields, x: FormId, y: FormId, path: seq<FormId>, depth: nat)
    requires depth <= opts.maxDepth && fields.chanceNone.None? && x != y && x != 0 && y != 0
    requires fields.entries == [Sure(x), Sure(y)]
    ensures var list := ListProcess(records, opts, fields, path, depth);
      var first, second := Expect(Hits(iset{x}), list), Expect(Hits(iset{y}), list);
      if fields.useAll then first == 1.0 && second == 1.0
      else if fields.useFirstMatch then first == 1.0 && second == 0.0
      else first == 0.5 && second == 0.5
  {
    hide Resolve, EntryProcess, Select, Mix;
    var a, b := Resolve(Sure(x), opts), Resolve(Sure(y), opts);
    assert ResolveEntries(fields.entries, opts) == [a, b] by {
      assert fields.entries == [Sure(x)] + [Sure(y)];
      ResolveAppend([Sure(x)], [Sure(y)], opts);
      ResolveOne(Sure(x), opts);
      ResolveOne(Sure(y), opts);
    }
    var p, q := EntryProcess(records, opts, a, path, depth), EntryProcess(records, opts, b, path, depth);
    SureProcess(records, opts, x, path, depth, x);
    SureProcess(records, opts, x, path, depth, y);
    SureProcess(records, opts, y, path, depth, x);
    SureProcess(records, opts, y, path, depth, y);
    assert GatesOf([a, b]) == [1.0, 1.0];
    assert EntryProcesses(records, opts, [a, b], path, depth) == [p, q];
    var model := SelectionModel(fields);
    ExpectThin(Hits(iset{x}), 1.0, Select(model, [1.0, 1.0], [p, q]));
    ExpectThin(Hits(iset{y}), 1.0, Select(model, [1.0, 1.0], [p, q]));
    SelectTwoSure(iset{x}, model, p, q);
    SelectTwoSure(iset{y}, model, p, q);
  }

  /** Two gates that always pass: how often each entry is selected. */
  lemma OddsOfTwoSure(model: Model)
    requires !model.UseAll?
    ensures Odds(model, [1.0, 1.0]) == if model.UseFirstMatch? then [1.0, 0.0] else [0.5, 0.5]
  {
    var gates := [1.0, 1.0];
    match model
    case UseFirstMatch =>
      CascadeOddsAre(gates, 1.0, 0);
      CascadeOddsAre(gates, 1.0, 1);
    case Pool =>
      PoolDrawIsPoolOdds(gates, 0, 0);
      PoolDrawIsPoolOdds(gates, 0, 1);
      assert Without(gates, 0) == Without(gates, 1) == [1.0];
      assert ExpectedShare([1.0], 1) == Mix(1.0, ExpectedShare([], 2), ExpectedShare([], 1));
  }

  lemma SelectTwoSure(items: iset<FormId>, model: Model, p: Process, q: Process)
    ensures var v, w := Expect(Hits(items), p), Expect(Hits(items), q);
      Expect(Hits(items), Select(model, [1.0, 1.0], [p, q]))
        == match model
           case UseAll => 1.0 - (1.0 - v) * (1.0 - w)
           case UseFirstMatch => v
           case Pool => 0.5 * v + 0.5 * w
  {
    hide Select, UseAllProcess, Odds, Expect;
    var m := Hits(items);
    var v, w := Expect(m, p), Expect(m, q);
    assert Values(m, [p, q]) == [v, w];
    if model.UseAll? {
      MissedUseAll(items, [1.0, 1.0], [p, q]);
      TwoSureMissed(v, w);
      UseAllIsSelect([1.0, 1.0], [p, q]);
    } else {
      ExpectSelect(m, model, [1.0, 1.0], [p, q]);
      OddsOfTwoSure(model);
      DotOfTwo(1.0, 0.0, v, w);
      DotOfTwo(0.5, 0.5, v, w);
    }
  }

  lemma UseAllIsSelect(gates: seq<real>, entries: seq<Process>)
    requires |gates| == |entries|
    ensures Select(UseAll, gates, entries) == UseAllProcess(gates, entries)
  {}

  lemma TwoSureMissed(v: real, w: real)
    ensures NoneOf([1.0, 1.0], [v, w]) == (1.0 - v) * (1.0 - w)
  {
    assert [1.0, 1.0][1..] == [1.0] && [v, w][1..] == [w] && [1.0][1..] == [] && [w][1..] == [];
    assert NoneOf([], []) == 1.0;
    assert NoneOf([1.0], [w]) == 1.0 - w;
  }

  lemma DotOfTwo(a: real, b: real, v: real, w: real)
    ensures Dot([a, b], [v, w]) == a * v + b * w
  {
    assert [a, b][1..] == [b] && [v, w][1..] == [w] && [b][1..] == [] && [w][1..] == [];
    assert Dot([b], [w]) == b * w;
  }
}
