/** Leveled lists as records, what qualifies at a level, and the random process a
    list stands for. */
module LeveledList {
  import opened Wrappers
  import opened RealMath
  import opened RandomProcess
  import opened Selection
  import opened SelectionProcess
  import opened Gates

  /** The record an entry names. */
  datatype Target = Target(fid: FormId, isSublist: bool)

  /** One entry with its scalars read; `minLevel`, `chanceNone` (a percentage) and
      `quantity` are absent when no source sets them. */
  datatype EntryFields = EntryFields(
    target: Option<Target>, minLevel: Option<real>, rows: seq<Row>, chanceNone: Option<real>, quantity: Option<real>)

  datatype ListFields = ListFields(
    useAll: bool, useFirstMatch: bool, chanceNone: Option<real>, entries: seq<EntryFields>)

  /** The sublists that can be fetched. */
  type Records = map<FormId, ListFields>

  datatype DropOptions = DropOptions(level: real, maxDepth: nat, strict: bool, treeDepth: nat)

  /** An entry that qualifies, with its gate's chance to pass. */
  datatype Eligible = Eligible(target: Option<Target>, gate: real, chanceNone: real, quantity: real)

  datatype ResolvedList = ResolvedList(model: Model, factor: real, entries: seq<Eligible>)

  function SelectionModel(fields: ListFields): Model {
    if fields.useAll then UseAll else if fields.useFirstMatch then UseFirstMatch else Pool
  }

  function PercentToProbability(percent: Option<real>): (p: real)
    ensures 0.0 <= p <= 1.0
  {
    Clamp((if percent.Some? then percent.value else 0.0) / 100.0, 0.0, 1.0)
  }

  /** A quantity of zero means the sublist's own count. */
  function Quantity(e: EntryFields): real {
    var raw := if e.quantity.Some? then e.quantity.value else 1.0;
    if raw == 0.0 then 1.0 else raw
  }

  /** A target without a FormID is no target. */
  function UsableTarget(e: EntryFields): Option<Target> {
    if e.target.Some? && e.target.value.fid == 0 then None else e.target
  }

  predicate Qualifies(e: EntryFields, opts: DropOptions) {
    e.minLevel.Some? ==> e.minLevel.value <= opts.level
  }

  ghost function Resolve(e: EntryFields, opts: DropOptions): Eligible {
    Eligible(UsableTarget(e), RollChance(e.rows, opts.strict, []), PercentToProbability(e.chanceNone), Quantity(e))
  }

  ghost function ResolveEntries(entries: seq<EntryFields>, opts: DropOptions): seq<Eligible> {
    if |entries| == 0 then []
    else (if Qualifies(entries[0], opts) then [Resolve(entries[0], opts)] else []) + ResolveEntries(entries[1..], opts)
  }

  ghost function ResolveList(fields: ListFields, opts: DropOptions): ResolvedList {
    ResolvedList(SelectionModel(fields), 1.0 - PercentToProbability(fields.chanceNone),
                 ResolveEntries(fields.entries, opts))
  }

  ghost predicate ValidEntry(e: Eligible) {
    0.0 <= e.gate <= 1.0 && 0.0 <= e.chanceNone <= 1.0
  }

  ghost predicate ValidEntries(entries: seq<Eligible>) {
    forall i | 0 <= i < |entries| :: ValidEntry(entries[i])
  }

  method ComputeEligible(e: EntryFields, opts: DropOptions) returns (eligible: Eligible)
    ensures eligible == Resolve(e, opts) && ValidEntry(eligible)
  {
    hide RollChance, PercentToProbability;
    var gate := EntryGateChance(e.rows, opts.strict);
    eligible := Eligible(UsableTarget(e), gate, PercentToProbability(e.chanceNone), Quantity(e));
  }

  lemma ResolveStep(entries: seq<EntryFields>, i: nat, opts: DropOptions, done: seq<Eligible>)
    requires i < |entries|
    ensures done + ResolveEntries(entries[i..], opts)
         == (if Qualifies(entries[i], opts) then done + [Resolve(entries[i], opts)] else done)
            + ResolveEntries(entries[i + 1..], opts)
  {
    hide Resolve, Qualifies;
    assert entries[i..][1..] == entries[i + 1..];
  }

  /** The entries that qualify, each with its gate's chance. */
  method ComputeResolvedList(fields: ListFields, opts: DropOptions) returns (list: ResolvedList)
    ensures list == ResolveList(fields, opts)
    ensures ValidEntries(list.entries)
  {
    hide Resolve, ResolveEntries, ValidEntry, Qualifies, PercentToProbability, RollChance;
    var entries := [];
    assert fields.entries[0..] == fields.entries;
    assert entries + ResolveEntries(fields.entries, opts) == ResolveEntries(fields.entries, opts);
    for i := 0 to |fields.entries|
      invariant entries + ResolveEntries(fields.entries[i..], opts) == ResolveEntries(fields.entries, opts)
      invariant ValidEntries(entries)
    {
      var e := fields.entries[i];
      ResolveStep(fields.entries, i, opts, entries);
      if !Qualifies(e, opts) {
        continue;
      }
      var eligible := ComputeEligible(e, opts);
      entries := entries + [eligible];
    }
    ResolveNone(opts);
    assert fields.entries[|fields.entries|..] == [] && entries + [] == entries;
    list := ResolvedList(SelectionModel(fields), 1.0 - PercentToProbability(fields.chanceNone), entries);
  }

  lemma ResolveNone(opts: DropOptions)
    ensures ResolveEntries([], opts) == []
  {}

  lemma {:induction false} ResolveEntriesValid(entries: seq<EntryFields>, opts: DropOptions)
    ensures ValidEntries(ResolveEntries(entries, opts))
  {
    if |entries| > 0 {
      ResolveEntriesValid(entries[1..], opts);
      hide Gates.RollChance;
      RollChanceBounded(entries[0].rows, opts.strict, []);
    }
  }

  lemma {:induction false} RollChanceBounded(rows: seq<Row>, strict: bool, rolls: seq<bool>)
    requires |rolls| <= |rows|
    ensures 0.0 <= RollChance(rows, strict, rolls) <= 1.0
    decreases |rows| - |rolls|
  {
    hide Mix, RowChance, Holds;
    if |rolls| < |rows| {
      RollChanceBounded(rows, strict, rolls + [true]);
      RollChanceBounded(rows, strict, rolls + [false]);
      RowChanceBounded(rows[|rolls|], strict);
      MixBounded(RowChance(rows[|rolls|], strict), 0.0,
                 RollChance(rows, strict, rolls + [true]), RollChance(rows, strict, rolls + [false]), 1.0);
    }
  }

  // ------------------------------------------------------ what a list stands for

  function GatesOf(entries: seq<Eligible>): (gates: seq<real>)
    ensures |gates| == |entries|
  {
    seq(|entries|, i requires 0 <= i < |entries| => entries[i].gate)
  }

  /** One invocation of a target: an item drops itself; a list runs, unless it is
      one of its own ancestors or cannot be fetched; at the depth cap it counts as
      an item. */
  ghost function TargetProcess(records: Records, opts: DropOptions, t: Target, path: seq<FormId>, depth: nat): Process
    requires depth <= opts.maxDepth
    decreases opts.maxDepth - depth, 0
  {
    if !t.isSublist then Certain(t.fid)
    else if t.fid in path then Nothing
    else if depth >= opts.maxDepth then Certain(t.fid)
    else if t.fid in records then ListProcess(records, opts, records[t.fid], path + [t.fid], depth + 1)
    else Nothing
  }

  /** One selected entry: its own Chance None, then its target, `quantity` times. */
  ghost function EntryProcess(records: Records, opts: DropOptions, e: Eligible, path: seq<FormId>, depth: nat): Process
    requires depth <= opts.maxDepth
    decreases opts.maxDepth - depth, 1
  {
    match e.target
    case None => Nothing
    case Some(t) => Thin(1.0 - e.chanceNone, Scaled(e.quantity, TargetProcess(records, opts, t, path, depth)))
  }

  ghost function EntryProcesses(records: Records, opts: DropOptions, entries: seq<Eligible>, path: seq<FormId>, depth: nat)
    : (ps: seq<Process>)
    requires depth <= opts.maxDepth
    ensures |ps| == |entries|
    decreases opts.maxDepth - depth, 2
  {
    seq(|entries|, i requires 0 <= i < |entries| => EntryProcess(records, opts, entries[i], path, depth))
  }

  /** One invocation of a list: its own Chance None, then its selection. */
  ghost function ListProcess(records: Records, opts: DropOptions, fields: ListFields, path: seq<FormId>, depth: nat): Process
    requires depth <= opts.maxDepth
    decreases opts.maxDepth - depth, 3
  {
    var list := ResolveList(fields, opts);
    Thin(list.factor,
         Select(list.model, GatesOf(list.entries), EntryProcesses(records, opts, list.entries, path, depth)))
  }

  // --------------------------------------------- the list without any shortcuts

  ghost function Unvisited(records: Records, path: seq<FormId>): set<FormId> {
    set f | f in records && f !in path
  }

  ghost function IdealTarget(records: Records, opts: DropOptions, t: Target, path: seq<FormId>): Process
    decreases Unvisited(records, path), 0
  {
    if !t.isSublist then Certain(t.fid)
    else if t.fid in path then Nothing
    else if t.fid in records then
      assert t.fid in Unvisited(records, path) && t.fid !in Unvisited(records, path + [t.fid]);
      IdealList(records, opts, records[t.fid], path + [t.fid])
    else Nothing
  }

  ghost function IdealEntry(records: Records, opts: DropOptions, e: Eligible, path: seq<FormId>): Process
    decreases Unvisited(records, path), 1
  {
    match e.target
    case None => Nothing
    case Some(t) => Thin(1.0 - e.chanceNone, Scaled(e.quantity, IdealTarget(records, opts, t, path)))
  }

  ghost function IdealEntries(records: Records, opts: DropOptions, entries: seq<Eligible>, path: seq<FormId>): (ps: seq<Process>)
    ensures |ps| == |entries|
    decreases Unvisited(records, path), 2
  {
    seq(|entries|, i requires 0 <= i < |entries| => IdealEntry(records, opts, entries[i], path))
  }

  /** One invocation of a list with no depth cap and every pool rolled exactly. */
  ghost function IdealList(records: Records, opts: DropOptions, fields: ListFields, path: seq<FormId>): Process
    decreases Unvisited(records, path), 3
  {
    var list := ResolveList(fields, opts);
    Thin(list.factor,
         ExactSelect(list.model, GatesOf(list.entries), IdealEntries(records, opts, list.entries, path)))
  }

  // ------------------------------------------------------------- it is a process

  lemma GatesProbable(entries: seq<Eligible>)
    requires ValidEntries(entries)
    ensures Probabilities(GatesOf(entries))
  {}

  lemma EntryKeeps(records: Records, opts: DropOptions, e: Eligible, path: seq<FormId>, depth: nat)
    requires depth <= opts.maxDepth && ValidEntry(e)
    ensures (e.target.Some? ==> Proper(TargetProcess(records, opts, e.target.value, path, depth))) ==>
              Proper(EntryProcess(records, opts, e, path, depth))
    ensures (e.target.Some? ==> WholeCopies(TargetProcess(records, opts, e.target.value, path, depth))) && e.quantity >= 1.0 ==>
              WholeCopies(EntryProcess(records, opts, e, path, depth))
  {
    match e.target
    case None =>
    case Some(t) =>
      hide TargetProcess;
      var p := TargetProcess(records, opts, t, path, depth);
      ScaledKeeps(e.quantity, p);
      ThinKeeps(1.0 - e.chanceNone, Scaled(e.quantity, p));
  }

  lemma {:induction false} TargetProper(records: Records, opts: DropOptions, t: Target, path: seq<FormId>, depth: nat)
    requires depth <= opts.maxDepth
    ensures Proper(TargetProcess(records, opts, t, path, depth))
    decreases opts.maxDepth - depth, 0
  {
    if t.isSublist && t.fid !in path && depth < opts.maxDepth && t.fid in records {
      ListProper(records, opts, records[t.fid], path + [t.fid], depth + 1);
    }
  }

  lemma {:induction false} EntriesProper(records: Records, opts: DropOptions, entries: seq<Eligible>, path: seq<FormId>, depth: nat)
    requires depth <= opts.maxDepth && ValidEntries(entries)
    ensures AllProper(EntryProcesses(records, opts, entries, path, depth))
    decreases opts.maxDepth - depth, 1
  {
    var ps := EntryProcesses(records, opts, entries, path, depth);
    forall i | 0 <= i < |entries| ensures Proper(ps[i]) {
      if entries[i].target.Some? {
        TargetProper(records, opts, entries[i].target.value, path, depth);
      }
      EntryKeeps(records, opts, entries[i], path, depth);
    }
  }

  lemma {:induction false} ListProper(records: Records, opts: DropOptions, fields: ListFields, path: seq<FormId>, depth: nat)
    requires depth <= opts.maxDepth
    ensures Proper(ListProcess(records, opts, fields, path, depth))
    decreases opts.maxDepth - depth, 2
  {
    var list := ResolveList(fields, opts);
    ResolveEntriesValid(fields.entries, opts);
    EntriesProper(records, opts, list.entries, path, depth);
    GatesProbable(list.entries);
    SelectKeeps(list.model, GatesOf(list.entries), EntryProcesses(records, opts, list.entries, path, depth));
    ThinKeeps(list.factor, Select(list.model, GatesOf(list.entries), EntryProcesses(records, opts, list.entries, path, depth)));
  }

  // ----------------------------------------------------------------- whole copies

  ghost predicate WholeQuantities(fields: ListFields) {
    forall e <- fields.entries :: Quantity(e) >= 1.0
  }

  ghost predicate AllWholeQuantities(records: Records) {
    forall fid <- records :: WholeQuantities(records[fid])
  }

  lemma {:induction false} ResolvedWhole(entries: seq<EntryFields>, opts: DropOptions)
    requires forall e <- entries :: Quantity(e) >= 1.0
    ensures forall e <- ResolveEntries(entries, opts) :: e.quantity >= 1.0
  {
    if |entries| > 0 {
      assert entries[0] in entries && forall e <- entries[1..] :: e in entries;
      ResolvedWhole(entries[1..], opts);
    }
  }

  lemma {:induction false} TargetWhole(records: Records, opts: DropOptions, t: Target, path: seq<FormId>, depth: nat)
    requires depth <= opts.maxDepth && AllWholeQuantities(records)
    ensures WholeCopies(TargetProcess(records, opts, t, path, depth))
    decreases opts.maxDepth - depth, 0
  {
    if t.isSublist && t.fid !in path && depth < opts.maxDepth && t.fid in records {
      ListWhole(records, opts, records[t.fid], path + [t.fid], depth + 1);
    }
  }

  /** When every quantity is at least one, whatever drops drops whole. */
  lemma {:induction false} ListWhole(records: Records, opts: DropOptions, fields: ListFields, path: seq<FormId>, depth: nat)
    requires depth <= opts.maxDepth && AllWholeQuantities(records) && WholeQuantities(fields)
    ensures WholeCopies(ListProcess(records, opts, fields, path, depth))
    decreases opts.maxDepth - depth, 1
  {
    var list := ResolveList(fields, opts);
    var ps := EntryProcesses(records, opts, list.entries, path, depth);
    ResolvedWhole(fields.entries, opts);
    ResolveEntriesValid(fields.entries, opts);
    forall i | 0 <= i < |list.entries| ensures WholeCopies(ps[i]) {
      if list.entries[i].target.Some? {
        TargetWhole(records, opts, list.entries[i].target.value, path, depth);
      }
      EntryKeeps(records, opts, list.entries[i], path, depth);
    }
    GatesProbable(list.entries);
    SelectKeeps(list.model, GatesOf(list.entries), ps);
    ThinKeeps(list.factor, Select(list.model, GatesOf(list.entries), ps));
  }
}
