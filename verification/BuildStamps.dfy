/** Whose section a call of the cache protocol is answered with: the one of the plugin as
    the call read it. */
module BuildStamps {
  import opened Wrappers
  import opened Bytes
  import opened SectionFile
  import opened BuildProtocol

  /** A look at the plugin's stamp: by a call on its way to the disk, or by a database when
      it is opened. */
  datatype Glance = ByCall(call: Call, stamp: Stamp) | ByDatabase(cell: CellId, stamp: Stamp)

  /** What one step looks at: a call that enters reads the stamp of that moment. */
  ghost function Looks(s: State, a: Action): set<Glance> {
    match a
    case Advance(call, _) => if call in s.calls && s.calls[call].Entering? then {ByCall(call, s.stamp)} else {}
    case OpenCell(cell) => {ByDatabase(cell, s.stamp)}
    case _ => {}
  }

  /** Everything a run has looked at. */
  ghost function Glances(p: Program, s0: State, actions: seq<Action>): set<Glance> {
    if |actions| == 0 then {}
    else
      var n := |actions| - 1;
      var before := After(p, s0, actions[..n]);
      Glances(p, s0, actions[..n]) + (if before.Some? then Looks(before.value, actions[n]) else {})
  }

  /** The payload was built for that stamp, or is what the file that was there at the start
      holds for it. */
  ghost predicate BuiltFor(p: Program, s0: State, made: set<Made>, kind: SectionKind, stamp: Stamp, payload: Blob) {
    || Made(kind, stamp, payload) in made
    || MapRaw(FileBytes(s0.files, kind), Key(kind, stamp, p.cacheVersion, p.fingerprint(kind)), p.rootLen(kind)) == Some(payload)
  }

  ghost predicate NeverRead(seen: set<Glance>, call: Call) {
    forall t :: ByCall(call, t) !in seen
  }

  /** The call has read the stamp once. */
  ghost predicate ReadOnly(seen: set<Glance>, call: Call, stamp: Stamp) {
    forall t :: ByCall(call, t) in seen <==> t == stamp
  }

  /** The stamp was read by some call on that cell, or when its database was opened. */
  ghost predicate ReadFor(seen: set<Glance>, cell: CellId, stamp: Stamp) {
    ByDatabase(cell, stamp) in seen || exists d: Call :: d.database.Some? && CellOf(d) == cell && ByCall(d, stamp) in seen
  }

  ghost predicate CellTraced(p: Program, s0: State, seen: set<Glance>, made: set<Made>, cell: CellId, payload: Blob) {
    exists t :: ReadFor(seen, cell, t) && BuiltFor(p, s0, made, cell.kind, t, payload)
  }

  ghost predicate OwnTraced(p: Program, s0: State, seen: set<Glance>, made: set<Made>, c: Call, payload: Blob) {
    exists t :: ReadOnly(seen, c, t) && BuiltFor(p, s0, made, c.kind, t, payload)
  }

  ghost predicate CallTraced(p: Program, s0: State, seen: set<Glance>, made: set<Made>, c: Call, phase: Phase) {
    match phase
    case Probing(t) => ReadOnly(seen, c, t)
    case AtLease(t) => ReadOnly(seen, c, t)
    case Rechecking(t) => ReadOnly(seen, c, t)
    case Building(t) => ReadOnly(seen, c, t)
    case Writing(t, _, _) => ReadOnly(seen, c, t)
    case Remapping(t, _) => ReadOnly(seen, c, t)
    case Holding(payload) => OwnTraced(p, s0, seen, made, c, payload)
    case Returned(payload) =>
      || OwnTraced(p, s0, seen, made, c, payload)
      || (NeverRead(seen, c) && c.database.Some? && CellTraced(p, s0, seen, made, CellOf(c), payload))
    case Failed => true
    case Killed => true
    case _ => NeverRead(seen, c)
  }

  /** Nothing is built for a stamp nobody read. */
  ghost predicate MadeTraced(seen: set<Glance>, m: Made) {
    exists c: Call :: c.kind == m.kind && ByCall(c, m.stamp) in seen
  }

  ghost predicate Traced(p: Program, s0: State, seen: set<Glance>, s: State) {
    && (forall c, t :: ByCall(c, t) in seen ==> c in s.calls)
    && (forall c <- s.calls :: CallTraced(p, s0, seen, s.made, c, s.calls[c]))
    && (forall cell <- s.cells :: CellTraced(p, s0, seen, s.made, cell, s.cells[cell]))
    && (forall m <- s.made :: MadeTraced(seen, m))
  }

  /** While a call is past its second look at its cell, nobody fills it. */
  ghost predicate CellsAwait(s: State) {
    forall c <- s.calls :: HoldsBuildLock(c, s.calls[c]) && !s.calls[c].InBuildLock? ==> CellOf(c) !in s.cells
  }

  // ------------------------------------------------------------ a file has one stamp

  /** What maps out of a sound file under a stamp was built for that stamp. */
  lemma MappedBuiltFor(p: Program, s0: State, s: State, kind: SectionKind, stamp: Stamp)
    requires FilesSound(p, s0, s) && Mapped(p, s.files, kind, stamp).Some?
    ensures BuiltFor(p, s0, s.made, kind, stamp, Mapped(p, s.files, kind, stamp).value)
  {
    hide MapRaw, Image;
    MappedIsPresent(p, s.files, kind, stamp);
    var bytes := s.files[kind].bytes;
    if FileBytes(s0.files, kind) != Some(bytes) {
      var m :| m in s.made && m.kind == kind && |m.payload| < U64 && bytes == Image(KeyOf(p, kind, m.stamp), m.payload);
      ImageUnderKey(KeyOf(p, kind, m.stamp), m.payload, KeyOf(p, kind, stamp), p.rootLen(kind));
      assert m == Made(kind, stamp, m.payload);
    }
  }

  lemma MappedIsPresent(p: Program, files: map<SectionKind, File>, kind: SectionKind, stamp: Stamp)
    ensures Mapped(p, files, kind, stamp).Some? ==> kind in files
  {}

  lemma ImageUnderKey(key: Key, payload: Blob, key': Key, rootLen: nat)
    requires |payload| < U64 && MapRaw(Some(Image(key, payload)), key', rootLen).Some?
    ensures key == key' && MapRaw(Some(Image(key, payload)), key', rootLen) == Some(payload)
  {
    var file := Image(key, payload);
    assert file[HEADER_SIZE..] == payload;
    MappedPayload(file, key', rootLen);
    ImageMapsBack(key, payload, 0);
    OneKeyPerFile(file, key, key', 0, rootLen);
  }

  lemma MappedPayload(file: Blob, key: Key, rootLen: nat)
    requires MapRaw(Some(file), key, rootLen).Some?
    ensures |file| >= HEADER_SIZE && |file| < U64 && MapRaw(Some(file), key, rootLen) == Some(file[HEADER_SIZE..])
  {
    hide ParseHeader;
  }

  // -------------------------------------------------------------------- step by step

  lemma BuiltForGrows(p: Program, s0: State, made: set<Made>, made': set<Made>, kind: SectionKind, stamp: Stamp, payload: Blob)
    requires BuiltFor(p, s0, made, kind, stamp, payload) && made <= made'
    ensures BuiltFor(p, s0, made', kind, stamp, payload)
  {
    hide MapRaw;
  }

  lemma CellTraceGrows(p: Program, s0: State, seen: set<Glance>, seen': set<Glance>, made: set<Made>, made': set<Made>,
                       cell: CellId, payload: Blob)
    requires CellTraced(p, s0, seen, made, cell, payload) && seen <= seen' && made <= made'
    ensures CellTraced(p, s0, seen', made', cell, payload)
  {
    hide BuiltFor;
    var t :| ReadFor(seen, cell, t) && BuiltFor(p, s0, made, cell.kind, t, payload);
    BuiltForGrows(p, s0, made, made', cell.kind, t, payload);
    assert ReadFor(seen', cell, t);
  }

  /** What a call that looks at nothing new has been through stays as it is. */
  lemma CallTraceGrows(p: Program, s0: State, seen: set<Glance>, seen': set<Glance>, made: set<Made>, made': set<Made>,
                       c: Call, phase: Phase)
    requires CallTraced(p, s0, seen, made, c, phase) && seen <= seen' && made <= made'
    requires forall t :: ByCall(c, t) in seen' ==> ByCall(c, t) in seen
    ensures CallTraced(p, s0, seen', made', c, phase)
  {
    hide BuiltFor, CellTraced;
    if (phase.Holding? || phase.Returned?) && OwnTraced(p, s0, seen, made, c, phase.payload) {
      var t :| ReadOnly(seen, c, t) && BuiltFor(p, s0, made, c.kind, t, phase.payload);
      BuiltForGrows(p, s0, made, made', c.kind, t, phase.payload);
      assert ReadOnly(seen', c, t);
    } else if phase.Returned? {
      CellTraceGrows(p, s0, seen, seen', made, made', CellOf(c), phase.payload);
    }
  }

  /** The step of the call itself. */
  lemma OwnStepTraced(p: Program, s0: State, seen: set<Glance>, s: State, call: Call, choice: Choice, s': State)
    requires FilesSound(p, s0, s) && Traced(p, s0, seen, s) && CellsAwait(s)
    requires Narrates(p, s, call, choice, s') && OwnLocks(s, call) && s.made <= s'.made
    ensures CallTraced(p, s0, seen + Looks(s, Advance(call, choice)), s'.made, call, s'.calls[call])
  {
    hide FilesSound, BuiltFor, Current, Mapped, CellTraced, OwnTraced;
    var f, seen' := s.calls[call], seen + Looks(s, Advance(call, choice));
    assert CallTraced(p, s0, seen, s.made, call, f);
    match s'.calls[call]
    case Holding(payload) =>
      CurrentIsMapped(p, s.files, call.kind, f.stamp);
      MappedBuiltFor(p, s0, s, call.kind, f.stamp);
      BuiltForGrows(p, s0, s.made, s'.made, call.kind, f.stamp, payload);
      assert seen' == seen;
      OwnTrace(p, s0, seen, s'.made, call, f.stamp, payload);
    case Returned(payload) =>
      if f == Holding(payload) {
        CallTraceGrows(p, s0, seen, seen', s.made, s'.made, call, f);
      } else {
        CellTraceGrows(p, s0, seen, seen', s.made, s'.made, CellOf(call), payload);
      }
    case _ =>
  }

  lemma OwnTrace(p: Program, s0: State, seen: set<Glance>, made: set<Made>, c: Call, stamp: Stamp, payload: Blob)
    requires ReadOnly(seen, c, stamp) && BuiltFor(p, s0, made, c.kind, stamp, payload)
    ensures OwnTraced(p, s0, seen, made, c, payload)
  {
    hide BuiltFor;
  }

  lemma OwnTraceFills(p: Program, s0: State, seen: set<Glance>, made: set<Made>, c: Call, payload: Blob)
    requires OwnTraced(p, s0, seen, made, c, payload) && c.database.Some?
    ensures CellTraced(p, s0, seen, made, CellOf(c), payload)
  {
    hide BuiltFor;
    var t :| ReadOnly(seen, c, t) && BuiltFor(p, s0, made, c.kind, t, payload);
    assert ReadFor(seen, CellOf(c), t);
  }

  lemma AdvanceTraced(p: Program, s0: State, seen: set<Glance>, s: State, call: Call, choice: Choice, s': State)
    requires FilesSound(p, s0, s) && Traced(p, s0, seen, s) && CellsAwait(s) && OwnLocks(s, call) && s.made <= s'.made
    requires LeaseFollows(s, call, s') && OthersKept(s, call, s') && Narrates(p, s, call, choice, s')
    ensures Traced(p, s0, seen + Looks(s, Advance(call, choice)), s')
  {
    hide FilesSound, BuiltFor, Current, Mapped, CellTraced, CallTraced, MadeTraced;
    var seen' := seen + Looks(s, Advance(call, choice));
    forall c <- s'.calls ensures CallTraced(p, s0, seen', s'.made, c, s'.calls[c]) {
      if c == call {
        OwnStepTraced(p, s0, seen, s, call, choice, s');
      } else {
        CallTraceGrows(p, s0, seen, seen', s.made, s'.made, c, s.calls[c]);
      }
    }
    forall cell <- s'.cells ensures CellTraced(p, s0, seen', s'.made, cell, s'.cells[cell]) {
      if cell in s.cells {
        CellTraceGrows(p, s0, seen, seen', s.made, s'.made, cell, s.cells[cell]);
      } else {
        HeldTraced(p, s0, seen, s, call);
        OwnTraceFills(p, s0, seen, s.made, call, s.calls[call].payload);
        CellTraceGrows(p, s0, seen, seen', s.made, s'.made, cell, s'.cells[cell]);
      }
    }
    forall m <- s'.made ensures MadeTraced(seen', m) {
      if m in s.made {
        MadeTraceGrows(seen, seen', m);
      } else {
        BuilderRead(p, s0, seen, s, call, m);
        MadeTraceGrows(seen, seen', m);
      }
    }
  }

  lemma MadeTraceGrows(seen: set<Glance>, seen': set<Glance>, m: Made)
    requires MadeTraced(seen, m) && seen <= seen'
    ensures MadeTraced(seen', m)
  {}

  lemma HeldTraced(p: Program, s0: State, seen: set<Glance>, s: State, call: Call)
    requires Traced(p, s0, seen, s) && call in s.calls && s.calls[call].Holding?
    ensures OwnTraced(p, s0, seen, s.made, call, s.calls[call].payload)
  {
    hide BuiltFor, CellTraced, OwnTraced;
  }

  lemma BuilderRead(p: Program, s0: State, seen: set<Glance>, s: State, call: Call, m: Made)
    requires Traced(p, s0, seen, s) && call in s.calls && s.calls[call].Building?
    requires m.kind == call.kind && m.stamp == s.calls[call].stamp
    ensures MadeTraced(seen, m)
  {
    hide BuiltFor, CellTraced, OwnTraced;
    assert CallTraced(p, s0, seen, s.made, call, s.calls[call]);
    assert ByCall(call, m.stamp) in seen;
  }

  /** Steps that move no call and build nothing. */
  lemma OthersTraced(p: Program, s0: State, seen: set<Glance>, s: State, seen': set<Glance>, s': State)
    requires Traced(p, s0, seen, s) && seen <= seen' && s'.made == s.made && s.calls.Keys <= s'.calls.Keys
    requires forall c, t :: ByCall(c, t) in seen' ==> ByCall(c, t) in seen
    requires forall c <- s'.calls ::
      || (c in s.calls && s'.calls[c] == s.calls[c]) || s'.calls[c].Failed? || s'.calls[c].Killed?
      || (c !in s.calls && (s'.calls[c].AtCell? || s'.calls[c].Entering?))
    requires forall cell <- s'.cells ::
      || (cell in s.cells && s'.cells[cell] == s.cells[cell]) || CellTraced(p, s0, seen', s'.made, cell, s'.cells[cell])
    ensures Traced(p, s0, seen', s')
  {
    hide BuiltFor, CellTraced, CallTraced, MadeTraced;
    forall c <- s'.calls ensures CallTraced(p, s0, seen', s'.made, c, s'.calls[c]) {
      if c in s.calls && s'.calls[c] == s.calls[c] {
        CallTraceGrows(p, s0, seen, seen', s.made, s'.made, c, s.calls[c]);
      } else {
        FreshTraced(p, s0, seen', s'.made, c, s'.calls[c]);
      }
    }
    forall cell <- s'.cells ensures CellTraced(p, s0, seen', s'.made, cell, s'.cells[cell]) {
      if cell in s.cells && s'.cells[cell] == s.cells[cell] {
        CellTraceGrows(p, s0, seen, seen', s.made, s'.made, cell, s.cells[cell]);
      }
    }
    forall m <- s'.made ensures MadeTraced(seen', m) {
      MadeTraceGrows(seen, seen', m);
    }
  }

  lemma FreshTraced(p: Program, s0: State, seen: set<Glance>, made: set<Made>, c: Call, phase: Phase)
    requires phase.Failed? || phase.Killed? || (NeverRead(seen, c) && (phase.AtCell? || phase.Entering?))
    ensures CallTraced(p, s0, seen, made, c, phase)
  {}

  lemma OpenTraced(p: Program, s0: State, seen: set<Glance>, s: State, cell: CellId)
    requires FilesSound(p, s0, s) && Mapped(p, s.files, cell.kind, s.stamp).Some? && ByDatabase(cell, s.stamp) in seen
    ensures CellTraced(p, s0, seen, s.made, cell, Mapped(p, s.files, cell.kind, s.stamp).value)
  {
    hide Mapped, BuiltFor, FilesSound;
    MappedBuiltFor(p, s0, s, cell.kind, s.stamp);
    assert ReadFor(seen, cell, s.stamp);
  }

  lemma StepTraced(p: Program, s0: State, seen: set<Glance>, s: State, a: Action, s': State)
    requires Safe(p, s0, s) && Traced(p, s0, seen, s) && CellsAwait(s) && Step(p, s, a) == Some(s')
    ensures Traced(p, s0, seen + Looks(s, a), s')
  {
    hide LeaseHeld, BuildLocksHeld, CellPhases, TempsMatch, AllArchivable, FilesSound, ResultsGenuine, CallStep, Killing,
      FailStep, Mapped, Current, Surviving, Traced, CellTraced, CellsAwait;
    var seen' := seen + Looks(s, a);
    match a
    case Advance(call, choice) =>
      MadeArchivable(p, s, a, s');
      LocksAreOwn(s, call);
      CallFollows(p, s, call, choice, s');
      AdvanceTraced(p, s0, seen, s, call, choice, s');
    case Fail(call) =>
      FailKeeps(s, call);
      OthersTraced(p, s0, seen, s, seen', s');
    case Crash(process) =>
      KillingKeeps(s, CallsOf(s, process));
      OthersTraced(p, s0, seen, s, seen', s');
    case PowerLoss(garbage) =>
      KillingKeeps(s, s.calls.Keys);
      OthersTraced(p, s0, seen, s, seen', s');
    case OpenCell(cell) =>
      if Mapped(p, s.files, cell.kind, s.stamp).Some? {
        OpenTraced(p, s0, seen', s, cell);
      }
      OthersTraced(p, s0, seen, s, seen', s');
    case _ => OthersTraced(p, s0, seen, s, seen', s');
  }

  lemma FailKeeps(s: State, call: Call)
    requires call in s.calls
    ensures var s' := FailStep(s, call, s.calls[call]);
      s'.calls == s.calls[call := Failed] && s'.cells == s.cells && s'.made == s.made
  {}

  lemma KillingKeeps(s: State, dead: set<Call>)
    ensures var s' := Killing(s, dead);
      && s'.calls.Keys == s.calls.Keys && s'.cells == s.cells && s'.made == s.made
      && forall c <- s'.calls :: s'.calls[c] == s.calls[c] || s'.calls[c] == Killed
  {}

  // -------------------------------------------------------------------- cells await

  lemma AdvanceAwaits(p: Program, s: State, call: Call, choice: Choice, s': State)
    requires CellsAwait(s) && BuildLocksHeld(s) && CellPhases(s)
    requires LeaseFollows(s, call, s') && BuildLockFollows(s, call, s') && OthersKept(s, call, s') && Narrates(p, s, call, choice, s')
    ensures CellsAwait(s')
  {
    hide Current, Mapped, LeaseHeld;
    forall c <- s'.calls | HoldsBuildLock(c, s'.calls[c]) && !s'.calls[c].InBuildLock? ensures CellOf(c) !in s'.cells {
      if c == call {
        assert s'.cells == s.cells;
        assert !s.calls[c].InBuildLock? ==> HoldsBuildLock(c, s.calls[c]);
      } else {
        assert s'.calls[c] == s.calls[c];
        assert CellOf(c) in s.buildLocks && s.buildLocks[CellOf(c)] == c;
      }
    }
  }

  lemma StepAwaits(p: Program, s: State, a: Action, s': State)
    requires LeaseHeld(s) && BuildLocksHeld(s) && CellPhases(s) && CellsAwait(s) && Step(p, s, a) == Some(s')
    ensures CellsAwait(s')
  {
    hide LeaseHeld, BuildLocksHeld, CellPhases, CallStep, Killing, FailStep, Mapped, Surviving;
    match a
    case Advance(call, choice) =>
      LocksAreOwn(s, call);
      CallFollows(p, s, call, choice, s');
      AdvanceAwaits(p, s, call, choice, s');
    case Fail(call) => FailKeeps(s, call);
    case Crash(process) => KillingKeeps(s, CallsOf(s, process));
    case PowerLoss(garbage) => KillingKeeps(s, s.calls.Keys);
    case _ =>
  }

  // ---------------------------------------------------------------------- over runs

  lemma {:induction false} RunsAreTraced(p: Program, s0: State, actions: seq<Action>)
    requires Initial(s0) && After(p, s0, actions).Some?
    ensures var s := After(p, s0, actions).value; CellsAwait(s) && Traced(p, s0, Glances(p, s0, actions), s)
  {
    hide Safe, Step, Traced, CellsAwait, Initial;
    var n := |actions| - 1;
    if n < 0 {
      StartsTraced(p, s0);
    } else {
      RunsAreTraced(p, s0, actions[..n]);
      RunsAreSafe(p, s0, actions[..n]);
      var s := After(p, s0, actions[..n]).value;
      StepTraced(p, s0, Glances(p, s0, actions[..n]), s, actions[n], After(p, s0, actions).value);
      SafeLocks(p, s0, s);
      StepAwaits(p, s, actions[n], After(p, s0, actions).value);
    }
  }

  lemma SafeLocks(p: Program, s0: State, s: State)
    requires Safe(p, s0, s)
    ensures LeaseHeld(s) && BuildLocksHeld(s) && CellPhases(s) && FilesSound(p, s0, s)
  {}

  lemma StartsTraced(p: Program, s0: State)
    requires Initial(s0)
    ensures CellsAwait(s0) && Traced(p, s0, {}, s0)
  {}

  /** A call that has the section in hand has read the plugin's stamp once, and what it
      holds was built for that stamp, or was already on disk for it. */
  lemma HeldForItsStamp(p: Program, s0: State, actions: seq<Action>, call: Call) returns (t: Stamp)
    requires Initial(s0) && After(p, s0, actions).Some?
    requires var s := After(p, s0, actions).value; call in s.calls && s.calls[call].Holding?
    ensures ReadOnly(Glances(p, s0, actions), call, t)
    ensures var s := After(p, s0, actions).value; BuiltFor(p, s0, s.made, call.kind, t, s.calls[call].payload)
  {
    hide After, Glances, Initial, CellTraced, BuiltFor, ReadOnly, CellsAwait;
    RunsAreTraced(p, s0, actions);
    var s := After(p, s0, actions).value;
    assert CallTraced(p, s0, Glances(p, s0, actions), s.made, call, s.calls[call]);
    t :| ReadOnly(Glances(p, s0, actions), call, t) && BuiltFor(p, s0, s.made, call.kind, t, s.calls[call].payload);
  }

  /** A call that read the stamp returns a section for that stamp. One that never did was
      answered by its cell, with a section for the stamp that was read when the cell was
      filled: by another call on it, or when the database was opened. */
  lemma ReturnsForItsStamp(p: Program, s0: State, actions: seq<Action>, call: Call)
    requires Initial(s0) && After(p, s0, actions).Some?
    requires var s := After(p, s0, actions).value; call in s.calls && s.calls[call].Returned?
    ensures var s, seen := After(p, s0, actions).value, Glances(p, s0, actions);
      && (forall t | ByCall(call, t) in seen :: BuiltFor(p, s0, s.made, call.kind, t, s.calls[call].payload))
      && ((forall t :: ByCall(call, t) !in seen) ==>
            call.database.Some? &&
            exists t :: ReadFor(seen, CellOf(call), t) && BuiltFor(p, s0, s.made, call.kind, t, s.calls[call].payload))
  {
    hide After, Glances, Initial, BuiltFor, ReadFor, CellsAwait;
    RunsAreTraced(p, s0, actions);
    var s, seen := After(p, s0, actions).value, Glances(p, s0, actions);
    assert CallTraced(p, s0, seen, s.made, call, s.calls[call]);
    if OwnTraced(p, s0, seen, s.made, call, s.calls[call].payload) {
      var t :| ReadOnly(seen, call, t) && BuiltFor(p, s0, s.made, call.kind, t, s.calls[call].payload);
      assert ByCall(call, t) in seen;
    }
  }

  /** A lazy cell holds a section for a stamp that was read for that cell. */
  lemma CellsForTheirStamp(p: Program, s0: State, actions: seq<Action>, cell: CellId)
    requires Initial(s0) && After(p, s0, actions).Some? && cell in After(p, s0, actions).value.cells
    ensures var s := After(p, s0, actions).value;
      exists t :: ReadFor(Glances(p, s0, actions), cell, t) && BuiltFor(p, s0, s.made, cell.kind, t, s.cells[cell])
  {
    hide After, Glances, Initial, BuiltFor, ReadFor, CellsAwait, CallTraced;
    RunsAreTraced(p, s0, actions);
    var s := After(p, s0, actions).value;
    assert CellTraced(p, s0, Glances(p, s0, actions), s.made, cell, s.cells[cell]);
  }

  /** Sections are only built for stamps that some call asking for that section read. */
  lemma BuiltForReadStamps(p: Program, s0: State, actions: seq<Action>, m: Made)
    requires Initial(s0) && After(p, s0, actions).Some? && m in After(p, s0, actions).value.made
    ensures exists c: Call :: c.kind == m.kind && ByCall(c, m.stamp) in Glances(p, s0, actions)
  {
    hide After, Glances, Initial, CellTraced, CallTraced, CellsAwait;
    RunsAreTraced(p, s0, actions);
    assert MadeTraced(Glances(p, s0, actions), m);
  }

  // ---------------------------------------------------------------- accepted content

  /** The sections that record what else they were built from: those are checked. */
  ghost predicate HasContentCheck(kind: SectionKind) {
    kind !in {Edid, Search, Xref}
  }

  ghost predicate CallChecked(p: Program, started: seq<Call>, c: Call, phase: Phase) {
    && (c.database.Some? ==> !HasContentCheck(c.kind))
    && (phase.Building? || phase.Writing? || phase.Remapping? ==> c in started)
    && (phase.Holding? || phase.Returned? ==> !HasContentCheck(c.kind) || c in started || p.accepts(c.kind, phase.payload))
  }

  ghost predicate Checked(p: Program, s: State) {
    forall c <- s.calls :: CallChecked(p, s.started, c, s.calls[c])
  }

  lemma OwnStepChecked(p: Program, s: State, call: Call, choice: Choice, s': State)
    requires call in s.calls && CallChecked(p, s.started, call, s.calls[call])
    requires OthersKept(s, call, s') && Narrates(p, s, call, choice, s')
    ensures CallChecked(p, s'.started, call, s'.calls[call])
  {
    hide Current, Mapped;
    FoundIsAccepted(p, s, call);
  }

  lemma FoundIsAccepted(p: Program, s: State, call: Call)
    requires call in s.calls
    ensures s.calls[call].Probing? || s.calls[call].Rechecking? ==>
      var found := Current(p, s.files, call.kind, s.calls[call].stamp);
      found.Some? && HasContentCheck(call.kind) ==> p.accepts(call.kind, found.value)
  {
    hide Mapped;
  }

  lemma CheckGrows(p: Program, started: seq<Call>, more: seq<Call>, c: Call, phase: Phase)
    requires CallChecked(p, started, c, phase)
    ensures CallChecked(p, started + more, c, phase)
  {}

  lemma AdvanceChecked(p: Program, s: State, call: Call, choice: Choice, s': State)
    requires Checked(p, s) && LeaseFollows(s, call, s') && OthersKept(s, call, s') && Narrates(p, s, call, choice, s')
    ensures Checked(p, s')
  {
    hide Current, Mapped, CallChecked;
    var more := s'.started[|s.started|..];
    assert s'.started == s.started + more;
    forall c <- s'.calls ensures CallChecked(p, s'.started, c, s'.calls[c]) {
      if c == call {
        OwnStepChecked(p, s, call, choice, s');
      } else {
        CheckGrows(p, s.started, more, c, s.calls[c]);
      }
    }
  }

  lemma StepChecked(p: Program, s: State, a: Action, s': State)
    requires LeaseHeld(s) && BuildLocksHeld(s) && Checked(p, s) && Step(p, s, a) == Some(s')
    ensures Checked(p, s')
  {
    hide LeaseHeld, BuildLocksHeld, CallStep, Killing, FailStep, Mapped, Surviving;
    match a
    case Advance(call, choice) =>
      LocksAreOwn(s, call);
      CallFollows(p, s, call, choice, s');
      AdvanceChecked(p, s, call, choice, s');
    case Fail(call) => FailStarts(s, call);
    case Crash(process) => KillingStarts(s, CallsOf(s, process));
    case PowerLoss(garbage) => KillingStarts(s, s.calls.Keys);
    case _ =>
  }

  lemma FailStarts(s: State, call: Call)
    requires call in s.calls
    ensures var s' := FailStep(s, call, s.calls[call]); s'.calls == s.calls[call := Failed] && s'.started == s.started
  {}

  lemma KillingStarts(s: State, dead: set<Call>)
    ensures var s' := Killing(s, dead);
      && s'.calls.Keys == s.calls.Keys && s'.started == s.started
      && forall c <- s'.calls :: s'.calls[c] == s.calls[c] || s'.calls[c] == Killed
  {}

  lemma {:induction false} RunsAreChecked(p: Program, s0: State, actions: seq<Action>)
    requires Initial(s0) && After(p, s0, actions).Some?
    ensures Checked(p, After(p, s0, actions).value)
  {
    hide Safe, Step, Initial;
    var n := |actions| - 1;
    if n < 0 {
      InitialIsIdle(s0);
    } else {
      RunsAreChecked(p, s0, actions[..n]);
      RunsAreSafe(p, s0, actions[..n]);
      var s := After(p, s0, actions[..n]).value;
      SafeLocks(p, s0, s);
      hide Checked;
      StepChecked(p, s, actions[n], After(p, s0, actions).value);
    }
  }

  lemma InitialIsIdle(s0: State)
    requires Initial(s0)
    ensures s0.calls == map[]
  {}

  /** A section of one of the four kinds that record their sources is returned only if its
      content was accepted, or by the call that built it. */
  lemma ReturnsAccepted(p: Program, s0: State, actions: seq<Action>, call: Call)
    requires Initial(s0) && After(p, s0, actions).Some?
    requires var s := After(p, s0, actions).value;
      call in s.calls && s.calls[call].Returned? && call.kind in {Tree, Forms, Strings, Curves} && call !in s.started
    ensures p.accepts(call.kind, After(p, s0, actions).value.calls[call].payload)
  {
    hide After, Initial;
    RunsAreChecked(p, s0, actions);
    assert CallChecked(p, After(p, s0, actions).value.started, call, After(p, s0, actions).value.calls[call]);
  }

  /** What a power loss is taken to do: every call dies and every lock is free; of what was
      not forced to disk anything at all may be left, under the published names, as far as
      they had settled, as under the temporary ones. */
  lemma PowerLossIsFree(p: Program, s: State, garbage: Blob, kind: SectionKind, c: Call)
    requires LeaseHeld(s) && BuildLocksHeld(s)
    ensures Step(p, s, PowerLoss(garbage)).Some?
    ensures var s' := Step(p, s, PowerLoss(garbage)).value;
      && (forall d <- s'.calls :: !Live(s'.calls[d])) && s'.lease.None? && s'.buildLocks == map[] && s'.cells == map[]
      && FileBytes(s'.files, kind) == (if kind !in s.settled then None
                                       else if s.settled[kind].synced then Some(s.settled[kind].bytes) else Some(garbage))
      && (c in s.temps ==> c in s'.temps && s'.temps[c].bytes == if s.temps[c].synced then s.temps[c].bytes else garbage)
  {
    hide Mapped;
    var k := Killing(s, s.calls.Keys);
    assert forall cell <- s.buildLocks :: s.buildLocks[cell] in s.calls.Keys;
    assert k.buildLocks == map[];
  }

  /** What else the surroundings are taken to do: the plugin gets another stamp, a section is
      deleted, or what is published reaches the disk; each is possible at any moment and
      touches nothing else. */
  lemma SurroundingsAreFree(p: Program, s: State, stamp: Stamp, kind: SectionKind)
    ensures Step(p, s, Restamp(stamp)) == Some(s.(stamp := stamp))
    ensures var s' := Step(p, s, Clear(kind));
      s'.Some? && s'.value == s.(files := s'.value.files) && kind !in s'.value.files
      && forall k | k != kind :: FileBytes(s'.value.files, k) == FileBytes(s.files, k)
    ensures var s' := Step(p, s, Settle(kind));
      s'.Some? && s'.value == s.(settled := s'.value.settled)
      && forall k :: FileBytes(s'.value.settled, k) == FileBytes(if k == kind then s.files else s.settled, k)
  {}

  /** A crash of one process ends its calls, frees what they held and forgets its cells,
      and leaves everything on disk, unfinished files too. */
  lemma CrashLeavesTheDisk(p: Program, s: State, process: nat)
    ensures Step(p, s, Crash(process)).Some?
    ensures var s' := Step(p, s, Crash(process)).value;
      && s'.files == s.files && s'.settled == s.settled && s'.temps == s.temps && s'.calls.Keys == s.calls.Keys
      && (forall c <- s.calls :: if c.process != process then s'.calls[c] == s.calls[c] else !Live(s'.calls[c]))
      && (forall cell :: cell in s'.cells <==> cell in s.cells && cell.process != process)
      && (s.lease.Some? && s.lease.value in s.calls ==> s'.lease == if s.lease.value.process == process then None else s.lease)
  {}

  /** An error ends the call and frees what it held. Its temporary file is removed, unless it
      was complete and only the rename failed. */
  lemma ErrorCleansUp(p: Program, s: State, call: Call)
    requires call in s.calls && Live(s.calls[call])
    ensures Step(p, s, Action.Fail(call)).Some?
    ensures var s' := Step(p, s, Action.Fail(call)).value;
      && s'.calls == s.calls[call := Failed] && s'.files == s.files && s'.cells == s.cells && s'.lease != Some(call)
      && (s.calls[call].Writing? && !s.calls[call].stage.AllSynced? ==> s'.temps == s.temps - {call})
      && (s.calls[call].Writing? && s.calls[call].stage.AllSynced? ==> s'.temps == s.temps)
  {}
}
