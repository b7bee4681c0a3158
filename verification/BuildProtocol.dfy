/** The build-once protocol of the section cache as a transition system: any number of
    processes and calls, one lock per plugin across processes, one lazy cell per open
    database, and failures, crashes and power loss at any step. */
module BuildProtocol {
  import opened Wrappers
  import opened Bytes
  import opened SectionFile

  /** One call that needs a section: in which process, through which open database's
      lazy cell (or directly), and of which kind. */
  datatype Call = Call(process: nat, database: Option<nat>, kind: SectionKind, serial: nat)

  datatype CellId = CellId(process: nat, database: nat, kind: SectionKind)

  /** How far the temporary file has got. */
  datatype Stage = Placeholder | Streaming(written: nat) | Synced | Headed | AllSynced

  datatype Phase =
    | AtCell
    | AtBuildLock
    | InBuildLock
    | Entering
    | Probing(stamp: Stamp)
    | AtLease(stamp: Stamp)
    | Rechecking(stamp: Stamp)
    | Building(stamp: Stamp)
    | Writing(stamp: Stamp, payload: Blob, stage: Stage)
    | Remapping(stamp: Stamp, payload: Blob)
    | Holding(payload: Blob)
    | Returned(payload: Blob)
    | Failed
    | Killed

  /** A file's bytes, and whether they have been forced to disk. */
  datatype File = File(bytes: Blob, synced: bool)

  /** A payload that was built for a stamp. */
  datatype Made = Made(kind: SectionKind, stamp: Stamp, payload: Blob)

  /** The fixed parts of one build of the program. */
  datatype Program = Program(
    cacheVersion: u32,
    fingerprint: SectionKind -> u64,
    rootLen: SectionKind -> nat,
    accepts: (SectionKind, Blob) -> bool)

  /** `settled` is what a power loss would leave of `files`. The history records which
      calls set out to build, and what was built. */
  datatype State = State(
    stamp: Stamp,
    files: map<SectionKind, File>,
    settled: map<SectionKind, File>,
    temps: map<Call, File>,
    lease: Option<Call>,
    buildLocks: map<CellId, Call>,
    cells: map<CellId, Blob>,
    calls: map<Call, Phase>,
    started: seq<Call>,
    made: set<Made>)

  /** What the scheduler and the environment decide about one step. */
  datatype Choice = Go | Produce(payload: Blob) | WriteUpTo(n: nat)

  datatype Action =
    | Begin(call: Call)
    | Advance(call: Call, choice: Choice)
    | Fail(call: Call)
    | Crash(process: nat)
    | PowerLoss(garbage: Blob)
    | Settle(kind: SectionKind)
    | Restamp(stamp: Stamp)
    | Clear(kind: SectionKind)
    | OpenCell(cell: CellId)

  // ------------------------------------------------------------------ what a call sees

  /** The sections built on first use; the others are asked for directly. */
  predicate Lazy(kind: SectionKind) {
    kind.Edid? || kind.Search? || kind.Xref?
  }

  function KeyOf(p: Program, kind: SectionKind, stamp: Stamp): Key {
    Key(kind, stamp, p.cacheVersion, p.fingerprint(kind))
  }

  function FileBytes(files: map<SectionKind, File>, kind: SectionKind): Option<Blob> {
    if kind in files then Some(files[kind].bytes) else None
  }

  /** The section found on disk under a stamp, if it is valid. */
  function Mapped(p: Program, files: map<SectionKind, File>, kind: SectionKind, stamp: Stamp): Option<Blob> {
    MapRaw(FileBytes(files, kind), KeyOf(p, kind, stamp), p.rootLen(kind))
  }

  predicate IsCurrent(p: Program, kind: SectionKind, payload: Blob) {
    Lazy(kind) || p.accepts(kind, payload)
  }

  /** The section found on disk, when its content is accepted too. */
  function Current(p: Program, files: map<SectionKind, File>, kind: SectionKind, stamp: Stamp): Option<Blob> {
    var mapped := Mapped(p, files, kind, stamp);
    if mapped.Some? && IsCurrent(p, kind, mapped.value) then mapped else None
  }

  function CellOf(call: Call): CellId
    requires call.database.Some?
  {
    CellId(call.process, call.database.value, call.kind)
  }

  /** A payload the serializer can have produced: it holds its root, and its file
      length fits. */
  predicate Archivable(p: Program, kind: SectionKind, payload: Blob) {
    p.rootLen(kind) <= |payload| && |payload| + HEADER_SIZE < U64
  }

  predicate HoldsLease(phase: Phase) {
    phase.Rechecking? || phase.Building? || phase.Writing? || phase.Remapping?
  }

  predicate HoldsBuildLock(call: Call, phase: Phase) {
    call.database.Some?
    && (phase.InBuildLock? || phase.Entering? || phase.Probing? || phase.AtLease? || HoldsLease(phase) || phase.Holding?)
  }

  predicate Live(phase: Phase) {
    !phase.Returned? && !phase.Failed? && !phase.Killed?
  }

  // --------------------------------------------------------------------- transitions

  function Moved(s: State, call: Call, phase: Phase): State {
    s.(calls := s.calls[call := phase])
  }

  /** The call lets go of everything it holds and ends in `phase`. */
  function Ended(s: State, call: Call, phase: Phase): State {
    s.(
      calls := s.calls[call := phase],
      lease := if s.lease == Some(call) then None else s.lease,
      buildLocks := if call.database.Some? && CellOf(call) in s.buildLocks && s.buildLocks[CellOf(call)] == call
                    then s.buildLocks - {CellOf(call)} else s.buildLocks)
  }

  /** From the look at the cell to waiting for the plugin's lock. */
  function EnterStep(p: Program, s: State, call: Call, phase: Phase): Option<State> {
    match phase
    case AtCell =>
      if call.database.None? then None
      else if CellOf(call) in s.cells then Some(Moved(s, call, Returned(s.cells[CellOf(call)])))
      else Some(Moved(s, call, AtBuildLock))
    case AtBuildLock =>
      if call.database.None? || CellOf(call) in s.buildLocks then None
      else Some(s.(calls := s.calls[call := InBuildLock], buildLocks := s.buildLocks[CellOf(call) := call]))
    case InBuildLock =>
      if call.database.None? then None
      else if CellOf(call) in s.cells then Some(Ended(s, call, Returned(s.cells[CellOf(call)])))
      else Some(Moved(s, call, Entering))
    case Entering => Some(Moved(s, call, Probing(s.stamp)))
    case Probing(stamp) =>
      var found := Current(p, s.files, call.kind, stamp);
      Some(Moved(s, call, if found.Some? then Holding(found.value) else AtLease(stamp)))
    case AtLease(stamp) =>
      if s.lease.Some? then None else Some(s.(calls := s.calls[call := Rechecking(stamp)], lease := Some(call)))
    case _ => None
  }

  /** From the second look under the lock to the section in hand. */
  function BuildStep(p: Program, s: State, call: Call, phase: Phase, choice: Choice): Option<State> {
    match phase
    case Rechecking(stamp) =>
      var found := Current(p, s.files, call.kind, stamp);
      if found.Some? then Some(s.(calls := s.calls[call := Holding(found.value)], lease := None))
      else Some(s.(calls := s.calls[call := Building(stamp)], started := s.started + [call]))
    case Building(stamp) =>
      if !choice.Produce? || !Archivable(p, call.kind, choice.payload) then None
      else Some(s.(calls := s.calls[call := Writing(stamp, choice.payload, Placeholder)],
                   temps := s.temps[call := File(ZeroHeader(), false)],
                   made := s.made + {Made(call.kind, stamp, choice.payload)}))
    case Remapping(stamp, _) =>
      var found := Mapped(p, s.files, call.kind, stamp);
      if found.Some? then Some(s.(calls := s.calls[call := Holding(found.value)], lease := None))
      else Some(Ended(s, call, Failed))
    case Holding(payload) =>
      if call.database.None? then Some(Moved(s, call, Returned(payload)))
      else if CellOf(call) in s.cells then Some(Ended(s, call, Returned(s.cells[CellOf(call)])))
      else Some(Ended(s, call, Returned(payload)).(cells := s.cells[CellOf(call) := payload]))
    case _ => None
  }

  /** One step of the write sequence into the call's own temporary file. */
  function WriteStep(p: Program, s: State, call: Call, phase: Phase, choice: Choice): Option<State> {
    if !phase.Writing? || call !in s.temps || |phase.payload| >= U64 then None
    else
      var temp := s.temps[call];
      match phase.stage
      case Placeholder => Some(Moved(s, call, phase.(stage := Streaming(0))))
      case Streaming(written) =>
        if written < |phase.payload| then
          if choice.WriteUpTo? && written <= choice.n <= |phase.payload|
          then Some(s.(calls := s.calls[call := phase.(stage := Streaming(choice.n))],
                       temps := s.temps[call := File(temp.bytes + phase.payload[written..choice.n], false)]))
          else None
        else
          Some(s.(calls := s.calls[call := phase.(stage := Synced)], temps := s.temps[call := temp.(synced := true)]))
      case Synced =>
        if |temp.bytes| < HEADER_SIZE then None
        else
          var header := BuildHeader(KeyOf(p, call.kind, phase.stamp), |phase.payload|);
          Some(s.(calls := s.calls[call := phase.(stage := Headed)],
                  temps := s.temps[call := File(header + temp.bytes[HEADER_SIZE..], false)]))
      case Headed =>
        Some(s.(calls := s.calls[call := phase.(stage := AllSynced)], temps := s.temps[call := temp.(synced := true)]))
      case AllSynced =>
        Some(s.(calls := s.calls[call := Remapping(phase.stamp, phase.payload)],
                temps := s.temps - {call}, files := s.files[call.kind := temp]))
  }

  /** The next step of a call. */
  function CallStep(p: Program, s: State, call: Call, phase: Phase, choice: Choice): Option<State> {
    if phase.Writing? then WriteStep(p, s, call, phase, choice)
    else if HoldsLease(phase) || phase.Holding? then BuildStep(p, s, call, phase, choice)
    else EnterStep(p, s, call, phase)
  }

  /** An error propagates out of the call: its temporary file is removed unless it was
      the rename that failed. */
  function FailStep(s: State, call: Call, phase: Phase): State {
    var cleaned := if phase.Writing? && !phase.stage.AllSynced? then s.temps - {call} else s.temps;
    Ended(s, call, Failed).(temps := cleaned)
  }

  /** The operating system takes back everything dead calls held; their temporary files
      stay behind. */
  function Killing(s: State, dead: set<Call>): State {
    s.(lease := if s.lease.Some? && s.lease.value in dead then None else s.lease,
       buildLocks := map c | c in s.buildLocks && s.buildLocks[c] !in dead :: s.buildLocks[c],
       calls := map c | c in s.calls :: if c in dead && Live(s.calls[c]) then Killed else s.calls[c])
  }

  function CallsOf(s: State, process: nat): set<Call> {
    set c | c in s.calls && c.process == process
  }

  /** What of a file is on disk: all of it once forced there, else anything. */
  function Surviving(f: File, garbage: Blob): File {
    if f.synced then f else File(garbage, true)
  }

  function Step(p: Program, s: State, a: Action): Option<State> {
    match a
    case Begin(call) =>
      if call in s.calls || (call.database.Some? && !Lazy(call.kind)) then None
      else Some(Moved(s, call, if call.database.Some? then AtCell else Entering))
    case Advance(call, choice) =>
      if call in s.calls then CallStep(p, s, call, s.calls[call], choice) else None
    case Fail(call) =>
      if call in s.calls && Live(s.calls[call]) then Some(FailStep(s, call, s.calls[call])) else None
    case Crash(process) =>
      Some(Killing(s, CallsOf(s, process)).(cells := map c | c in s.cells && c.process != process :: s.cells[c]))
    case PowerLoss(garbage) =>
      var surviving := map kind | kind in s.settled :: Surviving(s.settled[kind], garbage);
      Some(Killing(s, s.calls.Keys).(
             cells := map[],
             files := surviving,
             settled := surviving,
             temps := map c | c in s.temps :: Surviving(s.temps[c], garbage)))
    case Settle(kind) =>
      Some(s.(settled := if kind in s.files then s.settled[kind := s.files[kind]] else s.settled - {kind}))
    case Restamp(stamp) => Some(s.(stamp := stamp))
    case Clear(kind) => Some(s.(files := s.files - {kind}))
    case OpenCell(cell) =>
      var found := Mapped(p, s.files, cell.kind, s.stamp);
      if cell in s.cells || !Lazy(cell.kind) || (exists c :: c in s.calls && c.database.Some? && CellOf(c) == cell) then None
      else Some(if found.Some? then s.(cells := s.cells[cell := found.value]) else s)
  }

  // ------------------------------------------------------------------------------ runs

  /** Nothing is running; whatever is on disk is on disk. */
  predicate Initial(s: State) {
    && s.calls == map[] && s.lease.None? && s.buildLocks == map[] && s.cells == map[] && s.temps == map[]
    && s.settled == s.files && (forall kind <- s.files :: s.files[kind].synced)
    && s.started == [] && s.made == {}
  }

  /** The state after the actions, if every one of them was possible. */
  function After(p: Program, s: State, actions: seq<Action>): Option<State> {
    if |actions| == 0 then Some(s)
    else
      var n := |actions| - 1;
      var before := After(p, s, actions[..n]);
      if before.None? then None else Step(p, before.value, actions[n])
  }

  // ------------------------------------------------------------------------ invariants

  /** At most one call is between taking and giving up the plugin's lock. */
  ghost predicate LeaseHeld(s: State) {
    && (s.lease.Some? ==> s.lease.value in s.calls)
    && (forall c <- s.calls :: HoldsLease(s.calls[c]) <==> s.lease == Some(c))
  }

  /** At most one call per lazy cell is inside its build lock. */
  ghost predicate BuildLocksHeld(s: State) {
    && (forall cell <- s.buildLocks :: s.buildLocks[cell] in s.calls && s.buildLocks[cell].database.Some?
                                       && CellOf(s.buildLocks[cell]) == cell)
    && (forall c <- s.calls :: HoldsBuildLock(c, s.calls[c])
          <==> c.database.Some? && CellOf(c) in s.buildLocks && s.buildLocks[CellOf(c)] == c)
  }

  /** The temporary file matches the stage its writer has reached. */
  ghost predicate TempMatches(p: Program, call: Call, phase: Phase, temp: File)
    requires phase.Writing? && |phase.payload| < U64
  {
    match phase.stage
    case Placeholder => temp.bytes == ZeroHeader()
    case Streaming(written) => written <= |phase.payload| && temp.bytes == ZeroHeader() + phase.payload[..written]
    case Synced => temp.bytes == ZeroHeader() + phase.payload && temp.synced
    case Headed => temp.bytes == Image(KeyOf(p, call.kind, phase.stamp), phase.payload)
    case AllSynced => temp.bytes == Image(KeyOf(p, call.kind, phase.stamp), phase.payload) && temp.synced
  }

  /** Only calls through a database look at cells. */
  ghost predicate CellPhases(s: State) {
    forall c <- s.calls :: s.calls[c].AtCell? || s.calls[c].AtBuildLock? || s.calls[c].InBuildLock? ==> c.database.Some?
  }

  ghost predicate TempsMatch(p: Program, s: State) {
    forall c <- s.calls :: s.calls[c].Writing? ==>
      && |s.calls[c].payload| < U64 && Made(c.kind, s.calls[c].stamp, s.calls[c].payload) in s.made
      && c in s.temps && TempMatches(p, c, s.calls[c], s.temps[c])
  }

  ghost predicate AllArchivable(p: Program, s: State) {
    forall m <- s.made :: Archivable(p, m.kind, m.payload)
  }

  /** The file was there at the start, or is a finished section somebody built. */
  ghost predicate Sound(p: Program, s0: State, made: set<Made>, kind: SectionKind, f: File) {
    f.synced && (FileBytes(s0.files, kind) == Some(f.bytes) || IsMade(p, made, kind, f.bytes))
  }

  ghost predicate IsMade(p: Program, made: set<Made>, kind: SectionKind, bytes: Blob) {
    exists m <- made :: m.kind == kind && |m.payload| < U64 && bytes == Image(KeyOf(p, kind, m.stamp), m.payload)
  }

  ghost predicate FilesSound(p: Program, s0: State, s: State) {
    && (forall kind <- s.files :: Sound(p, s0, s.made, kind, s.files[kind]))
    && (forall kind <- s.settled :: Sound(p, s0, s.made, kind, s.settled[kind]))
  }

  /** The payload was built by somebody, or was a valid section from the start. */
  ghost predicate Genuine(p: Program, s0: State, made: set<Made>, kind: SectionKind, payload: Blob) {
    (exists m <- made :: m.kind == kind && m.payload == payload)
    || (exists stamp :: Mapped(p, s0.files, kind, stamp) == Some(payload))
  }

  ghost predicate ResultsGenuine(p: Program, s0: State, s: State) {
    && (forall c <- s.calls :: s.calls[c].Holding? || s.calls[c].Returned? ==>
          Genuine(p, s0, s.made, c.kind, s.calls[c].payload))
    && (forall cell <- s.cells :: Genuine(p, s0, s.made, cell.kind, s.cells[cell]))
  }

  // ------------------------------------------------------ what one step of a call does

  /** The plugin's lock follows the call's phase. */
  ghost predicate LeaseFollows(s: State, call: Call, s': State) {
    && call in s.calls && call in s'.calls && s'.calls == s.calls[call := s'.calls[call]]
    && (if HoldsLease(s'.calls[call]) then s'.lease == Some(call) && (s.lease.None? || s.lease == Some(call))
        else s'.lease == if s.lease == Some(call) then None else s.lease)
  }

  /** So does the build lock of its cell. */
  ghost predicate BuildLockFollows(s: State, call: Call, s': State) {
    && call in s.calls && call in s'.calls && s'.calls == s.calls[call := s'.calls[call]]
    && (if call.database.None? then s'.buildLocks == s.buildLocks
        else if HoldsBuildLock(call, s'.calls[call]) then
          s'.buildLocks == s.buildLocks[CellOf(call) := call]
          && (CellOf(call) in s.buildLocks ==> s.buildLocks[CellOf(call)] == call)
        else
          s'.buildLocks == if CellOf(call) in s.buildLocks && s.buildLocks[CellOf(call)] == call
                           then s.buildLocks - {CellOf(call)} else s.buildLocks)
  }

  ghost predicate Renames(s: State, call: Call, s': State) {
    && call in s.calls && call in s'.calls && call in s.temps
    && s.calls[call].Writing? && s.calls[call].stage.AllSynced? && s'.calls[call].Remapping?
  }

  /** Everything else a step may touch: the call's own temporary file, its cell, the
      section it renames into place, and the history. */
  ghost predicate OthersKept(s: State, call: Call, s': State) {
    && call in s.calls && call in s'.calls && s'.stamp == s.stamp && s'.settled == s.settled
    && (s'.made == s.made
        || (s.calls[call].Building? && s'.calls[call].Writing?
            && s'.made == s.made + {Made(call.kind, s.calls[call].stamp, s'.calls[call].payload)}))
    && (s'.calls[call].Writing? ==>
          s.calls[call].Building? || (s.calls[call].Writing? && !s.calls[call].stage.AllSynced?))
    && s'.temps - {call} == s.temps - {call}
    && (s'.cells == s.cells
        || (call.database.Some? && s.calls[call].Holding? && CellOf(call) !in s.cells
            && s'.cells == s.cells[CellOf(call) := s.calls[call].payload]))
    && s'.files == (if Renames(s, call, s') then s.files[call.kind := s.temps[call]] else s.files)
    && s'.started == s.started + (if s.calls[call].Rechecking? && s'.calls[call].Building? then [call] else [])
  }

  /** The call holds what its phase says. */
  ghost predicate OwnLocks(s: State, call: Call) {
    && call in s.calls
    && (HoldsLease(s.calls[call]) <==> s.lease == Some(call))
    && (HoldsBuildLock(call, s.calls[call])
        <==> call.database.Some? && CellOf(call) in s.buildLocks && s.buildLocks[CellOf(call)] == call)
  }

  /** How a call came into its new phase, and where that phase's payload is from. */
  ghost predicate Narrates(p: Program, s: State, call: Call, choice: Choice, s': State) {
    call in s.calls && call in s'.calls &&
    var f := s.calls[call];
    match s'.calls[call]
    case AtCell => false
    case AtBuildLock => call.database.Some? && f.AtCell?
    case InBuildLock => call.database.Some? && f.AtBuildLock?
    case Entering => f.InBuildLock? && call.database.Some? && CellOf(call) !in s.cells
    case Probing(stamp) => f.Entering? && stamp == s.stamp
    case AtLease(stamp) => f == Probing(stamp)
    case Rechecking(stamp) => f == AtLease(stamp)
    case Building(stamp) => f == Rechecking(stamp) && Current(p, s.files, call.kind, stamp).None?
    case Writing(stamp, payload, _) =>
      (f == Building(stamp) && choice == Produce(payload)) || (f.Writing? && f.stamp == stamp && f.payload == payload)
    case Remapping(stamp, payload) => f == Writing(stamp, payload, AllSynced)
    case Holding(payload) =>
      || ((f.Probing? || f.Rechecking?) && Current(p, s.files, call.kind, f.stamp) == Some(payload))
      || (f.Remapping? && Mapped(p, s.files, call.kind, f.stamp) == Some(payload))
    case Returned(payload) =>
      || f == Holding(payload)
      || ((f.AtCell? || f.InBuildLock? || f.Holding?) && call.database.Some? && CellOf(call) in s.cells
          && payload == s.cells[CellOf(call)])
    case Failed => f.Remapping? && Mapped(p, s.files, call.kind, f.stamp).None?
    case Killed => false
  }

  lemma CurrentIsMapped(p: Program, files: map<SectionKind, File>, kind: SectionKind, stamp: Stamp)
    ensures Current(p, files, kind, stamp).Some? ==> Mapped(p, files, kind, stamp) == Current(p, files, kind, stamp)
  {}

  lemma CellFollows(p: Program, s: State, call: Call, choice: Choice, s': State)
    requires OwnLocks(s, call) && (s.calls[call].AtCell? || s.calls[call].InBuildLock?) && EnterStep(p, s, call, s.calls[call]) == Some(s')
    ensures LeaseFollows(s, call, s') && BuildLockFollows(s, call, s')
    ensures OthersKept(s, call, s') && Narrates(p, s, call, choice, s')
  {
  }

  lemma EntryFollows(p: Program, s: State, call: Call, choice: Choice, s': State)
    requires OwnLocks(s, call) && (s.calls[call].AtBuildLock? || s.calls[call].Entering? || s.calls[call].AtLease?)
    requires EnterStep(p, s, call, s.calls[call]) == Some(s')
    ensures LeaseFollows(s, call, s') && BuildLockFollows(s, call, s')
    ensures OthersKept(s, call, s') && Narrates(p, s, call, choice, s')
  {
  }

  lemma ProbeFollows(p: Program, s: State, call: Call, choice: Choice, s': State)
    requires OwnLocks(s, call) && s.calls[call].Probing? && EnterStep(p, s, call, s.calls[call]) == Some(s')
    ensures LeaseFollows(s, call, s') && BuildLockFollows(s, call, s')
    ensures OthersKept(s, call, s') && Narrates(p, s, call, choice, s')
  {
    hide Current, Mapped;
    if Current(p, s.files, call.kind, s.calls[call].stamp).Some? {}
  }

  lemma RecheckFollows(p: Program, s: State, call: Call, choice: Choice, s': State)
    requires call in s.calls && OwnLocks(s, call)
    requires s.calls[call].Rechecking? && Current(p, s.files, call.kind, s.calls[call].stamp).Some?
    requires BuildStep(p, s, call, s.calls[call], choice) == Some(s')
    ensures LeaseFollows(s, call, s') && BuildLockFollows(s, call, s')
    ensures OthersKept(s, call, s') && Narrates(p, s, call, choice, s')
  {
    hide Current, Mapped;
  }

  lemma StartFollows(p: Program, s: State, call: Call, choice: Choice, s': State)
    requires call in s.calls && OwnLocks(s, call)
    requires s.calls[call].Rechecking? && Current(p, s.files, call.kind, s.calls[call].stamp).None?
    requires BuildStep(p, s, call, s.calls[call], choice) == Some(s')
    ensures LeaseFollows(s, call, s') && BuildLockFollows(s, call, s')
    ensures OthersKept(s, call, s') && Narrates(p, s, call, choice, s')
  {
    hide Current, Mapped;
  }

  lemma BuildFollows(p: Program, s: State, call: Call, choice: Choice, s': State)
    requires OwnLocks(s, call) && s.calls[call].Building? && BuildStep(p, s, call, s.calls[call], choice) == Some(s')
    ensures LeaseFollows(s, call, s') && BuildLockFollows(s, call, s')
    ensures OthersKept(s, call, s') && Narrates(p, s, call, choice, s')
  {
    hide Archivable;
  }

  lemma RemapFollows(p: Program, s: State, call: Call, choice: Choice, s': State)
    requires call in s.calls && OwnLocks(s, call) && s.calls[call].Remapping?
    requires Mapped(p, s.files, call.kind, s.calls[call].stamp).Some?
    requires BuildStep(p, s, call, s.calls[call], choice) == Some(s')
    ensures LeaseFollows(s, call, s') && BuildLockFollows(s, call, s')
    ensures OthersKept(s, call, s') && Narrates(p, s, call, choice, s')
  {
    hide Mapped;
  }

  lemma RemapFailFollows(p: Program, s: State, call: Call, choice: Choice, s': State)
    requires call in s.calls && OwnLocks(s, call) && s.calls[call].Remapping?
    requires Mapped(p, s.files, call.kind, s.calls[call].stamp).None?
    requires BuildStep(p, s, call, s.calls[call], choice) == Some(s')
    ensures LeaseFollows(s, call, s') && BuildLockFollows(s, call, s')
    ensures OthersKept(s, call, s') && Narrates(p, s, call, choice, s')
  {
    hide Mapped;
  }

  lemma DeliverFollows(p: Program, s: State, call: Call, choice: Choice, s': State)
    requires OwnLocks(s, call) && s.calls[call].Holding? && BuildStep(p, s, call, s.calls[call], choice) == Some(s')
    ensures LeaseFollows(s, call, s') && BuildLockFollows(s, call, s')
    ensures OthersKept(s, call, s') && Narrates(p, s, call, choice, s')
  {
  }

  lemma PlaceholderFollows(p: Program, s: State, call: Call, choice: Choice, s': State)
    requires OwnLocks(s, call) && s.calls[call].Writing? && s.calls[call].stage.Placeholder?
    requires WriteStep(p, s, call, s.calls[call], choice) == Some(s')
    ensures LeaseFollows(s, call, s') && BuildLockFollows(s, call, s')
    ensures OthersKept(s, call, s') && Narrates(p, s, call, choice, s')
  {
  }

  lemma PayloadFollows(p: Program, s: State, call: Call, choice: Choice, s': State)
    requires call in s.calls && OwnLocks(s, call)
    requires s.calls[call].Writing? && s.calls[call].stage.Streaming? && s.calls[call].stage.written < |s.calls[call].payload|
    requires WriteStep(p, s, call, s.calls[call], choice) == Some(s')
    ensures LeaseFollows(s, call, s') && BuildLockFollows(s, call, s')
    ensures OthersKept(s, call, s') && Narrates(p, s, call, choice, s')
  {
  }

  lemma SyncFollows(p: Program, s: State, call: Call, choice: Choice, s': State)
    requires call in s.calls && OwnLocks(s, call)
    requires s.calls[call].Writing? && s.calls[call].stage.Streaming? && s.calls[call].stage.written >= |s.calls[call].payload|
    requires WriteStep(p, s, call, s.calls[call], choice) == Some(s')
    ensures LeaseFollows(s, call, s') && BuildLockFollows(s, call, s')
    ensures OthersKept(s, call, s') && Narrates(p, s, call, choice, s')
  {
  }

  lemma HeaderFollows(p: Program, s: State, call: Call, choice: Choice, s': State)
    requires OwnLocks(s, call) && s.calls[call].Writing? && (s.calls[call].stage.Synced? || s.calls[call].stage.Headed?)
    requires WriteStep(p, s, call, s.calls[call], choice) == Some(s')
    ensures LeaseFollows(s, call, s') && BuildLockFollows(s, call, s')
    ensures OthersKept(s, call, s') && Narrates(p, s, call, choice, s')
  {
    hide BuildHeader, KeyOf;
  }

  lemma RenameFollows(p: Program, s: State, call: Call, choice: Choice, s': State)
    requires OwnLocks(s, call) && s.calls[call].Writing? && s.calls[call].stage.AllSynced?
    requires WriteStep(p, s, call, s.calls[call], choice) == Some(s')
    ensures LeaseFollows(s, call, s') && BuildLockFollows(s, call, s')
    ensures OthersKept(s, call, s') && Narrates(p, s, call, choice, s')
  {
  }

  lemma CallFollows(p: Program, s: State, call: Call, choice: Choice, s': State)
    requires call in s.calls && OwnLocks(s, call) && CallStep(p, s, call, s.calls[call], choice) == Some(s')
    ensures LeaseFollows(s, call, s') && BuildLockFollows(s, call, s')
    ensures OthersKept(s, call, s') && Narrates(p, s, call, choice, s')
  {
    hide LeaseFollows, BuildLockFollows, OthersKept, Narrates, OwnLocks, Current, Mapped, Archivable, BuildHeader, KeyOf;
    match s.calls[call]
    case AtCell | InBuildLock => CellFollows(p, s, call, choice, s');
    case AtBuildLock | Entering | AtLease(_) => EntryFollows(p, s, call, choice, s');
    case Probing(_) => ProbeFollows(p, s, call, choice, s');
    case Rechecking(stamp) =>
      if Current(p, s.files, call.kind, stamp).Some? {
        RecheckFollows(p, s, call, choice, s');
      } else {
        StartFollows(p, s, call, choice, s');
      }
    case Building(_) => BuildFollows(p, s, call, choice, s');
    case Remapping(stamp, _) =>
      if Mapped(p, s.files, call.kind, stamp).Some? {
        RemapFollows(p, s, call, choice, s');
      } else {
        RemapFailFollows(p, s, call, choice, s');
      }
    case Holding(_) => DeliverFollows(p, s, call, choice, s');
    case Writing(_, _, Placeholder) => PlaceholderFollows(p, s, call, choice, s');
    case Writing(_, payload, Streaming(written)) =>
      if written < |payload| {
        PayloadFollows(p, s, call, choice, s');
      } else {
        SyncFollows(p, s, call, choice, s');
      }
    case Writing(_, _, Synced) | Writing(_, _, Headed) => HeaderFollows(p, s, call, choice, s');
    case Writing(_, _, AllSynced) => RenameFollows(p, s, call, choice, s');
  }

  // ------------------------------------------------------------------ locks exclude

  lemma LeaseAdvance(s: State, call: Call, s': State)
    requires LeaseHeld(s) && LeaseFollows(s, call, s')
    ensures LeaseHeld(s')
  {}

  lemma BuildLocksAdvance(s: State, call: Call, s': State)
    requires BuildLocksHeld(s) && BuildLockFollows(s, call, s')
    ensures BuildLocksHeld(s')
  {}

  lemma FailLocks(s: State, call: Call)
    requires LeaseHeld(s) && BuildLocksHeld(s) && call in s.calls
    ensures LeaseHeld(FailStep(s, call, s.calls[call])) && BuildLocksHeld(FailStep(s, call, s.calls[call]))
  {
    var s' := FailStep(s, call, s.calls[call]);
    assert LeaseFollows(s, call, s') && BuildLockFollows(s, call, s');
    LeaseAdvance(s, call, s');
    BuildLocksAdvance(s, call, s');
  }

  lemma KillingLocks(s: State, dead: set<Call>)
    requires LeaseHeld(s) && BuildLocksHeld(s)
    ensures LeaseHeld(Killing(s, dead)) && BuildLocksHeld(Killing(s, dead))
  {}

  lemma SameLocks(s: State, s': State)
    requires LeaseHeld(s) && BuildLocksHeld(s)
    requires s'.lease == s.lease && s'.buildLocks == s.buildLocks && s'.calls == s.calls
    ensures LeaseHeld(s') && BuildLocksHeld(s')
  {}

  /** Mutual exclusion survives every step, including crashes and power loss. */
  lemma LocksKept(p: Program, s: State, a: Action, s': State)
    requires LeaseHeld(s) && BuildLocksHeld(s) && Step(p, s, a) == Some(s')
    ensures LeaseHeld(s') && BuildLocksHeld(s')
  {
    hide LeaseHeld, BuildLocksHeld, CallStep, FailStep, Killing, Mapped, Surviving;
    match a
    case Begin(call) => BeginLocks(s, call);
    case Advance(call, choice) =>
      LocksAreOwn(s, call);
      CallFollows(p, s, call, choice, s');
      LeaseAdvance(s, call, s');
      BuildLocksAdvance(s, call, s');
    case Fail(call) => FailLocks(s, call);
    case Crash(process) =>
      var k := Killing(s, CallsOf(s, process));
      KillingLocks(s, CallsOf(s, process));
      SameLocks(k, s');
    case PowerLoss(garbage) =>
      KillingLocks(s, s.calls.Keys);
      SameLocks(Killing(s, s.calls.Keys), s');
    case _ => SameLocks(s, s');
  }

  lemma LocksAreOwn(s: State, call: Call)
    requires LeaseHeld(s) && BuildLocksHeld(s) && call in s.calls
    ensures OwnLocks(s, call)
  {}

  lemma BeginLocks(s: State, call: Call)
    requires LeaseHeld(s) && BuildLocksHeld(s) && call !in s.calls
    ensures var s' := Moved(s, call, if call.database.Some? then AtCell else Entering);
      LeaseHeld(s') && BuildLocksHeld(s')
  {}

  // ------------------------------------------------------------- temporary files

  /** The clause of TempsMatch for one call. */
  ghost predicate TempOf(p: Program, s: State, call: Call) {
    call in s.calls && (s.calls[call].Writing? ==>
      && |s.calls[call].payload| < U64 && Made(call.kind, s.calls[call].stamp, s.calls[call].payload) in s.made
      && call in s.temps && TempMatches(p, call, s.calls[call], s.temps[call]))
  }

  lemma TempsAreEach(p: Program, s: State)
    ensures TempsMatch(p, s) <==> forall c <- s.calls :: TempOf(p, s, c)
  {}

  lemma StreamedTemp(p: Program, s: State, call: Call, choice: Choice, s': State)
    requires TempOf(p, s, call) && call in s.calls && s.calls[call].Writing?
    requires s.calls[call].stage.Placeholder? || s.calls[call].stage.Streaming?
    requires WriteStep(p, s, call, s.calls[call], choice) == Some(s')
    ensures TempOf(p, s', call)
  {
    var f := s.calls[call];
    if f.stage.Placeholder? {
      assert ZeroHeader() + f.payload[..0] == ZeroHeader();
    } else if f.stage.written < |f.payload| {
      assert f.payload[..choice.n] == f.payload[..f.stage.written] + f.payload[f.stage.written..choice.n];
    } else {
      assert f.payload[..f.stage.written] == f.payload;
    }
  }

  lemma HeadedTemp(p: Program, s: State, call: Call, choice: Choice, s': State)
    requires TempOf(p, s, call) && call in s.calls && s.calls[call].Writing?
    requires s.calls[call].stage.Synced? || s.calls[call].stage.Headed?
    requires WriteStep(p, s, call, s.calls[call], choice) == Some(s')
    ensures TempOf(p, s', call)
  {
    hide BuildHeader;
    HeaderReplaced(KeyOf(p, call.kind, s.calls[call].stamp), s.calls[call].payload);
  }

  lemma FirstTemp(p: Program, s: State, call: Call, choice: Choice, s': State)
    requires call in s.calls && s.calls[call].Building? && BuildStep(p, s, call, s.calls[call], choice) == Some(s')
    ensures TempOf(p, s', call)
  {
    hide KeyOf;
  }

  lemma AdvanceTemp(p: Program, s: State, call: Call, choice: Choice, s': State)
    requires TempOf(p, s, call) && call in s.calls && OthersKept(s, call, s')
    requires CallStep(p, s, call, s.calls[call], choice) == Some(s')
    ensures TempOf(p, s', call)
  {
    hide TempOf, WriteStep, BuildStep, EnterStep;
    match s.calls[call]
    case Building(_) => FirstTemp(p, s, call, choice, s');
    case Writing(_, _, Placeholder) | Writing(_, _, Streaming(_)) => StreamedTemp(p, s, call, choice, s');
    case Writing(_, _, Synced) | Writing(_, _, Headed) => HeadedTemp(p, s, call, choice, s');
    case _ => NotWriting(p, s', call);
  }

  lemma NotWriting(p: Program, s: State, call: Call)
    requires call in s.calls && !s.calls[call].Writing?
    ensures TempOf(p, s, call)
  {}

  lemma OthersTemps(p: Program, s: State, call: Call, s': State, c: Call)
    requires LeaseFollows(s, call, s') && OthersKept(s, call, s') && c != call && TempOf(p, s, c)
    ensures TempOf(p, s', c)
  {
    hide KeyOf, ZeroHeader, BuildLockFollows;
    assert s'.calls[c] == s.calls[c];
    if c in s.temps {
      assert c in s.temps - {call} && (s.temps - {call})[c] == s.temps[c];
      assert c in s'.temps - {call} && (s'.temps - {call})[c] == s'.temps[c];
    }
  }

  lemma FailTemp(p: Program, s: State, call: Call, c: Call)
    requires call in s.calls && TempOf(p, s, c)
    ensures TempOf(p, FailStep(s, call, s.calls[call]), c)
  {
    hide KeyOf, ZeroHeader, TempMatches;
  }

  lemma KilledTemp(p: Program, s: State, dead: set<Call>, c: Call, s': State)
    requires TempOf(p, s, c) && s'.calls == Killing(s, dead).calls && s'.made == s.made
    requires s'.temps == s.temps || s.calls.Keys <= dead
    ensures TempOf(p, s', c)
  {
    hide KeyOf, ZeroHeader, TempMatches;
  }

  lemma TempsKept(p: Program, s: State, a: Action, s': State)
    requires LeaseHeld(s) && BuildLocksHeld(s) && TempsMatch(p, s) && Step(p, s, a) == Some(s')
    ensures TempsMatch(p, s')
  {
    hide LeaseHeld, BuildLocksHeld, CallStep, FailStep, Killing, Mapped, Surviving, TempsMatch, TempOf;
    TempsAreEach(p, s);
    TempsAreEach(p, s');
    match a
    case Begin(call) => BeginTemps(p, s, call);
    case Advance(call, choice) =>
      LocksAreOwn(s, call);
      CallFollows(p, s, call, choice, s');
      forall c <- s'.calls ensures TempOf(p, s', c) {
        if c == call {
          AdvanceTemp(p, s, call, choice, s');
        } else {
          OthersTemps(p, s, call, s', c);
        }
      }
    case Fail(call) =>
      forall c <- s'.calls ensures TempOf(p, s', c) {
        FailCalls(s, call);
        FailTemp(p, s, call, c);
      }
    case Crash(process) =>
      forall c <- s'.calls ensures TempOf(p, s', c) {
        KillingCalls(s, CallsOf(s, process));
        KilledTemp(p, s, CallsOf(s, process), c, s');
      }
    case PowerLoss(garbage) =>
      forall c <- s'.calls ensures TempOf(p, s', c) {
        KillingCalls(s, s.calls.Keys);
        KilledTemp(p, s, s.calls.Keys, c, s');
      }
    case _ =>
      forall c <- s'.calls ensures TempOf(p, s', c) {
        SameTemp(p, s, s', c);
      }
  }

  lemma SameTemp(p: Program, s: State, s': State, c: Call)
    requires s'.calls == s.calls && s'.temps == s.temps && s'.made == s.made && TempOf(p, s, c)
    ensures TempOf(p, s', c)
  {}

  lemma FailCalls(s: State, call: Call)
    requires call in s.calls
    ensures FailStep(s, call, s.calls[call]).calls.Keys == s.calls.Keys
  {}

  lemma KillingCalls(s: State, dead: set<Call>)
    ensures var s' := Killing(s, dead);
      && s'.calls.Keys == s.calls.Keys && s'.made == s.made && s'.temps == s.temps
      && s'.files == s.files && s'.settled == s.settled && s'.started == s.started && s'.stamp == s.stamp
  {}

  lemma BeginTemps(p: Program, s: State, call: Call)
    requires TempsMatch(p, s) && call !in s.calls
    ensures TempsMatch(p, Moved(s, call, if call.database.Some? then AtCell else Entering))
  {}

  // --------------------------------------------------------------- files and results

  lemma MadeArchivable(p: Program, s: State, a: Action, s': State)
    requires LeaseHeld(s) && BuildLocksHeld(s) && AllArchivable(p, s) && Step(p, s, a) == Some(s')
    ensures AllArchivable(p, s') && s.made <= s'.made
  {
    hide LeaseHeld, BuildLocksHeld, CallStep, Killing, Mapped, Surviving, Archivable;
    match a
    case Advance(call, choice) =>
      LocksAreOwn(s, call);
      CallFollows(p, s, call, choice, s');
      if s.calls[call].Building? {
        BuiltArchivable(p, s, call, choice, s');
      }
    case Crash(process) => KillingCalls(s, CallsOf(s, process));
    case PowerLoss(garbage) => KillingCalls(s, s.calls.Keys);
    case _ =>
  }

  lemma BuiltArchivable(p: Program, s: State, call: Call, choice: Choice, s': State)
    requires call in s.calls && s.calls[call].Building? && CallStep(p, s, call, s.calls[call], choice) == Some(s')
    ensures call in s'.calls && (s'.calls[call].Writing? ==> Archivable(p, call.kind, s'.calls[call].payload))
  {}

  lemma SoundMonotone(p: Program, s0: State, made: set<Made>, made': set<Made>, kind: SectionKind, f: File)
    requires Sound(p, s0, made, kind, f) && made <= made'
    ensures Sound(p, s0, made', kind, f)
  {}

  lemma RenamedSound(p: Program, s0: State, s: State, call: Call)
    requires TempOf(p, s, call) && call in s.calls && s.calls[call].Writing? && s.calls[call].stage.AllSynced?
    requires call in s.temps
    ensures Sound(p, s0, s.made, call.kind, s.temps[call])
  {
    hide KeyOf, BuildHeader;
    assert Made(call.kind, s.calls[call].stamp, s.calls[call].payload) in s.made;
  }

  /** Nothing but a finished section is ever renamed into place, and nothing else
      survives a power loss there. */
  lemma FilesKept(p: Program, s0: State, s: State, a: Action, s': State)
    requires LeaseHeld(s) && BuildLocksHeld(s) && AllArchivable(p, s) && TempsMatch(p, s)
    requires FilesSound(p, s0, s) && Step(p, s, a) == Some(s')
    ensures FilesSound(p, s0, s')
  {
    hide LeaseHeld, BuildLocksHeld, CallStep, Killing, Mapped, Sound, TempsMatch, AllArchivable;
    MadeArchivable(p, s, a, s');
    forall kind: SectionKind, f | Sound(p, s0, s.made, kind, f) ensures Sound(p, s0, s'.made, kind, f) {
      SoundMonotone(p, s0, s.made, s'.made, kind, f);
    }
    match a
    case Advance(call, choice) =>
      LocksAreOwn(s, call);
      CallFollows(p, s, call, choice, s');
      if s.calls[call].Writing? && s.calls[call].stage.AllSynced? && call in s.temps {
        TempsAreEach(p, s);
        RenamedSound(p, s0, s, call);
      }
    case PowerLoss(garbage) =>
      KillingCalls(s, s.calls.Keys);
      forall kind <- s'.files ensures Sound(p, s0, s'.made, kind, s'.files[kind]) {
        SoundIsSynced(p, s0, s.made, kind, s.settled[kind]);
      }
    case Crash(process) => KillingCalls(s, CallsOf(s, process));
    case _ =>
  }

  lemma SoundIsSynced(p: Program, s0: State, made: set<Made>, kind: SectionKind, f: File)
    requires Sound(p, s0, made, kind, f)
    ensures f.synced
  {}

  /** What maps out of a sound file is genuine. */
  lemma MappedGenuine(p: Program, s0: State, s: State, kind: SectionKind, stamp: Stamp)
    requires FilesSound(p, s0, s) && Mapped(p, s.files, kind, stamp).Some?
    ensures Genuine(p, s0, s.made, kind, Mapped(p, s.files, kind, stamp).value)
  {
    hide ParseHeader, BuildHeader, KeyOf;
    var found := Mapped(p, s.files, kind, stamp).value;
    var bytes := s.files[kind].bytes;
    if FileBytes(s0.files, kind) == Some(bytes) {
      assert Mapped(p, s0.files, kind, stamp) == Some(found);
    } else {
      var m :| m in s.made && m.kind == kind && |m.payload| < U64 && bytes == Image(KeyOf(p, kind, m.stamp), m.payload);
      assert bytes[HEADER_SIZE..] == m.payload;
    }
  }

  lemma GenuineMonotone(p: Program, s0: State, made: set<Made>, made': set<Made>, kind: SectionKind, payload: Blob)
    requires Genuine(p, s0, made, kind, payload) && made <= made'
    ensures Genuine(p, s0, made', kind, payload)
  {
    hide Mapped;
  }

  lemma AdvanceResults(p: Program, s0: State, s: State, call: Call, choice: Choice, s': State)
    requires ResultsGenuine(p, s0, s) && FilesSound(p, s0, s) && s.made <= s'.made
    requires LeaseFollows(s, call, s') && OthersKept(s, call, s') && Narrates(p, s, call, choice, s')
    ensures ResultsGenuine(p, s0, s')
  {
    hide Mapped, Current, Genuine, FilesSound;
    GenuineGrows(p, s0, s.made, s'.made);
    if s'.calls[call].Holding? {
      CurrentIsMapped(p, s.files, call.kind, s.calls[call].stamp);
      MappedGenuine(p, s0, s, call.kind, s.calls[call].stamp);
    }
  }

  lemma GenuineGrows(p: Program, s0: State, made: set<Made>, made': set<Made>)
    requires made <= made'
    ensures forall kind, payload :: Genuine(p, s0, made, kind, payload) ==> Genuine(p, s0, made', kind, payload)
  {
    hide Genuine;
    forall kind: SectionKind, payload | Genuine(p, s0, made, kind, payload) ensures Genuine(p, s0, made', kind, payload) {
      GenuineMonotone(p, s0, made, made', kind, payload);
    }
  }

  lemma ResultsKept(p: Program, s0: State, s: State, a: Action, s': State)
    requires LeaseHeld(s) && BuildLocksHeld(s) && AllArchivable(p, s) && FilesSound(p, s0, s)
    requires ResultsGenuine(p, s0, s) && Step(p, s, a) == Some(s')
    ensures ResultsGenuine(p, s0, s')
  {
    hide LeaseHeld, BuildLocksHeld, CallStep, Killing, FailStep, Mapped, Current, Genuine, FilesSound, AllArchivable;
    MadeArchivable(p, s, a, s');
    match a
    case Advance(call, choice) =>
      LocksAreOwn(s, call);
      CallFollows(p, s, call, choice, s');
      AdvanceResults(p, s0, s, call, choice, s');
    case Fail(call) =>
      GenuineGrows(p, s0, s.made, s'.made);
      FailResults(s, call);
    case Crash(process) =>
      GenuineGrows(p, s0, s.made, s'.made);
      KilledResults(s, CallsOf(s, process));
    case PowerLoss(garbage) =>
      GenuineGrows(p, s0, s.made, s'.made);
      KilledResults(s, s.calls.Keys);
    case OpenCell(cell) =>
      if Mapped(p, s.files, cell.kind, s.stamp).Some? {
        MappedGenuine(p, s0, s, cell.kind, s.stamp);
      }
    case _ =>
  }

  lemma CellPhasesKept(p: Program, s: State, a: Action, s': State)
    requires LeaseHeld(s) && BuildLocksHeld(s) && CellPhases(s) && Step(p, s, a) == Some(s')
    ensures CellPhases(s')
  {
    hide LeaseHeld, BuildLocksHeld, CallStep, Killing, FailStep, Mapped, Surviving;
    match a
    case Advance(call, choice) =>
      LocksAreOwn(s, call);
      CallFollows(p, s, call, choice, s');
    case Fail(call) => FailResults(s, call);
    case Crash(process) => KilledResults(s, CallsOf(s, process));
    case PowerLoss(garbage) => KilledResults(s, s.calls.Keys);
    case _ =>
  }

  lemma FailResults(s: State, call: Call)
    requires call in s.calls
    ensures var s' := FailStep(s, call, s.calls[call]); s'.calls == s.calls[call := Failed] && s'.cells == s.cells
  {}

  lemma KilledResults(s: State, dead: set<Call>)
    ensures var s' := Killing(s, dead);
      && s'.calls.Keys == s.calls.Keys && s'.cells == s.cells
      && forall c <- s'.calls :: s'.calls[c] == s.calls[c] || s'.calls[c] == Killed
  {}

  // -------------------------------------------------------------------- over whole runs

  ghost predicate Safe(p: Program, s0: State, s: State) {
    && LeaseHeld(s) && BuildLocksHeld(s) && CellPhases(s) && TempsMatch(p, s) && AllArchivable(p, s)
    && FilesSound(p, s0, s) && ResultsGenuine(p, s0, s)
  }

  lemma StepSafe(p: Program, s0: State, s: State, a: Action, s': State)
    requires Safe(p, s0, s) && Step(p, s, a) == Some(s')
    ensures Safe(p, s0, s')
  {
    hide LeaseHeld, BuildLocksHeld, CellPhases, TempsMatch, AllArchivable, FilesSound, ResultsGenuine, Step;
    LocksKept(p, s, a, s');
    CellPhasesKept(p, s, a, s');
    TempsKept(p, s, a, s');
    MadeArchivable(p, s, a, s');
    FilesKept(p, s0, s, a, s');
    ResultsKept(p, s0, s, a, s');
  }

  lemma InitialSafe(p: Program, s0: State)
    requires Initial(s0)
    ensures Safe(p, s0, s0)
  {}

  /** Every interleaving of any number of calls and processes, with failures, crashes
      and power loss anywhere, keeps all of it. */
  lemma {:induction false} RunsAreSafe(p: Program, s0: State, actions: seq<Action>)
    requires Initial(s0) && After(p, s0, actions).Some?
    ensures Safe(p, s0, After(p, s0, actions).value)
  {
    hide Safe, Step;
    var n := |actions| - 1;
    if n < 0 {
      InitialSafe(p, s0);
    } else {
      RunsAreSafe(p, s0, actions[..n]);
      StepSafe(p, s0, After(p, s0, actions[..n]).value, actions[n], After(p, s0, actions).value);
    }
  }

  /** Two calls are never both between taking the plugin's lock and giving it up. */
  lemma MutualExclusion(p: Program, s0: State, actions: seq<Action>, c: Call, d: Call)
    requires Initial(s0) && After(p, s0, actions).Some?
    requires var s := After(p, s0, actions).value;
      c in s.calls && d in s.calls && HoldsLease(s.calls[c]) && HoldsLease(s.calls[d])
    ensures c == d
  {
    hide After, TempsMatch, AllArchivable, FilesSound, ResultsGenuine, BuildLocksHeld;
    RunsAreSafe(p, s0, actions);
  }

  /** At every moment the published file is absent, the one that was there at the
      start, or a finished section that maps back under the stamp it was built for. */
  lemma PublishedIsWhole(p: Program, s0: State, actions: seq<Action>, kind: SectionKind)
    requires Initial(s0) && After(p, s0, actions).Some?
    ensures var s := After(p, s0, actions).value;
      || kind !in s.files
      || FileBytes(s.files, kind) == FileBytes(s0.files, kind)
      || exists m <- s.made :: m.kind == kind && Mapped(p, s.files, kind, m.stamp) == Some(m.payload)
  {
    hide After, TempsMatch, ResultsGenuine, BuildLocksHeld, LeaseHeld, MapRaw, KeyOf, Image;
    RunsAreSafe(p, s0, actions);
    var s := After(p, s0, actions).value;
    if kind in s.files && FileBytes(s.files, kind) != FileBytes(s0.files, kind) {
      var bytes := s.files[kind].bytes;
      var m :| m in s.made && m.kind == kind && |m.payload| < U64 && bytes == Image(KeyOf(p, kind, m.stamp), m.payload);
      ImageMapsBack(KeyOf(p, kind, m.stamp), m.payload, p.rootLen(kind));
    }
  }

  /** A published file changes in one step or not at all: the holder of the plugin's
      lock replaces it by a finished section, the user deletes it, or a power loss
      brings back what had settled, whole. */
  lemma PublishIsAtomic(p: Program, s0: State, actions: seq<Action>, a: Action, kind: SectionKind)
    requires Initial(s0) && After(p, s0, actions).Some? && Step(p, After(p, s0, actions).value, a).Some?
    ensures var s := After(p, s0, actions).value;
      var s' := Step(p, s, a).value;
      || FileBytes(s'.files, kind) == FileBytes(s.files, kind)
      || (a == Clear(kind) && kind !in s'.files)
      || (a.PowerLoss? && FileBytes(s'.files, kind) == FileBytes(s.settled, kind))
      || (a.Advance? && s.lease == Some(a.call) && a.call.kind == kind && kind in s'.files
          && IsMade(p, s.made, kind, s'.files[kind].bytes))
  {
    hide After, LeaseHeld, BuildLocksHeld, TempsMatch, TempOf, AllArchivable, ResultsGenuine, CallStep, Killing, IsMade;
    RunsAreSafe(p, s0, actions);
    var s := After(p, s0, actions).value;
    var s' := Step(p, s, a).value;
    match a
    case Advance(call, choice) =>
      LocksAreOwn(s, call);
      CallFollows(p, s, call, choice, s');
      TempsAreEach(p, s);
      if Renames(s, call, s') {
        RenamedMade(p, s, call);
      }
    case Crash(process) => KillingCalls(s, CallsOf(s, process));
    case PowerLoss(garbage) => KillingCalls(s, s.calls.Keys);
    case _ =>
  }

  lemma RenamedMade(p: Program, s: State, call: Call)
    requires TempOf(p, s, call) && call in s.calls && s.calls[call].Writing? && s.calls[call].stage.AllSynced?
    ensures call in s.temps && IsMade(p, s.made, call.kind, s.temps[call].bytes)
  {
    hide KeyOf, BuildHeader;
    assert Made(call.kind, s.calls[call].stamp, s.calls[call].payload) in s.made;
  }

  /** A temporary file whose payload is still being written is refused by every reader. */
  lemma UnfinishedIsRefused(p: Program, s0: State, actions: seq<Action>, call: Call, key: Key, rootLen: nat)
    requires Initial(s0) && After(p, s0, actions).Some?
    requires var s := After(p, s0, actions).value; 
      call in s.calls && s.calls[call].Writing? && !s.calls[call].stage.Headed? && !s.calls[call].stage.AllSynced?
    ensures var s := After(p, s0, actions).value; call in s.temps && MapRaw(Some(s.temps[call].bytes), key, rootLen) == None
  {
    hide After, AllArchivable, FilesSound, ResultsGenuine, BuildLocksHeld, LeaseHeld, MapRaw;
    RunsAreSafe(p, s0, actions);
    var s := After(p, s0, actions).value;
    var bytes := s.temps[call].bytes;
    var rest := bytes[HEADER_SIZE..];
    assert bytes == ZeroHeader() + rest;
    ZeroHeaderRefused(rest, key, rootLen);
  }

  /** Whatever a call returns was built for some stamp, or was a valid section on disk
      before anything ran. */
  lemma ReturnsGenuine(p: Program, s0: State, actions: seq<Action>, call: Call)
    requires Initial(s0) && After(p, s0, actions).Some?
    requires var s := After(p, s0, actions).value; call in s.calls && s.calls[call].Returned?
    ensures var s := After(p, s0, actions).value; Genuine(p, s0, s.made, call.kind, s.calls[call].payload)
  {
    hide After, AllArchivable, FilesSound, TempsMatch, BuildLocksHeld, LeaseHeld, Genuine;
    RunsAreSafe(p, s0, actions);
  }

  // ---------------------------------------------------------------- deadlock freedom

  /** As long as some call is live, some call can move: whoever holds the plugin's lock
      never waits, and whoever holds a build lock waits for nothing else. */
  lemma NeverStuck(p: Program, s0: State, actions: seq<Action>, waiting: Call) returns (mover: Call, choice: Choice)
    requires Initial(s0) && After(p, s0, actions).Some?
    requires var s := After(p, s0, actions).value; waiting in s.calls && Live(s.calls[waiting])
    requires forall kind :: p.rootLen(kind) + HEADER_SIZE < U64
    ensures Step(p, After(p, s0, actions).value, Advance(mover, choice)).Some?
  {
    hide After, LeaseHeld, BuildLocksHeld, TempsMatch, FilesSound, ResultsGenuine, AllArchivable, CallStep;
    RunsAreSafe(p, s0, actions);
    var s := After(p, s0, actions).value;
    mover := waiting;
    if s.calls[mover].AtBuildLock? && CellOf(mover) in s.buildLocks {
      mover := BuildLockHolder(s, CellOf(mover));
    }
    if s.calls[mover].AtLease? && s.lease.Some? {
      mover := LeaseHolder(s);
    }
    choice := CanMove(p, s, mover);
  }

  lemma BuildLockHolder(s: State, cell: CellId) returns (holder: Call)
    requires BuildLocksHeld(s) && cell in s.buildLocks
    ensures holder in s.calls && holder.database.Some? && HoldsBuildLock(holder, s.calls[holder])
  {
    holder := s.buildLocks[cell];
  }

  lemma LeaseHolder(s: State) returns (holder: Call)
    requires LeaseHeld(s) && s.lease.Some?
    ensures holder in s.calls && HoldsLease(s.calls[holder])
  {
    holder := s.lease.value;
  }

  lemma CanMove(p: Program, s: State, call: Call) returns (choice: Choice)
    requires call in s.calls && Live(s.calls[call]) && TempsMatch(p, s)
    requires call.database.None? ==> !s.calls[call].AtCell? && !s.calls[call].AtBuildLock? && !s.calls[call].InBuildLock?
    requires s.calls[call].AtBuildLock? ==> CellOf(call) !in s.buildLocks
    requires s.calls[call].AtLease? ==> s.lease.None?
    requires p.rootLen(call.kind) + HEADER_SIZE < U64
    ensures CallStep(p, s, call, s.calls[call], choice).Some?
  {
    hide Current, Mapped, BuildHeader, KeyOf;
    choice := Go;
    var f := s.calls[call];
    if f.Building? {
      var payload: Blob := seq(p.rootLen(call.kind), _ => 0);
      choice := Produce(payload);
      assert Archivable(p, call.kind, payload);
    } else if f.Writing? {
      choice := WriteUpTo(|f.payload|);
    }
  }

  // ------------------------------------------------------------------- built only once

  /** The steps of an undisturbed run: no error, crash, power loss, change of the plugin
      or deleted cache, and every built section is accepted by its own check. */
  ghost predicate Quiet(p: Program, a: Action) {
    match a
    case Advance(call, choice) =>
      choice.Produce? ==> call.kind in {Edid, Search, Xref} || p.accepts(call.kind, choice.payload)
    case Fail(_) => false
    case Crash(_) => false
    case PowerLoss(_) => false
    case Restamp(_) => false
    case Clear(_) => false
    case _ => true
  }

  /** The calls that set out to build a kind of section, in order. */
  ghost function Starts(started: seq<Call>, kind: SectionKind): seq<Call> {
    if |started| == 0 then []
    else
      var n := |started| - 1;
      Starts(started[..n], kind) + (if started[n].kind == kind then [started[n]] else [])
  }

  lemma StartsAfter(started: seq<Call>, call: Call, kind: SectionKind)
    ensures Starts(started + [call], kind) == Starts(started, kind) + (if call.kind == kind then [call] else [])
  {
    assert (started + [call])[..|started|] == started;
  }

  /** One builder at most, and only while the section is missing; everybody who has a
      section has the one on disk. */
  ghost predicate SteadyCall(p: Program, s: State, stamp: Stamp, c: Call) {
    c in s.calls &&
    var found := Current(p, s.files, c.kind, stamp);
    match s.calls[c]
    case Probing(t) => t == stamp
    case AtLease(t) => t == stamp
    case Rechecking(t) => t == stamp
    case Building(t) => t == stamp && found.None? && Starts(s.started, c.kind) == [c]
    case Writing(t, payload, _) =>
      t == stamp && found.None? && Starts(s.started, c.kind) == [c] && IsCurrent(p, c.kind, payload)
    case Remapping(t, payload) => t == stamp && found == Some(payload)
    case Holding(payload) => found == Some(payload)
    case Returned(payload) => found == Some(payload)
    case Failed => false
    case Killed => false
    case _ => true
  }

  ghost predicate SteadyCell(p: Program, s: State, stamp: Stamp, cell: CellId) {
    cell in s.cells && Lazy(cell.kind) && Current(p, s.files, cell.kind, stamp) == Some(s.cells[cell])
  }

  ghost predicate SteadyKind(p: Program, s0: State, s: State, kind: SectionKind) {
    var starts := Starts(s.started, kind);
    var found := Current(p, s.files, kind, s0.stamp);
    && |starts| <= 1
    && (Current(p, s0.files, kind, s0.stamp).Some? ==> starts == [] && found == Current(p, s0.files, kind, s0.stamp))
    && (|starts| == 1 && found.None? ==>
          starts[0] in s.calls && starts[0].kind == kind
          && (s.calls[starts[0]].Building? || s.calls[starts[0]].Writing?))
  }

  ghost predicate Steady(p: Program, s0: State, s: State) {
    && s.stamp == s0.stamp
    && (forall c <- s.calls :: SteadyCall(p, s, s0.stamp, c) && (c.database.Some? ==> Lazy(c.kind)))
    && (forall cell <- s.cells :: SteadyCell(p, s, s0.stamp, cell))
    && (forall kind :: SteadyKind(p, s0, s, kind))
  }

  lemma RenamedCurrent(p: Program, s: State, call: Call)
    requires call in s.calls && TempOf(p, s, call) && s.calls[call].Writing? && s.calls[call].stage.AllSynced?
    requires call in s.temps && AllArchivable(p, s) && IsCurrent(p, call.kind, s.calls[call].payload)
    ensures Current(p, s.files[call.kind := s.temps[call]], call.kind, s.calls[call].stamp) == Some(s.calls[call].payload)
  {
    hide MapRaw, Image, KeyOf;
    var f := s.calls[call];
    assert Archivable(p, Made(call.kind, f.stamp, f.payload).kind, f.payload);
    ImageMapsBack(KeyOf(p, call.kind, f.stamp), f.payload, p.rootLen(call.kind));
  }

  lemma OtherKindsFiles(p: Program, files: map<SectionKind, File>, changed: SectionKind, f: File, kind: SectionKind, stamp: Stamp)
    requires kind != changed
    ensures Current(p, files[changed := f], kind, stamp) == Current(p, files, kind, stamp)
  {}

  lemma LazyCurrent(p: Program, files: map<SectionKind, File>, kind: SectionKind, stamp: Stamp)
    ensures Lazy(kind) ==> Current(p, files, kind, stamp) == Mapped(p, files, kind, stamp)
  {}

  /** Publishing the section turns everybody's lookup from missing to found. */
  lemma SteadyRename(p: Program, s0: State, s: State, call: Call, choice: Choice, s': State)
    requires LeaseHeld(s) && AllArchivable(p, s) && TempOf(p, s, call) && Steady(p, s0, s)
    requires LeaseFollows(s, call, s') && OthersKept(s, call, s') && Narrates(p, s, call, choice, s')
    requires Renames(s, call, s')
    ensures Steady(p, s0, s')
  {
    hide Mapped, Current, TempMatches, Archivable, IsCurrent;
    assert SteadyCall(p, s, s0.stamp, call);
    RenamedCurrent(p, s, call);
    forall kind: SectionKind | kind != call.kind
      ensures Current(p, s'.files, kind, s0.stamp) == Current(p, s.files, kind, s0.stamp)
    {
      OtherKindsFiles(p, s.files, call.kind, s.temps[call], kind, s0.stamp);
    }
    forall c <- s'.calls ensures SteadyCall(p, s', s0.stamp, c) && (c.database.Some? ==> Lazy(c.kind)) {
      assert SteadyCall(p, s, s0.stamp, c);
    }
    forall cell <- s'.cells ensures SteadyCell(p, s', s0.stamp, cell) {
      assert SteadyCell(p, s, s0.stamp, cell);
    }
    assert s'.started == s.started;
    forall kind ensures SteadyKind(p, s0, s', kind) {
      assert SteadyKind(p, s0, s, kind);
    }
  }

  /** A call that finds the section missing under the lock is the first to build it. */
  lemma SteadyStart(p: Program, s0: State, s: State, call: Call, choice: Choice, s': State)
    requires LeaseHeld(s) && Steady(p, s0, s)
    requires LeaseFollows(s, call, s') && OthersKept(s, call, s') && Narrates(p, s, call, choice, s')
    requires s'.calls[call].Building?
    ensures Steady(p, s0, s')
  {
    hide Mapped, Current, Starts;
    assert SteadyCall(p, s, s0.stamp, call);
    assert SteadyKind(p, s0, s, call.kind);
    assert s'.started == s.started + [call];
    NoStartsYet(p, s0, s, call);
    StartsAfter(s.started, call, call.kind);
    forall c <- s'.calls ensures SteadyCall(p, s', s0.stamp, c) && (c.database.Some? ==> Lazy(c.kind)) {
      assert SteadyCall(p, s, s0.stamp, c);
      StartsAfter(s.started, call, c.kind);
    }
    forall cell <- s'.cells ensures SteadyCell(p, s', s0.stamp, cell) {
      assert SteadyCell(p, s, s0.stamp, cell);
    }
    forall kind ensures SteadyKind(p, s0, s', kind) {
      assert SteadyKind(p, s0, s, kind);
      StartsAfter(s.started, call, kind);
    }
  }

  lemma NoStartsYet(p: Program, s0: State, s: State, call: Call)
    requires LeaseHeld(s) && SteadyKind(p, s0, s, call.kind) && call in s.calls && s.calls[call].Rechecking?
    requires Current(p, s.files, call.kind, s0.stamp).None?
    ensures Starts(s.started, call.kind) == []
  {
    hide Current, Starts;
  }

  /** Every other step of a call. */
  lemma SteadyMove(p: Program, s0: State, s: State, call: Call, choice: Choice, s': State)
    requires Steady(p, s0, s) && Quiet(p, Advance(call, choice))
    requires LeaseFollows(s, call, s') && OthersKept(s, call, s') && Narrates(p, s, call, choice, s')
    requires !s'.calls[call].Building? && !Renames(s, call, s') && !s'.calls[call].Remapping?
    ensures Steady(p, s0, s')
  {
    hide Mapped, Current, Starts, IsCurrent;
    assert SteadyCall(p, s, s0.stamp, call);
    MappedIsCurrent(p, s, call);
    assert s'.started == s.started && s'.files == s.files;
    MovedCall(p, s0, s, call, choice, s');
    forall c <- s'.calls | c != call ensures SteadyCall(p, s', s0.stamp, c) && (c.database.Some? ==> Lazy(c.kind)) {
      assert SteadyCall(p, s, s0.stamp, c);
    }
    forall cell <- s'.cells ensures SteadyCell(p, s', s0.stamp, cell) {
      assert cell in s.cells ==> SteadyCell(p, s, s0.stamp, cell);
    }
    forall kind ensures SteadyKind(p, s0, s', kind) {
      assert SteadyKind(p, s0, s, kind);
    }
  }

  /** What is mapped back after publishing is the section found to be current. */
  lemma MappedIsCurrent(p: Program, s: State, call: Call)
    requires call in s.calls
    ensures s.calls[call].Remapping? && Current(p, s.files, call.kind, s.calls[call].stamp).Some? ==>
      Mapped(p, s.files, call.kind, s.calls[call].stamp) == Current(p, s.files, call.kind, s.calls[call].stamp)
  {
    hide Mapped;
  }

  lemma QuietProduces(p: Program, call: Call, choice: Choice)
    requires Quiet(p, Advance(call, choice))
    ensures choice.Produce? ==> IsCurrent(p, call.kind, choice.payload)
  {}

  lemma MovedCall(p: Program, s0: State, s: State, call: Call, choice: Choice, s': State)
    requires Steady(p, s0, s) && Quiet(p, Advance(call, choice)) && SteadyCall(p, s, s0.stamp, call)
    requires LeaseFollows(s, call, s') && Narrates(p, s, call, choice, s') && s'.started == s.started && s'.files == s.files
    requires !s'.calls[call].Building? && !s'.calls[call].Remapping?
    ensures SteadyCall(p, s', s0.stamp, call)
  {
    hide Mapped, Current, Starts, IsCurrent, SteadyKind;
    QuietProduces(p, call, choice);
    MappedIsCurrent(p, s, call);
    if call.database.Some? && CellOf(call) in s.cells {
      assert SteadyCell(p, s, s0.stamp, CellOf(call));
    }
  }

  lemma SteadyAdvance(p: Program, s0: State, s: State, call: Call, choice: Choice, s': State)
    requires Safe(p, s0, s) && Steady(p, s0, s) && Quiet(p, Advance(call, choice))
    requires Step(p, s, Advance(call, choice)) == Some(s')
    ensures Steady(p, s0, s')
  {
    hide LeaseHeld, BuildLocksHeld, TempsMatch, TempOf, AllArchivable, FilesSound, ResultsGenuine, Steady, CallStep;
    LocksAreOwn(s, call);
    CallFollows(p, s, call, choice, s');
    TempsAreEach(p, s);
    if s'.calls[call].Building? {
      SteadyStart(p, s0, s, call, choice, s');
    } else if s'.calls[call].Remapping? {
      WriterHasTemp(p, s, call);
      SteadyRename(p, s0, s, call, choice, s');
    } else {
      SteadyMove(p, s0, s, call, choice, s');
    }
  }

  lemma WriterHasTemp(p: Program, s: State, call: Call)
    requires TempOf(p, s, call) && call in s.calls && s.calls[call].Writing?
    ensures call in s.temps
  {}

  lemma SteadyKept(p: Program, s0: State, s: State, a: Action, s': State)
    requires Safe(p, s0, s) && Steady(p, s0, s) && Quiet(p, a) && Step(p, s, a) == Some(s')
    ensures Steady(p, s0, s')
  {
    hide Safe, CallStep, Mapped, Current, Starts, IsCurrent;
    match a
    case Advance(call, choice) => SteadyAdvance(p, s0, s, call, choice, s');
    case Begin(call) => OthersSteady(p, s0, s, s');
    case Settle(kind) => OthersSteady(p, s0, s, s');
    case OpenCell(cell) =>
      LazyCurrent(p, s.files, cell.kind, s0.stamp);
      OthersSteady(p, s0, s, s');
  }

  lemma OthersSteady(p: Program, s0: State, s: State, s': State)
    requires Steady(p, s0, s) && s'.files == s.files && s'.started == s.started && s'.stamp == s.stamp
    requires forall c <- s.calls :: c in s'.calls && s'.calls[c] == s.calls[c]
    requires forall c <- s'.calls :: c in s.calls || ((s'.calls[c].AtCell? || s'.calls[c].Entering?) && (c.database.Some? ==> Lazy(c.kind)))
    requires forall cell <- s'.cells :: (cell in s.cells && s'.cells[cell] == s.cells[cell]) || SteadyCell(p, s', s0.stamp, cell)
    ensures Steady(p, s0, s')
  {
    hide Mapped, Current, Starts, IsCurrent;
    forall c <- s'.calls ensures SteadyCall(p, s', s0.stamp, c) && (c.database.Some? ==> Lazy(c.kind)) {
      assert c in s.calls ==> SteadyCall(p, s, s0.stamp, c);
    }
    forall cell <- s'.cells ensures SteadyCell(p, s', s0.stamp, cell) {
      assert cell in s.cells ==> SteadyCell(p, s, s0.stamp, cell);
    }
    forall kind ensures SteadyKind(p, s0, s', kind) {
      assert SteadyKind(p, s0, s, kind);
    }
  }

  lemma {:induction false} QuietRunsAreSteady(p: Program, s0: State, actions: seq<Action>)
    requires Initial(s0) && After(p, s0, actions).Some? && (forall a <- actions :: Quiet(p, a))
    ensures Steady(p, s0, After(p, s0, actions).value)
  {
    hide Safe, Steady, Step, Quiet;
    var n := |actions| - 1;
    if n < 0 {
      InitialSteady(p, s0);
    } else {
      RunsAreSafe(p, s0, actions[..n]);
      QuietRunsAreSteady(p, s0, actions[..n]);
      SteadyKept(p, s0, After(p, s0, actions[..n]).value, actions[n], After(p, s0, actions).value);
    }
  }

  lemma InitialSteady(p: Program, s0: State)
    requires Initial(s0)
    ensures Steady(p, s0, s0)
  {
    hide Current;
    forall kind ensures SteadyKind(p, s0, s0, kind) {
      assert Starts(s0.started, kind) == [];
    }
  }

  /** What the disk holds of a section for a stamp. */
  ghost function OnDisk(p: Program, files: map<SectionKind, File>, kind: SectionKind, stamp: Stamp): Option<Blob> {
    MapRaw(FileBytes(files, kind), Key(kind, stamp, p.cacheVersion, p.fingerprint(kind)), p.rootLen(kind))
  }

  lemma CurrentIsAccepted(p: Program, files: map<SectionKind, File>, kind: SectionKind, stamp: Stamp)
    ensures var found := OnDisk(p, files, kind, stamp);
      Current(p, files, kind, stamp)
        == if found.Some? && (kind in {Edid, Search, Xref} || p.accepts(kind, found.value)) then found else None
  {
    hide MapRaw;
  }

  /** In an undisturbed run, each section is built at most once, and not at all if it
      was there for the plugin's stamp, its content accepted. The three sections built on
      first use have no content to check. */
  lemma BuiltAtMostOnce(p: Program, s0: State, actions: seq<Action>, kind: SectionKind)
    requires Initial(s0) && After(p, s0, actions).Some? && (forall a <- actions :: Quiet(p, a))
    ensures var starts, found := Starts(After(p, s0, actions).value.started, kind), OnDisk(p, s0.files, kind, s0.stamp);
      && |starts| <= 1
      && (found.Some? && (kind in {Edid, Search, Xref} || p.accepts(kind, found.value)) ==> starts == [])
  {
    hide After, Current, Starts, Quiet, OnDisk;
    QuietRunsAreSteady(p, s0, actions);
    CurrentIsAccepted(p, s0.files, kind, s0.stamp);
    assert SteadyKind(p, s0, After(p, s0, actions).value, kind);
  }

  /** In an undisturbed run no call fails, and every call that has finished got the one
      section that is on disk. */
  lemma EverybodyGetsIt(p: Program, s0: State, actions: seq<Action>, c: Call)
    requires Initial(s0) && After(p, s0, actions).Some? && (forall a <- actions :: Quiet(p, a))
    requires c in After(p, s0, actions).value.calls && !Live(After(p, s0, actions).value.calls[c])
    ensures var s := After(p, s0, actions).value;
      s.calls[c].Returned? && OnDisk(p, s.files, c.kind, s0.stamp) == Some(s.calls[c].payload)
  {
    hide After, Current, Starts, Quiet, OnDisk;
    QuietRunsAreSteady(p, s0, actions);
    CurrentIsAccepted(p, After(p, s0, actions).value.files, c.kind, s0.stamp);
    assert SteadyCall(p, After(p, s0, actions).value, s0.stamp, c);
  }
}
