/** The databases one process has open, shared by many threads: every lock acquisition is
    one step, and the slow open happens between two of them. */
module Host {
  import opened Wrappers

  type Path = string
  type FileSig = nat

  /** An open database: its identity, and the file state it was read from. */
  datatype Database = Database(id: nat, source: FileSig)

  datatype Resident = Resident(sig: FileSig, db: Database)

  type Residents = map<Path, Resident>

  // ------------------------------------------------------------- the critical sections

  /** The map and the answer after a call that opened `mine` takes the lock again,
      having seen `seen` when it first looked. No answer means the key was closed. */
  function Reconciled(residents: Residents, key: Path, seen: Option<Resident>, create: bool, sig: FileSig, mine: Database)
    : (Residents, Option<Database>)
  {
    if key in residents then
      if seen.Some? && residents[key].db.id == seen.value.db.id then
        (residents[key := Resident(sig, mine)], Some(mine))
      else (residents, Some(residents[key].db))
    else if seen.Some? && !create then (residents, None)
    else (residents[key := Resident(sig, mine)], Some(mine))
  }

  // -------------------------------------------------------------------- the transitions

  datatype Purpose = Open | Run | Close

  datatype Call = Call(id: nat, path: Path, purpose: Purpose)

  datatype Phase =
    | Start
    | Keyed(key: Path)
    | Snapped(key: Path, seen: Option<Resident>)
    | Reopening(key: Path, seen: Option<Resident>)
    | SigRead(key: Path, seen: Option<Resident>, sig: FileSig)
    | Opened(key: Path, seen: Option<Resident>, sig: FileSig, db: Database)
    | Returned(key: Path, db: Database)
    | Done
    | Failed

  /** `nextId` names the next database opened; `opensOnRun` is fixed for a host. */
  datatype State = State(
    residents: Residents, disk: map<Path, FileSig>, nextId: nat, opensOnRun: bool, calls: map<Call, Phase>)

  /** A step of a call, with what canonicalising its path answers, or of the file system.
      `Err` is any I/O error. */
  datatype Action =
    | Begin(call: Call)
    | Advance(call: Call, canonical: Option<Path>)
    | Err(call: Call)
    | Touch(path: Path, sig: FileSig)
    | Delete(path: Path)

  predicate Creates(s: State, call: Call) {
    call.purpose.Open? || (call.purpose.Run? && s.opensOnRun)
  }

  predicate Live(phase: Phase) {
    !phase.Returned? && !phase.Done? && !phase.Failed?
  }

  function Moved(s: State, call: Call, phase: Phase): State {
    s.(calls := s.calls[call := phase])
  }

  function CallStep(s: State, call: Call, phase: Phase, canonical: Option<Path>): Option<State> {
    match phase
    case Start =>
      if call.path in s.residents then Some(Moved(s, call, Keyed(call.path)))
      else if canonical.Some? then Some(Moved(s, call, Keyed(canonical.value)))
      else Some(Moved(s, call, if call.purpose.Close? then Done else Failed))
    case Keyed(key) =>
      if call.purpose.Close? then Some(s.(residents := s.residents - {key}, calls := s.calls[call := Done]))
      else Some(Moved(s, call, Snapped(key, if key in s.residents then Some(s.residents[key]) else None)))
    case Snapped(key, seen) =>
      if seen.Some? then
        if key !in s.disk then Some(Moved(s, call, Failed))
        else if s.disk[key] == seen.value.sig then Some(Moved(s, call, Returned(key, seen.value.db)))
        else Some(Moved(s, call, Reopening(key, seen)))
      else if !Creates(s, call) then Some(Moved(s, call, Failed))
      else Some(Moved(s, call, Reopening(key, seen)))
    case Reopening(key, seen) =>
      if key !in s.disk then Some(Moved(s, call, Failed))
      else Some(Moved(s, call, SigRead(key, seen, s.disk[key])))
    case SigRead(key, seen, sig) =>
      if key !in s.disk then Some(Moved(s, call, Failed))
      else Some(s.(calls := s.calls[call := Phase.Opened(key, seen, sig, Database(s.nextId, s.disk[key]))],
                   nextId := s.nextId + 1))
    case Opened(key, seen, sig, db) =>
      var (residents, answer) := Reconciled(s.residents, key, seen, Creates(s, call), sig, db);
      Some(s.(residents := residents,
              calls := s.calls[call := if answer.Some? then Returned(key, answer.value) else Failed]))
    case _ => None
  }

  function Step(s: State, a: Action): Option<State> {
    match a
    case Begin(call) => if call in s.calls then None else Some(Moved(s, call, Start))
    case Advance(call, canonical) => if call in s.calls then CallStep(s, call, s.calls[call], canonical) else None
    case Err(call) => if call in s.calls && Live(s.calls[call]) then Some(Moved(s, call, Failed)) else None
    case Touch(path, sig) => Some(s.(disk := s.disk[path := sig]))
    case Delete(path) => Some(s.(disk := s.disk - {path}))
  }

  /** A fresh host: nothing open, no call under way. */
  predicate Initial(s: State) {
    s.residents == map[] && s.calls == map[]
  }

  function After(s: State, actions: seq<Action>): Option<State> {
    if |actions| == 0 then Some(s)
    else
      var n := |actions| - 1;
      var before := After(s, actions[..n]);
      if before.None? then None else Step(before.value, actions[n])
  }

  /** What the file system is taken to do: any file changes or goes away, at any moment. */
  lemma FilesAreFree(s: State, path: Path, sig: FileSig)
    ensures var s' := Step(s, Touch(path, sig));
      s'.Some? && s'.value == s.(disk := s'.value.disk) && path in s'.value.disk && s'.value.disk[path] == sig
      && forall p | p != path :: (p in s'.value.disk <==> p in s.disk) && (p in s.disk ==> s'.value.disk[p] == s.disk[p])
    ensures var s' := Step(s, Delete(path));
      s'.Some? && s'.value == s.(disk := s'.value.disk) && path !in s'.value.disk
      && forall p | p != path :: (p in s'.value.disk <==> p in s.disk) && (p in s.disk ==> s'.value.disk[p] == s.disk[p])
  {}

  // -------------------------------------------------------- what one step of a call does

  function Lookup(residents: Residents, key: Path): Option<Resident> {
    if key in residents then Some(residents[key]) else None
  }

  /** How a call came into its new phase, and what that did to the map. */
  ghost predicate Narrates(s: State, call: Call, s': State) {
    call in s.calls && call in s'.calls && s'.calls == s.calls[call := s'.calls[call]]
    && s'.disk == s.disk && s'.opensOnRun == s.opensOnRun
    && var f := s.calls[call];
       match s'.calls[call]
       case Start => false
       case Keyed(key) => f.Start? && s'.residents == s.residents
       case Snapped(key, seen) =>
         f == Keyed(key) && !call.purpose.Close? && seen == Lookup(s.residents, key) && s'.residents == s.residents
       case Reopening(key, seen) =>
         f == Snapped(key, seen) && s'.residents == s.residents
         && (if seen.Some? then key in s.disk && s.disk[key] != seen.value.sig else Creates(s, call))
       case SigRead(key, seen, sig) =>
         f == Reopening(key, seen) && key in s.disk && sig == s.disk[key] && s'.residents == s.residents
       case Opened(key, seen, sig, db) =>
         f == SigRead(key, seen, sig) && key in s.disk && db.source == s.disk[key] && s'.residents == s.residents
       case Returned(key, db) =>
         || (f.Snapped? && f.key == key && f.seen.Some? && f.seen.value.db == db && s'.residents == s.residents
             && key in s.disk && s.disk[key] == f.seen.value.sig)
         || (f.Opened? && f.key == key
             && Reconciled(s.residents, key, f.seen, Creates(s, call), f.sig, f.db) == (s'.residents, Some(db)))
       case Done =>
         call.purpose.Close? && (f.Start? || f.Keyed?)
         && s'.residents == if f.Keyed? then s.residents - {f.key} else s.residents
       case Failed => s'.residents == s.residents
  }

  lemma CallNarrates(s: State, call: Call, canonical: Option<Path>, s': State)
    requires call in s.calls && CallStep(s, call, s.calls[call], canonical) == Some(s')
    ensures Narrates(s, call, s')
  {
    hide Reconciled;
    match s.calls[call]
    case Start => assert Narrates(s, call, s');
    case Keyed(key) => assert Narrates(s, call, s');
    case Snapped(key, seen) => assert Narrates(s, call, s');
    case Reopening(key, seen) => assert Narrates(s, call, s');
    case SigRead(key, seen, sig) => assert Narrates(s, call, s');
    case Opened(key, seen, sig, db) => ReconcileNarrates(s, call, canonical, s');
  }

  lemma ReconcileNarrates(s: State, call: Call, canonical: Option<Path>, s': State)
    requires call in s.calls && s.calls[call].Opened? && CallStep(s, call, s.calls[call], canonical) == Some(s')
    ensures Narrates(s, call, s')
  {}

  // ------------------------------------------------- a handle was in the map meanwhile

  /** At the moment after `actions`, the call is under way or has just answered, and `db`
      is the entry for `key`. */
  ghost predicate InMap(s0: State, actions: seq<Action>, call: Call, key: Path, db: Database) {
    var now := After(s0, actions);
    now.Some? && call in now.value.calls && key in now.value.residents && now.value.residents[key].db == db
  }

  /** At some moment since the call began, `db` was the entry for `key`. */
  ghost predicate WasInMap(s0: State, actions: seq<Action>, call: Call, key: Path, db: Database) {
    exists i | 0 <= i <= |actions| :: InMap(s0, actions[..i], call, key, db)
  }

  lemma InMapNow(s0: State, actions: seq<Action>, call: Call, key: Path, db: Database)
    requires InMap(s0, actions, call, key, db)
    ensures WasInMap(s0, actions, call, key, db)
  {
    hide InMap;
    assert actions[..|actions|] == actions;
  }

  lemma InMapBefore(s0: State, actions: seq<Action>, call: Call, key: Path, db: Database)
    requires |actions| > 0 && WasInMap(s0, actions[..|actions| - 1], call, key, db)
    ensures WasInMap(s0, actions, call, key, db)
  {
    hide InMap;
    var n := |actions| - 1;
    var i :| 0 <= i <= n && InMap(s0, actions[..n][..i], call, key, db);
    assert actions[..n][..i] == actions[..i];
  }

  function Seen(phase: Phase): Option<Resident> {
    match phase
    case Snapped(_, seen) => seen
    case Reopening(_, seen) => seen
    case SigRead(_, seen, _) => seen
    case Opened(_, seen, _, _) => seen
    case _ => None
  }

  predicate HasKey(phase: Phase) {
    !phase.Start? && !phase.Done? && !phase.Failed?
  }

  /** What a call observed, and what it answers, was in the map during the call. */
  ghost predicate Witnessed(s0: State, actions: seq<Action>, call: Call, phase: Phase) {
    && (HasKey(phase) && Seen(phase).Some? ==> WasInMap(s0, actions, call, phase.key, Seen(phase).value.db))
    && (phase.Returned? ==> WasInMap(s0, actions, call, phase.key, phase.db))
  }

  /** Every answer of an open or a run is a database that was the host's entry for its
      key at some moment of that very call. */
  lemma {:induction false} AnswersWereResident(s0: State, actions: seq<Action>)
    requires Initial(s0) && After(s0, actions).Some?
    ensures forall c <- After(s0, actions).value.calls :: Witnessed(s0, actions, c, After(s0, actions).value.calls[c])
  {
    hide WasInMap, CallStep;
    if |actions| > 0 {
      var n := |actions| - 1;
      var s, s' := After(s0, actions[..n]).value, After(s0, actions).value;
      AnswersWereResident(s0, actions[..n]);
      if actions[n].Advance? {
        CallNarrates(s, actions[n].call, actions[n].canonical, s');
      }
      forall c <- s'.calls ensures Witnessed(s0, actions, c, s'.calls[c]) {
        if c in s.calls && s'.calls[c] == s.calls[c] {
          StillWitnessed(s0, actions, c, s.calls[c]);
        } else if actions[n].Advance? && c == actions[n].call {
          StillWitnessed(s0, actions, c, s.calls[c]);
          StepWitnessed(s0, actions, s, c, s');
        }
      }
    }
  }

  lemma StillWitnessed(s0: State, actions: seq<Action>, c: Call, phase: Phase)
    requires |actions| > 0 && Witnessed(s0, actions[..|actions| - 1], c, phase)
    ensures Witnessed(s0, actions, c, phase)
  {
    hide WasInMap;
    var n := |actions| - 1;
    if HasKey(phase) && Seen(phase).Some? {
      InMapBefore(s0, actions, c, phase.key, Seen(phase).value.db);
    }
    if phase.Returned? {
      InMapBefore(s0, actions, c, phase.key, phase.db);
    }
  }

  lemma StepWitnessed(s0: State, actions: seq<Action>, s: State, c: Call, s': State)
    requires |actions| > 0 && After(s0, actions[..|actions| - 1]) == Some(s) && After(s0, actions) == Some(s')
    requires c in s.calls && Witnessed(s0, actions, c, s.calls[c])
    requires actions[|actions| - 1].Advance? && actions[|actions| - 1].call == c
    ensures c in s'.calls && Witnessed(s0, actions, c, s'.calls[c])
  {
    hide WasInMap, CallStep;
    CallNarrates(s, c, actions[|actions| - 1].canonical, s');
    match s'.calls[c]
    case Snapped(key, seen) =>
      if seen.Some? {
        InMapNow(s0, actions, c, key, seen.value.db);
      }
    case Returned(key, db) =>
      if s.calls[c].Opened? {
        InMapNow(s0, actions, c, key, db);
      }
    case _ =>
  }

  // ------------------------------------------------------------- the key a path is given

  /** At the moment after `actions`, the call has yet to look for its key, and the key is
      its own path if the host has that open, else what canonicalising it answers. */
  ghost predicate TakesKey(s0: State, actions: seq<Action>, call: Call, canonical: Option<Path>, key: Option<Path>) {
    var now := After(s0, actions);
    && now.Some? && call in now.value.calls && now.value.calls[call] == Start
    && key == if call.path in now.value.residents then Some(call.path) else canonical
  }

  /** At some moment of the run the call took that key, canonicalising having answered so. */
  ghost predicate TookKey(s0: State, actions: seq<Action>, call: Call, canonical: Option<Path>, key: Option<Path>) {
    exists i | 0 <= i < |actions| :: actions[i] == Advance(call, canonical) && TakesKey(s0, actions[..i], call, canonical, key)
  }

  lemma TookKeyLater(s0: State, actions: seq<Action>, later: seq<Action>, call: Call, canonical: Option<Path>, key: Option<Path>)
    requires actions <= later && TookKey(s0, actions, call, canonical, key)
    ensures TookKey(s0, later, call, canonical, key)
  {
    hide TakesKey;
    var i :| 0 <= i < |actions| && actions[i] == Advance(call, canonical) && TakesKey(s0, actions[..i], call, canonical, key);
    assert later[..i] == actions[..i] && later[i] == actions[i];
  }

  lemma TakesKeyNow(s0: State, actions: seq<Action>, call: Call, canonical: Option<Path>, key: Option<Path>)
    requires TakesKey(s0, actions, call, canonical, key)
    ensures TookKey(s0, actions + [Advance(call, canonical)], call, canonical, key)
  {
    hide TakesKey;
    var later := actions + [Advance(call, canonical)];
    assert later[..|actions|] == actions && later[|actions|] == Advance(call, canonical);
  }

  lemma TookKeyLast(s0: State, actions: seq<Action>, call: Call, canonical: Option<Path>, key: Option<Path>)
    requires |actions| > 0 && TookKey(s0, actions, call, canonical, key)
    ensures var n := |actions| - 1;
      || TookKey(s0, actions[..n], call, canonical, key)
      || (actions[n] == Advance(call, canonical) && TakesKey(s0, actions[..n], call, canonical, key))
  {
    hide TakesKey;
    var n := |actions| - 1;
    var i :| 0 <= i < |actions| && actions[i] == Advance(call, canonical) && TakesKey(s0, actions[..i], call, canonical, key);
    if i < n {
      assert actions[..n][..i] == actions[..i];
    }
  }

  /** The keys a call can have taken are the one it has; before its first step, none. */
  ghost predicate KeyTaken(s0: State, actions: seq<Action>, c: Call, phase: Phase) {
    && (phase.Start? ==> forall canonical, key :: !TookKey(s0, actions, c, canonical, key))
    && (HasKey(phase) ==>
          && (exists canonical :: TookKey(s0, actions, c, canonical, Some(phase.key)))
          && (forall canonical, key :: TookKey(s0, actions, c, canonical, key) ==> key == Some(phase.key)))
  }

  /** Nobody who has not begun has taken a key. */
  ghost predicate NoKeyYet(s0: State, actions: seq<Action>, s: State) {
    forall c, canonical, key :: TookKey(s0, actions, c, canonical, key) ==> c in s.calls
  }

  lemma KeyStaysTaken(s0: State, actions: seq<Action>, c: Call, phase: Phase)
    requires |actions| > 0 && KeyTaken(s0, actions[..|actions| - 1], c, phase)
    requires !(actions[|actions| - 1].Advance? && actions[|actions| - 1].call == c)
    ensures KeyTaken(s0, actions, c, phase)
  {
    hide TookKey, TakesKey;
    var before := actions[..|actions| - 1];
    forall canonical, key | TookKey(s0, actions, c, canonical, key) ensures TookKey(s0, before, c, canonical, key) {
      TookKeyLast(s0, actions, c, canonical, key);
    }
    forall canonical, key | TookKey(s0, before, c, canonical, key) ensures TookKey(s0, actions, c, canonical, key) {
      TookKeyLater(s0, before, actions, c, canonical, key);
    }
  }

  lemma OwnKeyTaken(s0: State, actions: seq<Action>, s: State, c: Call, canonical: Option<Path>, s': State)
    requires |actions| > 0 && actions[|actions| - 1] == Advance(c, canonical)
    requires After(s0, actions[..|actions| - 1]) == Some(s) && Step(s, Advance(c, canonical)) == Some(s')
    requires c in s.calls && KeyTaken(s0, actions[..|actions| - 1], c, s.calls[c])
    ensures c in s'.calls && KeyTaken(s0, actions, c, s'.calls[c])
  {
    hide TookKey, CallStep, After;
    var before, f := actions[..|actions| - 1], s.calls[c];
    assert actions == before + [Advance(c, canonical)];
    CallNarrates(s, c, canonical, s');
    forall other, key | TookKey(s0, actions, c, other, key)
      ensures TookKey(s0, before, c, other, key) || (other == canonical && TakesKey(s0, before, c, canonical, key))
    {
      TookKeyLast(s0, actions, c, other, key);
    }
    if f.Start? {
      KeyStep(s, c, canonical, s');
      if s'.calls[c].Keyed? {
        TakesKeyNow(s0, before, c, canonical, Some(s'.calls[c].key));
      }
    } else if HasKey(f) && HasKey(s'.calls[c]) {
      var other :| TookKey(s0, before, c, other, Some(f.key));
      TookKeyLater(s0, before, actions, c, other, Some(f.key));
    }
  }

  /** The first step of a call: a path the host has open is used as it is, whatever
      canonicalising it would answer; any other gets its canonical form; and where there is
      none, a close is done and anything else fails. */
  lemma KeyStep(s: State, call: Call, canonical: Option<Path>, s': State)
    requires call in s.calls && s.calls[call] == Start && Step(s, Advance(call, canonical)) == Some(s')
    ensures call in s'.calls && s'.residents == s.residents
    ensures call.path in s.residents ==> s'.calls[call] == Keyed(call.path)
    ensures call.path !in s.residents && canonical.Some? ==> s'.calls[call] == Keyed(canonical.value)
    ensures call.path !in s.residents && canonical.None? ==> s'.calls[call] == if call.purpose.Close? then Done else Failed
  {}

  lemma {:induction false} RunsTakeKeys(s0: State, actions: seq<Action>)
    requires Initial(s0) && After(s0, actions).Some?
    ensures var s := After(s0, actions).value;
      NoKeyYet(s0, actions, s) && forall c <- s.calls :: KeyTaken(s0, actions, c, s.calls[c])
  {
    hide TookKey, CallStep, KeyTaken;
    if |actions| == 0 {
      NoKeysAtFirst(s0);
    } else {
      var n := |actions| - 1;
      var a, s, s' := actions[n], After(s0, actions[..n]).value, After(s0, actions).value;
      RunsTakeKeys(s0, actions[..n]);
      CallsStay(s, a, s');
      forall c, canonical, key | TookKey(s0, actions, c, canonical, key) ensures c in s'.calls {
        TookKeyLast(s0, actions, c, canonical, key);
      }
      forall c <- s'.calls ensures KeyTaken(s0, actions, c, s'.calls[c]) {
        if a.Advance? && a.call == c {
          OwnKeyTaken(s0, actions, s, c, a.canonical, s');
        } else if c in s.calls && s'.calls[c] == s.calls[c] {
          KeyStaysTaken(s0, actions, c, s.calls[c]);
        } else {
          NothingTaken(s0, actions, s, c, s'.calls[c]);
        }
      }
    }
  }

  lemma NoKeysAtFirst(s0: State)
    requires Initial(s0)
    ensures NoKeyYet(s0, [], s0) && forall c <- s0.calls :: KeyTaken(s0, [], c, s0.calls[c])
  {}

  lemma CallsStay(s: State, a: Action, s': State)
    requires Step(s, a) == Some(s')
    ensures s.calls.Keys <= s'.calls.Keys
    ensures forall c <- s'.calls :: !(a.Advance? && a.call == c) ==>
      (c in s.calls && s'.calls[c] == s.calls[c]) || s'.calls[c].Failed? || (c !in s.calls && s'.calls[c].Start?)
  {
    hide CallStep;
    if a.Advance? {
      CallNarrates(s, a.call, a.canonical, s');
    }
  }

  lemma NothingTaken(s0: State, actions: seq<Action>, s: State, c: Call, phase: Phase)
    requires |actions| > 0 && NoKeyYet(s0, actions[..|actions| - 1], s)
    requires phase.Failed? || (c !in s.calls && phase.Start?)
    requires !(actions[|actions| - 1].Advance? && actions[|actions| - 1].call == c)
    ensures KeyTaken(s0, actions, c, phase)
  {
    hide TookKey, TakesKey;
    if phase.Start? {
      forall canonical, key ensures !TookKey(s0, actions, c, canonical, key) {
        if TookKey(s0, actions, c, canonical, key) {
          TookKeyLast(s0, actions, c, canonical, key);
        }
      }
    }
  }

  /** Over every run: a call that has a key took it, as its own path, which the host then
      had open, or as the answer its canonicalising gave. */
  lemma KeysAreTaken(s0: State, actions: seq<Action>, c: Call) returns (canonical: Option<Path>)
    requires Initial(s0) && After(s0, actions).Some?
    requires var s := After(s0, actions).value; c in s.calls && HasKey(s.calls[c])
    ensures TookKey(s0, actions, c, canonical, Some(After(s0, actions).value.calls[c].key))
  {
    hide TookKey, After, Initial;
    RunsTakeKeys(s0, actions);
    assert KeyTaken(s0, actions, c, After(s0, actions).value.calls[c]);
    canonical :| TookKey(s0, actions, c, canonical, Some(After(s0, actions).value.calls[c].key));
  }

  /** Two paths of one file, neither open under its own spelling when it was looked up,
      are given one key: the file's canonical form. */
  lemma OneFileOneKey(s0: State, actions: seq<Action>, c: Call, d: Call, i: nat, j: nat, canonical: Path)
    requires Initial(s0) && After(s0, actions).Some? && i < |actions| && j < |actions|
    requires actions[i] == Advance(c, Some(canonical)) && actions[j] == Advance(d, Some(canonical))
    requires After(s0, actions[..i]).Some? && After(s0, actions[..j]).Some?
    requires var s := After(s0, actions[..i]).value; c in s.calls && s.calls[c].Start? && c.path !in s.residents
    requires var s := After(s0, actions[..j]).value; d in s.calls && s.calls[d].Start? && d.path !in s.residents
    requires var s := After(s0, actions).value; c in s.calls && HasKey(s.calls[c]) && d in s.calls && HasKey(s.calls[d])
    ensures var s := After(s0, actions).value; s.calls[c].key == s.calls[d].key == canonical
  {
    hide After, Initial;
    var s := After(s0, actions).value;
    assert TookKey(s0, actions, c, Some(canonical), Some(canonical));
    assert TookKey(s0, actions, d, Some(canonical), Some(canonical));
    hide TookKey;
    RunsTakeKeys(s0, actions);
    assert KeyTaken(s0, actions, c, s.calls[c]) && KeyTaken(s0, actions, d, s.calls[d]);
  }

  // -------------------------------------------------------------- who changes the map

  /** What one step can do to the entry of a key. */
  lemma StepChanges(s: State, a: Action, s': State, key: Path)
    requires Step(s, a) == Some(s')
    ensures Lookup(s'.residents, key) != Lookup(s.residents, key) && key in s'.residents ==>
      && a.Advance? && a.call in s.calls && s.calls[a.call].Opened? && s.calls[a.call].key == key
      && s'.residents[key] == Resident(s.calls[a.call].sig, s.calls[a.call].db)
      && (if key in s.residents
          then s.calls[a.call].seen.Some? && s.calls[a.call].seen.value.db.id == s.residents[key].db.id
          else Creates(s, a.call) || s.calls[a.call].seen.None?)
    ensures key in s.residents && key !in s'.residents ==>
      a.Advance? && a.call.purpose.Close? && a.call in s.calls && s.calls[a.call] == Keyed(key)
  {}

  /** A call that saw nothing gets past its first look only if it may open. */
  ghost predicate MayOpen(s: State) {
    forall c <- s.calls :: !c.purpose.Close? && !Creates(s, c) ==>
      (s.calls[c].Reopening? || s.calls[c].SigRead? || s.calls[c].Opened? ==> Seen(s.calls[c]).Some?)
  }

  ghost predicate ClosersOnlyClose(s: State) {
    forall c <- s.calls :: c.purpose.Close? ==>
      s.calls[c].Start? || s.calls[c].Keyed? || s.calls[c].Done? || s.calls[c].Failed?
  }

  lemma MayOpenKept(s: State, a: Action, s': State)
    requires MayOpen(s) && ClosersOnlyClose(s) && Step(s, a) == Some(s')
    ensures MayOpen(s') && ClosersOnlyClose(s') && s'.opensOnRun == s.opensOnRun
  {
    hide Reconciled, CallStep;
    if a.Advance? {
      CallNarrates(s, a.call, a.canonical, s');
    }
  }

  lemma {:induction false} OnlyOpenersOpen(s0: State, actions: seq<Action>)
    requires Initial(s0) && After(s0, actions).Some?
    ensures var s := After(s0, actions).value; MayOpen(s) && ClosersOnlyClose(s) && s.opensOnRun == s0.opensOnRun
  {
    hide Step, MayOpen, ClosersOnlyClose;
    if |actions| > 0 {
      var n := |actions| - 1;
      OnlyOpenersOpen(s0, actions[..n]);
      MayOpenKept(After(s0, actions[..n]).value, actions[n], After(s0, actions).value);
    } else {
      NobodyYet(s0);
    }
  }

  lemma NobodyYet(s0: State)
    requires Initial(s0)
    ensures MayOpen(s0) && ClosersOnlyClose(s0)
  {}

  /** In an explicit host only an open ever adds an entry: a run of what is not open
      fails, or uses what is there. */
  lemma RunNeverAdds(s0: State, actions: seq<Action>, a: Action, key: Path)
    requires Initial(s0) && !s0.opensOnRun && After(s0, actions).Some?
    requires Step(After(s0, actions).value, a).Some?
    ensures var s := After(s0, actions).value; var s' := Step(s, a).value;
      key !in s.residents && key in s'.residents ==> a.Advance? && a.call.purpose.Open?
  {
    hide After;
    OnlyOpenersOpen(s0, actions);
    StepChanges(After(s0, actions).value, a, Step(After(s0, actions).value, a).value, key);
  }

  /** Once closed, a key stays closed in an explicit host until somebody opens: work
      already under way cannot bring it back. */
  lemma {:induction false} ClosedStaysClosed(s0: State, actions: seq<Action>, more: seq<Action>, key: Path)
    requires Initial(s0) && !s0.opensOnRun && After(s0, actions + more).Some?
    requires After(s0, actions).Some? && key !in After(s0, actions).value.residents
    requires forall a <- more :: a.Advance? ==> !a.call.purpose.Open?
    ensures key !in After(s0, actions + more).value.residents
  {
    hide After, Step;
    var n := |more| - 1;
    if n < 0 {
      assert actions + more == actions;
    } else {
      assert (actions + more)[..|actions| + n] == actions + more[..n];
      AfterLast(s0, actions + more);
      ClosedStaysClosed(s0, actions, more[..n], key);
      RunNeverAdds(s0, actions + more[..n], more[n], key);
    }
  }

  lemma AfterLast(s0: State, actions: seq<Action>)
    requires |actions| > 0 && After(s0, actions).Some?
    ensures var n := |actions| - 1;
      After(s0, actions[..n]).Some? && After(s0, actions) == Step(After(s0, actions[..n]).value, actions[n])
  {}

  // --------------------------------------------------------- an entry is known by its id

  /** The map or a call under way holds the entry. */
  ghost predicate Known(s: State, r: Resident) {
    InMapOf(s, r) || SeenBySome(s, r)
  }

  ghost predicate InMapOf(s: State, r: Resident) {
    exists key <- s.residents :: s.residents[key] == r
  }

  ghost predicate SeenBySome(s: State, r: Resident) {
    exists c <- s.calls :: Seen(s.calls[c]) == Some(r)
  }

  /** No entry has the id, which was given out. */
  ghost predicate Unstored(s: State, id: nat) {
    id < s.nextId && forall r {:trigger Known(s, r)} :: Known(s, r) ==> r.db.id != id
  }

  /** Ids identify entries: no two entries share one, and a database that was opened but
      not stored has one of its own. */
  ghost predicate IdsIdentify(s: State) {
    && (forall r {:trigger Known(s, r)} :: Known(s, r) ==> r.db.id < s.nextId)
    && (forall r, q {:trigger Known(s, r), Known(s, q)} :: Known(s, r) && Known(s, q) && r.db.id == q.db.id ==> r == q)
    && (forall c <- s.calls :: s.calls[c].Opened? ==> Unstored(s, s.calls[c].db.id))
    && (forall c <- s.calls, d <- s.calls :: s.calls[c].Opened? && s.calls[d].Opened? && c != d ==>
          s.calls[c].db.id != s.calls[d].db.id)
  }

  /** The entry an opened call would store. */
  function Own(phase: Phase): Resident
    requires phase.Opened?
  {
    Resident(phase.sig, phase.db)
  }

  /** A step makes no entry known but the one its call had opened, and no call opened
      but its own. */
  ghost predicate KnowsNoMore(s: State, a: Action, s': State) {
    && s.nextId <= s'.nextId
    && (forall r {:trigger Known(s', r)} :: Known(s', r) ==>
          Known(s, r)
          || (a.Advance? && a.call in s.calls && s.calls[a.call].Opened? && r == Own(s.calls[a.call])
              && a.call in s'.calls && !s'.calls[a.call].Opened?))
    && (forall c <- s'.calls :: s'.calls[c].Opened? ==>
          || (c in s.calls && s'.calls[c] == s.calls[c])
          || (s'.calls[c].db.id == s.nextId < s'.nextId
              && forall d <- s'.calls :: d != c ==> d in s.calls && s'.calls[d] == s.calls[d]))
  }

  lemma StepKnows(s: State, a: Action, s': State)
    requires Step(s, a) == Some(s')
    ensures KnowsNoMore(s, a, s')
  {
    forall r {:trigger Known(s', r)} | Known(s', r) && !Known(s, r)
      ensures a.Advance? && a.call in s.calls && s.calls[a.call].Opened? && r == Own(s.calls[a.call])
           && a.call in s'.calls && !s'.calls[a.call].Opened?
    {
      NewlyKnown(s, a, s', r);
    }
    IdsGrow(s, a, s');
  }

  lemma IdsGrow(s: State, a: Action, s': State)
    requires Step(s, a) == Some(s')
    ensures s.nextId <= s'.nextId
    ensures forall c <- s'.calls :: s'.calls[c].Opened? ==>
      || (c in s.calls && s'.calls[c] == s.calls[c])
      || (s'.calls[c].db.id == s.nextId < s'.nextId
          && forall d <- s'.calls :: d != c ==> d in s.calls && s'.calls[d] == s.calls[d])
  {
    hide Reconciled;
  }

  lemma SeenWasKnown(s: State, a: Action, s': State, r: Resident)
    requires Step(s, a) == Some(s') && SeenBySome(s', r)
    ensures Known(s, r)
  {
    hide CallStep;
    if a.Advance? {
      CallNarrates(s, a.call, a.canonical, s');
    }
    var c :| c in s'.calls && Seen(s'.calls[c]) == Some(r);
    if c in s.calls && Seen(s.calls[c]) == Some(r) {
      assert SeenBySome(s, r);
    } else {
      assert InMapOf(s, r);
    }
  }

  lemma NewlyKnown(s: State, a: Action, s': State, r: Resident)
    requires Step(s, a) == Some(s') && Known(s', r) && !Known(s, r)
    ensures a.Advance? && a.call in s.calls && s.calls[a.call].Opened? && r == Own(s.calls[a.call])
    ensures a.call in s'.calls && !s'.calls[a.call].Opened?
  {
    hide CallStep;
    if a.Advance? {
      CallNarrates(s, a.call, a.canonical, s');
    }
    if InMapOf(s', r) {
      var key :| key in s'.residents && s'.residents[key] == r;
      assert key in s.residents ==> InMapOf(s, s.residents[key]);
      StepChanges(s, a, s', key);
    } else {
      SeenWasKnown(s, a, s', r);
    }
  }

  lemma IdsKept(s: State, a: Action, s': State)
    requires IdsIdentify(s) && KnowsNoMore(s, a, s')
    ensures IdsIdentify(s')
  {
    hide Known;
    forall c <- s'.calls | s'.calls[c].Opened? ensures Unstored(s', s'.calls[c].db.id) {
    }
  }

  lemma {:induction false} RunsIdentify(s0: State, actions: seq<Action>)
    requires Initial(s0) && After(s0, actions).Some?
    ensures IdsIdentify(After(s0, actions).value)
  {
    hide Step, IdsIdentify, KnowsNoMore;
    if |actions| > 0 {
      var n := |actions| - 1;
      RunsIdentify(s0, actions[..n]);
      StepKnows(After(s0, actions[..n]).value, actions[n], After(s0, actions).value);
      IdsKept(After(s0, actions[..n]).value, actions[n], After(s0, actions).value);
    } else {
      NothingKnown(s0);
    }
  }

  lemma NothingKnown(s0: State)
    requires Initial(s0)
    ensures IdsIdentify(s0)
  {}

  // ------------------------------------------------------------ what changes in a run

  /** At the moment after `actions`, the call compares the entry it saw with the file, and
      they differ. */
  ghost predicate ComparesStale(s0: State, actions: seq<Action>, call: Call, key: Path, seen: Resident) {
    var now := After(s0, actions);
    && now.Some? && call in now.value.calls && now.value.calls[call] == Snapped(key, Some(seen))
    && key in now.value.disk && now.value.disk[key] != seen.sig
  }

  /** At some moment so far the call found the entry stale. */
  ghost predicate FoundStale(s0: State, actions: seq<Action>, call: Call, key: Path, seen: Resident) {
    exists i | 0 <= i <= |actions| :: ComparesStale(s0, actions[..i], call, key, seen)
  }

  lemma FoundStaleBefore(s0: State, actions: seq<Action>, call: Call, key: Path, seen: Resident)
    requires |actions| > 0 && FoundStale(s0, actions[..|actions| - 1], call, key, seen)
    ensures FoundStale(s0, actions, call, key, seen)
  {
    hide ComparesStale;
    var n := |actions| - 1;
    var i :| 0 <= i <= n && ComparesStale(s0, actions[..n][..i], call, key, seen);
    assert actions[..n][..i] == actions[..i];
  }

  predicate Reopens(phase: Phase) {
    phase.Reopening? || phase.SigRead? || phase.Opened?
  }

  /** Who reopens what it saw has found it stale. */
  lemma {:induction false} ReopensOnlyStale(s0: State, actions: seq<Action>)
    requires Initial(s0) && After(s0, actions).Some?
    ensures var s := After(s0, actions).value;
      forall c <- s.calls :: Reopens(s.calls[c]) && Seen(s.calls[c]).Some? ==>
        FoundStale(s0, actions, c, s.calls[c].key, Seen(s.calls[c]).value)
  {
    hide FoundStale, CallStep;
    if |actions| > 0 {
      var n := |actions| - 1;
      var s, s' := After(s0, actions[..n]).value, After(s0, actions).value;
      ReopensOnlyStale(s0, actions[..n]);
      if actions[n].Advance? {
        CallNarrates(s, actions[n].call, actions[n].canonical, s');
      }
      forall c <- s'.calls | Reopens(s'.calls[c]) && Seen(s'.calls[c]).Some?
        ensures FoundStale(s0, actions, c, s'.calls[c].key, Seen(s'.calls[c]).value)
      {
        var key, seen := s'.calls[c].key, Seen(s'.calls[c]).value;
        if Reopens(s.calls[c]) {
          FoundStaleBefore(s0, actions, c, key, seen);
        } else {
          FoundStaleNow(s0, actions, c, key, seen);
        }
      }
    }
  }

  lemma FoundStaleNow(s0: State, actions: seq<Action>, call: Call, key: Path, seen: Resident)
    requires |actions| > 0 && ComparesStale(s0, actions[..|actions| - 1], call, key, seen)
    ensures FoundStale(s0, actions, call, key, seen)
  {}

  /** Over any run: an entry is replaced only by a call that saw that very entry and then
      found it stale, by what that call opened since; one is added only by what a call that
      may open has opened; one is removed only by a close of its key. */
  lemma ChangesAreAllowed(s0: State, actions: seq<Action>, a: Action, key: Path)
    requires Initial(s0) && After(s0, actions).Some? && Step(After(s0, actions).value, a).Some?
    ensures var s := After(s0, actions).value;
      var s' := Step(s, a).value;
      && (key in s'.residents && Lookup(s'.residents, key) != Lookup(s.residents, key) ==>
            && a.Advance? && a.call in s.calls && s.calls[a.call].Opened? && s.calls[a.call].key == key
            && s'.residents[key] == Own(s.calls[a.call]) && Unstored(s, s'.residents[key].db.id)
            && (if key in s.residents
                then s.calls[a.call].seen == Some(s.residents[key])
                     && FoundStale(s0, actions, a.call, key, s.residents[key])
                else Creates(s, a.call)))
      && (key in s.residents && key !in s'.residents ==>
            a.Advance? && a.call.purpose.Close? && a.call in s.calls && s.calls[a.call] == Keyed(key))
  {
    hide After, FoundStale, Step;
    var s := After(s0, actions).value;
    var s' := Step(s, a).value;
    StepChanges(s, a, s', key);
    OnlyOpenersOpen(s0, actions);
    RunsIdentify(s0, actions);
    ReopensOnlyStale(s0, actions);
    if key in s'.residents && Lookup(s'.residents, key) != Lookup(s.residents, key) {
      var f := s.calls[a.call];
      if key in s.residents {
        assert InMapOf(s, s.residents[key]) && Known(s, s.residents[key]);
        assert SeenBySome(s, f.seen.value) && Known(s, f.seen.value);
      }
    }
  }

  /** And whoever changes an entry, a close among them, does so under the key it took for
      its own path. */
  lemma ChangesUnderOwnKey(s0: State, actions: seq<Action>, a: Action, key: Path)
    requires Initial(s0) && After(s0, actions).Some? && Step(After(s0, actions).value, a).Some?
    requires Lookup(Step(After(s0, actions).value, a).value.residents, key) != Lookup(After(s0, actions).value.residents, key)
    ensures a.Advance? && exists canonical :: TookKey(s0, actions, a.call, canonical, Some(key))
  {
    hide After, Step, TookKey, Initial;
    var s := After(s0, actions).value;
    StepChanges(s, a, Step(s, a).value, key);
    RunsTakeKeys(s0, actions);
    assert KeyTaken(s0, actions, a.call, s.calls[a.call]);
  }

  // ------------------------------------------------------------- cold opens share a handle

  /** The key has no entry, and no call for it has looked yet. */
  ghost predicate Cold(s: State, key: Path) {
    key !in s.residents
    && forall c <- s.calls :: Live(s.calls[c]) && HasKey(s.calls[c]) && s.calls[c].key == key ==> s.calls[c].Keyed?
  }

  /** The step neither changes the file at `key` nor closes the key. */
  ghost predicate Untouched(s: State, key: Path, a: Action) {
    && (a.Touch? ==> a.path != key) && (a.Delete? ==> a.path != key)
    && (a.Advance? && a.call in s.calls && a.call.purpose.Close? ==> s.calls[a.call] != Keyed(key))
  }

  ghost predicate Undisturbed(s0: State, actions: seq<Action>, key: Path) {
    if |actions| == 0 then true
    else
      var n := |actions| - 1;
      && Undisturbed(s0, actions[..n], key)
      && (After(s0, actions[..n]).Some? ==> Untouched(After(s0, actions[..n]).value, key, actions[n]))
  }

  function FileAt(s: State, key: Path): Option<FileSig> {
    if key in s.disk then Some(s.disk[key]) else None
  }

  /** Everything known about `key` carries the file's one signature, and whoever has a
      database for it has the resident one, those aside who had finished before. */
  ghost predicate Shared(s: State, key: Path, sig: Option<FileSig>, finished: set<Call>) {
    && FileAt(s, key) == sig
    && (key in s.residents ==> Some(s.residents[key].sig) == sig)
    && (forall c <- finished :: c in s.calls && !Live(s.calls[c]))
    && forall c <- s.calls :: c !in finished && HasKey(s.calls[c]) && s.calls[c].key == key ==>
         && (Seen(s.calls[c]).Some? ==>
               key in s.residents && s.residents[key] == Seen(s.calls[c]).value && s.calls[c].Snapped?)
         && (s.calls[c].SigRead? || s.calls[c].Opened? ==> Some(s.calls[c].sig) == sig)
         && (s.calls[c].Returned? ==> key in s.residents && s.residents[key].db == s.calls[c].db)
  }

  lemma SharedKept(s: State, a: Action, s': State, key: Path, sig: Option<FileSig>, finished: set<Call>)
    requires Shared(s, key, sig, finished) && Untouched(s, key, a) && Step(s, a) == Some(s')
    ensures Shared(s', key, sig, finished)
  {
    hide CallStep;
    if a.Advance? {
      FinishedStay(s, a, s');
      CallNarrates(s, a.call, a.canonical, s');
    }
  }

  lemma FinishedStay(s: State, a: Action, s': State)
    requires Step(s, a) == Some(s')
    ensures forall c <- s.calls :: !Live(s.calls[c]) ==> c in s'.calls && s'.calls[c] == s.calls[c]
  {
    hide Reconciled;
    if a.Advance? {
      assert s'.calls == s.calls[a.call := s'.calls[a.call]];
    }
  }

  lemma {:induction false} RunsShare(s0: State, actions: seq<Action>, key: Path)
    requires Cold(s0, key) && After(s0, actions).Some? && Undisturbed(s0, actions, key)
    ensures Shared(After(s0, actions).value, key, FileAt(s0, key), Finished(s0))
  {
    hide Step, Untouched, Shared;
    if |actions| > 0 {
      var n := |actions| - 1;
      RunsShare(s0, actions[..n], key);
      SharedKept(After(s0, actions[..n]).value, actions[n], After(s0, actions).value, key, FileAt(s0, key), Finished(s0));
    } else {
      NothingShared(s0, key);
    }
  }

  ghost function Finished(s: State): set<Call> {
    set c | c in s.calls && !Live(s.calls[c])
  }

  lemma NothingShared(s0: State, key: Path)
    requires Cold(s0, key)
    ensures Shared(s0, key, FileAt(s0, key), Finished(s0))
  {}

  /** From any moment at which a key is cold, however many threads race to open it, all
      who get an answer from then on get the one database the host keeps, as long as
      nobody changes the file or closes the key. */
  lemma RacersShareOneHandle(s0: State, actions: seq<Action>, key: Path, c: Call)
    requires Cold(s0, key) && After(s0, actions).Some? && Undisturbed(s0, actions, key)
    requires var s := After(s0, actions).value;
      c in s.calls && s.calls[c].Returned? && s.calls[c].key == key && (c in s0.calls ==> Live(s0.calls[c]))
    ensures var s := After(s0, actions).value;
      key in s.residents && s.calls[c].db == s.residents[key].db
  {
    hide After, Undisturbed;
    RunsShare(s0, actions, key);
  }

  // ------------------------------------------------------------------ the code of a call

  /** What surrounds one call: what its path canonicalises to, what the other threads and
      the file system do before each of its steps, and which of its reads fail. */
  datatype Surroundings = Surroundings(canonical: Option<Path>, others: nat -> seq<Action>, fails: nat -> bool)

  /** Nobody else does anything, and no read fails but for a file that is not there. */
  ghost predicate Alone(env: Surroundings) {
    forall n :: env.others(n) == [] && !env.fails(n)
  }

  /** What an open or a run does to a host it has for itself: it goes by its path if the
      host has that open, else by the canonical form; it fails without either, or without
      the file; it reuses an entry that matches the file; it opens the file in place of one
      that does not, and where there is none, if it may; otherwise it fails. */
  ghost predicate ResolvedAlone(s: State, call: Call, canonical: Option<Path>, residents: Residents, answer: Option<(Path, Database)>) {
    if call.path in s.residents then WorkedAlone(s, call, call.path, residents, answer)
    else if canonical.Some? then WorkedAlone(s, call, canonical.value, residents, answer)
    else answer.None? && residents == s.residents
  }

  ghost predicate WorkedAlone(s: State, call: Call, key: Path, residents: Residents, answer: Option<(Path, Database)>) {
    if key !in s.disk || (key !in s.residents && !call.purpose.Open? && !s.opensOnRun) then
      answer.None? && residents == s.residents
    else if key in s.residents && s.residents[key].sig == s.disk[key] then
      answer == Some((key, s.residents[key].db)) && residents == s.residents
    else
      var db := Database(s.nextId, s.disk[key]);
      answer == Some((key, db)) && residents == s.residents[key := Resident(s.disk[key], db)]
  }

  /** A host with everything that happens around it; `residents` is the mutex-guarded map.
      The history is the run so far. */
  class Process {
    const opensOnRun: bool
    var residents: Residents
    var disk: map<Path, FileSig>
    var nextId: nat
    var calls: map<Call, Phase>
    ghost const first: State
    ghost var history: seq<Action>

    function View(): State
      reads this
    {
      State(residents, disk, nextId, opensOnRun, calls)
    }

    ghost predicate Valid()
      reads this
    {
      Initial(first) && After(first, history) == Some(View())
    }

    constructor (disk: map<Path, FileSig>, opensOnRun: bool)
      ensures Valid() && history == [] && View() == State(map[], disk, 0, opensOnRun, map[])
    {
      this.opensOnRun, residents, this.disk, nextId, calls := opensOnRun, map[], disk, 0, map[];
      first := State(map[], disk, 0, opensOnRun, map[]);
      history := [];
    }

    /** Whatever of `actions` is possible and not a step of `mine` happens. */
    method Others(mine: Call, actions: seq<Action>)
      requires Valid() && mine in calls
      modifies this
      ensures Valid() && old(history) <= history
      ensures mine in calls && calls[mine] == old(calls[mine])
      ensures actions == [] ==> View() == old(View()) && history == old(history)
    {
      hide After, CallStep, Initial;
      for i := 0 to |actions|
        invariant Valid() && old(history) <= history
        invariant i == 0 ==> View() == old(View()) && history == old(history)
        invariant mine in calls && calls[mine] == old(calls[mine])
      {
        var a := actions[i];
        if (a.Advance? || a.Err?) && a.call == mine {
          continue;
        }
        var after := Step(View(), a);
        if after.Some? {
          OthersStand(View(), a, after.value, mine);
          Happens(first, history, View(), a, after.value);
          residents, disk, nextId, calls := after.value.residents, after.value.disk, after.value.nextId, after.value.calls;
          history := history + [a];
        }
      }
    }

    /** The second time a call takes the lock. */
    method Reconcile(key: Path, seen: Option<Resident>, create: bool, sig: FileSig, mine: Database)
      returns (db: Option<Database>)
      modifies this`residents
      ensures (residents, db) == Reconciled(old(residents), key, seen, create, sig, mine)
    {
      if key in residents {
        if seen.Some? && residents[key].db.id == seen.value.db.id {
          residents := residents[key := Resident(sig, mine)];
        }
        db := Some(residents[key].db);
      } else if seen.Some? && !create {
        db := None;
      } else {
        residents := residents[key := Resident(sig, mine)];
        db := Some(mine);
      }
    }

    /** The call takes a step that changes nothing but how far it has got. */
    method Move(call: Call, a: Action, phase: Phase)
      requires Valid() && Step(View(), a) == Some(Moved(View(), call, phase))
      modifies this`calls, this`history
      ensures Valid() && history == old(history) + [a]
      ensures calls == old(calls)[call := phase]
    {
      hide After, Step, Initial;
      Happens(first, history, View(), a, Moved(View(), call, phase));
      calls := calls[call := phase];
      history := history + [a];
    }

    /** The key a path is open under: the path itself when it is one, else its canonical
        form. */
    method KeyFor(call: Call, canonical: Option<Path>) returns (key: Option<Path>)
      requires Valid() && call in calls && calls[call] == Start
      modifies this`calls, this`history
      ensures Valid() && history == old(history) + [Advance(call, canonical)]
      ensures key == if call.path in residents then Some(call.path) else canonical
      ensures TookKey(first, history, call, canonical, key)
      ensures calls == old(calls)[call := if key.Some? then Keyed(key.value) else if call.purpose.Close? then Done else Failed]
    {
      hide After, Initial, TookKey;
      key := if call.path in residents then Some(call.path) else canonical;
      TakesKeyNow(first, history, call, canonical, key);
      Move(call, Advance(call, canonical),
           if key.Some? then Keyed(key.value) else if call.purpose.Close? then Done else Failed);
    }

    /** The first look: the entry under the lock, then whether the file still matches it.
        Says with `reuse` what to return at once, or with `failed` that there is nothing. */
    method Look(call: Call, key: Path, create: bool, env: Surroundings)
      returns (seen: Option<Resident>, reuse: bool, failed: bool)
      requires Valid() && call in calls && calls[call] == Keyed(key) && !call.purpose.Close?
      requires create <==> Creates(View(), call)
      modifies this
      ensures Valid() && old(history) <= history && call in calls
      ensures reuse ==> !failed && seen.Some? && calls[call] == Returned(key, seen.value.db)
      ensures failed ==> calls[call] == Failed
      ensures !reuse && !failed ==> calls[call] == Reopening(key, seen)
      ensures Alone(env) ==>
        && residents == old(residents) && disk == old(disk) && nextId == old(nextId) && seen == Lookup(residents, key)
        && (failed <==> if seen.Some? then key !in disk else !create)
        && (reuse <==> seen.Some? && key in disk && disk[key] == seen.value.sig)
    {
      hide After, Initial;
      seen, reuse, failed := Lookup(residents, key), false, false;
      Move(call, Advance(call, None), Snapped(key, seen));
      Others(call, env.others(2));
      match seen {
        case Some(r) =>
          if env.fails(0) {
            Move(call, Action.Err(call), Failed);
            failed := true;
            return;
          }
          if key !in disk {
            Move(call, Advance(call, None), Failed);
            failed := true;
            return;
          }
          if disk[key] == r.sig {
            Move(call, Advance(call, None), Returned(key, r.db));
            reuse := true;
            return;
          }
        case None =>
          if !create {
            Move(call, Advance(call, None), Failed);
            failed := true;
            return;
          }
      }
      Move(call, Advance(call, None), Reopening(key, seen));
    }

    /** Reads the file's signature, then opens the file: both outside the lock. */
    method OpenFile(call: Call, key: Path, seen: Option<Resident>, env: Surroundings)
      returns (read: Option<Resident>)
      requires Valid() && call in calls && calls[call] == Reopening(key, seen)
      modifies this
      ensures Valid() && old(history) <= history && call in calls
      ensures calls[call] == if read.Some? then Phase.Opened(key, seen, read.value.sig, read.value.db) else Failed
      ensures Alone(env) ==>
        && residents == old(residents) && disk == old(disk)
        && read == if key in disk then Some(Resident(disk[key], Database(old(nextId), disk[key]))) else None
    {
      hide After, Initial;
      read := None;
      Others(call, env.others(3));
      if env.fails(1) {
        Move(call, Action.Err(call), Failed);
        return;
      }
      if key !in disk {
        Move(call, Advance(call, None), Failed);
        return;
      }
      var sig := disk[key];
      Move(call, Advance(call, None), SigRead(key, seen, sig));
      read := OpenRead(call, key, seen, sig, env);
    }

    method OpenRead(call: Call, key: Path, seen: Option<Resident>, sig: FileSig, env: Surroundings)
      returns (read: Option<Resident>)
      requires Valid() && call in calls && calls[call] == SigRead(key, seen, sig)
      modifies this
      ensures Valid() && old(history) <= history && call in calls
      ensures calls[call] == if read.Some? then Phase.Opened(key, seen, read.value.sig, read.value.db) else Failed
      ensures Alone(env) ==>
        && residents == old(residents) && disk == old(disk)
        && read == if key in disk then Some(Resident(sig, Database(old(nextId), disk[key]))) else None
    {
      hide After, Initial;
      read := None;
      Others(call, env.others(4));
      if env.fails(2) {
        Move(call, Action.Err(call), Failed);
        return;
      }
      if key !in disk {
        Move(call, Advance(call, None), Failed);
        return;
      }
      var mine := Database(nextId, disk[key]);
      Happens(first, history, View(), Advance(call, None), Step(View(), Advance(call, None)).value);
      calls, nextId := calls[call := Phase.Opened(key, seen, sig, mine)], nextId + 1;
      history := history + [Advance(call, None)];
      read := Some(Resident(sig, mine));
    }

    /** The code of an open or a run up to its answer. */
    method Work(call: Call, env: Surroundings) returns (answer: Option<(Path, Database)>)
      requires Valid() && call !in calls && !call.purpose.Close?
      modifies this
      ensures Valid() && old(history) + [Begin(call)] <= history
      ensures call in calls && calls[call] == if answer.Some? then Returned(answer.value.0, answer.value.1) else Failed
      ensures exists key: Option<Path> ::
        TookKey(first, history, call, env.canonical, key) && (answer.Some? ==> key == Some(answer.value.0))
      ensures Alone(env) ==> ResolvedAlone(old(View()), call, env.canonical, residents, answer)
    {
      hide After, Initial, CallStep, TookKey;
      answer := None;
      Move(call, Begin(call), Start);
      Others(call, env.others(0));
      var key := KeyFor(call, env.canonical);
      ghost var taken := history;
      if key.Some? {
        answer := WorkOn(call, key.value, env);
      }
      TookKeyLater(first, taken, history, call, env.canonical, key);
    }

    /** The code from the first look on. */
    method WorkOn(call: Call, key: Path, env: Surroundings) returns (answer: Option<(Path, Database)>)
      requires Valid() && call in calls && calls[call] == Keyed(key) && !call.purpose.Close?
      modifies this
      ensures Valid() && old(history) <= history
      ensures call in calls && calls[call] == if answer.Some? then Returned(answer.value.0, answer.value.1) else Failed
      ensures answer.Some? ==> answer.value.0 == key
      ensures Alone(env) ==> WorkedAlone(old(View()), call, key, residents, answer)
    {
      hide After, Initial, CallStep;
      answer := None;
      var create := call.purpose.Open? || opensOnRun;
      Others(call, env.others(1));
      var seen, reuse, failed := Look(call, key, create, env);
      if failed {
        return;
      }
      if reuse {
        return Some((key, seen.value.db));
      }
      var read := OpenFile(call, key, seen, env);
      if read.None? {
        return;
      }
      Others(call, env.others(5));
      var db := Store(call, key, seen, create, read.value);
      answer := if db.Some? then Some((key, db.value)) else None;
    }

    /** Takes the lock again and lets the map decide. */
    method Store(call: Call, key: Path, seen: Option<Resident>, create: bool, read: Resident) returns (db: Option<Database>)
      requires Valid() && call in calls && calls[call] == Phase.Opened(key, seen, read.sig, read.db)
      requires create <==> Creates(View(), call)
      modifies this
      ensures Valid() && history == old(history) + [Advance(call, None)]
      ensures (residents, db) == Reconciled(old(residents), key, seen, create, read.sig, read.db)
      ensures calls == old(calls)[call := if db.Some? then Returned(key, db.value) else Failed]
    {
      hide After, Initial;
      Happens(first, history, View(), Advance(call, None), Step(View(), Advance(call, None)).value);
      db := Reconcile(key, seen, create, read.sig, read.db);
      calls := calls[call := if db.Some? then Returned(key, db.value) else Failed];
      history := history + [Advance(call, None)];
    }

    /** Opens or reuses the database a path names, while everybody else does what they do
        between its steps. Every step is one of the transition system, so the answer was
        the host's entry for its key at some moment of the call; the key is the one the call
        took for its path. Left alone, the outcome is determined. */
    method Resolve(call: Call, env: Surroundings) returns (answer: Option<(Path, Database)>)
      requires Valid() && call !in calls && !call.purpose.Close?
      modifies this
      ensures Valid() && old(history) + [Begin(call)] <= history
      ensures call in calls && calls[call] == if answer.Some? then Returned(answer.value.0, answer.value.1) else Failed
      ensures answer.Some? ==> WasInMap(first, history, call, answer.value.0, answer.value.1)
      ensures exists key: Option<Path> ::
        TookKey(first, history, call, env.canonical, key) && (answer.Some? ==> key == Some(answer.value.0))
      ensures Alone(env) ==> ResolvedAlone(old(View()), call, env.canonical, residents, answer)
    {
      hide WasInMap, CallStep, TookKey;
      answer := Work(call, env);
      AnswersWereResident(first, history);
      assert Witnessed(first, history, call, View().calls[call]);
    }

    /** Forgets the key a path is open under, whatever happens in between: the one the call
        took for its path, or nothing if it took none. */
    method Close(call: Call, env: Surroundings) returns (closed: Option<Path>)
      requires Valid() && call !in calls && call.purpose.Close?
      modifies this
      ensures Valid() && old(history) + [Begin(call)] <= history
      ensures call in calls && calls[call] == Done
      ensures TookKey(first, history, call, env.canonical, closed)
      ensures closed.Some? ==> closed.value !in residents
      ensures Alone(env) ==>
        && closed == (if call.path in old(residents) then Some(call.path) else env.canonical)
        && residents == if closed.Some? then old(residents) - {closed.value} else old(residents)
    {
      hide After, Initial, CallStep, TookKey;
      Move(call, Begin(call), Start);
      Others(call, env.others(0));
      closed := KeyFor(call, env.canonical);
      ghost var taken := history;
      if closed.Some? {
        Others(call, env.others(1));
        Forget(call, closed.value);
      }
      TookKeyLater(first, taken, history, call, env.canonical, closed);
    }

    method Forget(call: Call, key: Path)
      requires Valid() && call in calls && calls[call] == Keyed(key) && call.purpose.Close?
      modifies this
      ensures Valid() && history == old(history) + [Advance(call, None)]
      ensures residents == old(residents) - {key} && calls == old(calls)[call := Done]
    {
      hide After, Initial;
      Happens(first, history, View(), Advance(call, None), Step(View(), Advance(call, None)).value);
      residents := residents - {key};
      calls := calls[call := Done];
      history := history + [Advance(call, None)];
    }
  }

  lemma Happens(s0: State, actions: seq<Action>, s: State, a: Action, s': State)
    requires After(s0, actions) == Some(s) && Step(s, a) == Some(s')
    ensures After(s0, actions + [a]) == Some(s')
  {
    hide Step;
    assert (actions + [a])[..|actions|] == actions;
  }

  /** Nobody else moves a call. */
  lemma OthersStand(s: State, a: Action, s': State, mine: Call)
    requires Step(s, a) == Some(s') && mine in s.calls && !((a.Advance? || a.Err?) && a.call == mine)
    ensures mine in s'.calls && s'.calls[mine] == s.calls[mine] && s'.opensOnRun == s.opensOnRun
  {
    hide CallStep;
    if a.Advance? {
      CallNarrates(s, a.call, a.canonical, s');
    }
  }
}
