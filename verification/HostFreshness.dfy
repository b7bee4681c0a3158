/** How fresh a host's answers are: when a changed file is reopened, and exactly when a
    call can be answered with a state of the file older than its own beginning. */
module HostFreshness {
  import opened Wrappers
  import opened Host

  // -------------------------------------------------------------------- signatures lag

  /** A file that changes gets a signature above every one it had before. */
  ghost predicate Ascending(s0: State, actions: seq<Action>, key: Path) {
    if |actions| == 0 then true
    else
      var n := |actions| - 1;
      && Ascending(s0, actions[..n], key)
      && (actions[n].Touch? && actions[n].path == key ==> actions[n].sig > Latest(s0, actions[..n], key))
  }

  /** The last signature the file had. */
  ghost function Latest(s0: State, actions: seq<Action>, key: Path): FileSig {
    if |actions| == 0 then (if key in s0.disk then s0.disk[key] else 0)
    else
      var n := |actions| - 1;
      if actions[n].Touch? && actions[n].path == key then actions[n].sig else Latest(s0, actions[..n], key)
  }

  ghost predicate Between(r: Resident, latest: FileSig) {
    r.sig <= r.db.source <= latest
  }

  /** A recorded signature is never newer than the database it is recorded for, and a
      file that is there has its latest signature. */
  ghost predicate SigsLag(s: State, key: Path, latest: FileSig) {
    && (key in s.disk ==> s.disk[key] == latest)
    && (key in s.residents ==> Between(s.residents[key], latest))
    && forall c <- s.calls :: HasKey(s.calls[c]) && s.calls[c].key == key ==>
         && (Seen(s.calls[c]).Some? ==> Between(Seen(s.calls[c]).value, latest))
         && (s.calls[c].SigRead? ==> s.calls[c].sig <= latest)
         && (s.calls[c].Opened? ==> Between(Resident(s.calls[c].sig, s.calls[c].db), latest))
  }

  lemma SigsLagKept(s: State, a: Action, s': State, key: Path, latest: FileSig, latest': FileSig)
    requires SigsLag(s, key, latest) && Step(s, a) == Some(s')
    requires latest' == if a.Touch? && a.path == key then a.sig else latest
    requires latest <= latest'
    ensures SigsLag(s', key, latest')
  {
    hide CallStep;
    if a.Advance? {
      CallNarrates(s, a.call, a.canonical, s');
    }
  }

  lemma {:induction false} RunsLag(s0: State, actions: seq<Action>, key: Path)
    requires Initial(s0) && After(s0, actions).Some? && Ascending(s0, actions, key)
    ensures SigsLag(After(s0, actions).value, key, Latest(s0, actions, key))
  {
    hide Step, SigsLag;
    if |actions| > 0 {
      var n := |actions| - 1;
      RunsLag(s0, actions[..n], key);
      SigsLagKept(After(s0, actions[..n]).value, actions[n], After(s0, actions).value, key,
                  Latest(s0, actions[..n], key), Latest(s0, actions, key));
    } else {
      NothingLags(s0, key);
    }
  }

  lemma NothingLags(s0: State, key: Path)
    requires Initial(s0)
    ensures SigsLag(s0, key, if key in s0.disk then s0.disk[key] else 0)
  {}

  /** A database reused because its signature matches was read from the file as it is at
      that moment. */
  lemma ReuseIsFresh(s0: State, actions: seq<Action>, call: Call, canonical: Option<Path>)
    requires Initial(s0) && After(s0, actions).Some?
    requires var s := After(s0, actions).value; 
      call in s.calls && s.calls[call].Snapped? && Ascending(s0, actions, s.calls[call].key)
    requires var s' := Step(After(s0, actions).value, Advance(call, canonical));
      s'.Some? && s'.value.calls[call].Returned?
    ensures var s := After(s0, actions).value; var s' := Step(s, Advance(call, canonical)).value;
      var key := s.calls[call].key;
      key in s.disk && s'.calls[call].db.source == s.disk[key]
  {
    hide After, Ascending, Latest;
    RunsLag(s0, actions, After(s0, actions).value.calls[call].key);
  }

  // ------------------------------------------------------------- states the file had

  /** The file had this signature last at some moment so far. */
  ghost predicate WasLatest(s0: State, actions: seq<Action>, key: Path, sig: FileSig) {
    exists i | 0 <= i <= |actions| :: Latest(s0, actions[..i], key) == sig
  }

  /** The file had this signature last at some moment after the first `from` steps. */
  ghost predicate LatestSince(s0: State, actions: seq<Action>, from: nat, key: Path, sig: FileSig) {
    exists i | from <= i <= |actions| :: Latest(s0, actions[..i], key) == sig
  }

  lemma {:induction false} LatestGrows(s0: State, actions: seq<Action>, i: nat, key: Path)
    requires i <= |actions| && Ascending(s0, actions, key)
    ensures Latest(s0, actions[..i], key) <= Latest(s0, actions, key)
    decreases |actions|
  {
    var n := |actions| - 1;
    if i <= n {
      LatestGrows(s0, actions[..n], i, key);
      assert actions[..n][..i] == actions[..i];
    } else {
      assert actions[..i] == actions;
    }
  }

  lemma {:induction false} AscendingPrefix(s0: State, actions: seq<Action>, i: nat, key: Path)
    requires i <= |actions| && Ascending(s0, actions, key)
    ensures Ascending(s0, actions[..i], key)
    decreases |actions|
  {
    var n := |actions| - 1;
    if i <= n {
      AscendingPrefix(s0, actions[..n], i, key);
      assert actions[..n][..i] == actions[..i];
    } else {
      assert actions[..i] == actions;
    }
  }

  lemma EarlierIsOlder(s0: State, actions: seq<Action>, i: nat, j: nat, key: Path)
    requires i <= j <= |actions| && Ascending(s0, actions, key)
    ensures Latest(s0, actions[..i], key) <= Latest(s0, actions[..j], key)
  {
    AscendingPrefix(s0, actions, j, key);
    LatestGrows(s0, actions[..j], i, key);
    assert actions[..j][..i] == actions[..i];
  }

  /** A state the file had was one of those since a moment exactly when it is no older than
      the file was at that moment. */
  lemma SinceIff(s0: State, actions: seq<Action>, from: nat, key: Path, sig: FileSig)
    requires Ascending(s0, actions, key) && from <= |actions| && WasLatest(s0, actions, key, sig)
    ensures LatestSince(s0, actions, from, key, sig) <==> sig >= Latest(s0, actions[..from], key)
  {
    hide Latest, Ascending;
    if LatestSince(s0, actions, from, key, sig) {
      var i :| from <= i <= |actions| && Latest(s0, actions[..i], key) == sig;
      EarlierIsOlder(s0, actions, from, i, key);
    }
    var i :| 0 <= i <= |actions| && Latest(s0, actions[..i], key) == sig;
    if i < from {
      EarlierIsOlder(s0, actions, i, from, key);
    }
  }

  /** Every database a host or a call holds was read from a state the file had. */
  ghost predicate SourcesKnown(s0: State, actions: seq<Action>, s: State, key: Path) {
    && (key in s.disk ==> s.disk[key] == Latest(s0, actions, key))
    && (key in s.residents ==> WasLatest(s0, actions, key, s.residents[key].db.source))
    && forall c <- s.calls :: HasKey(s.calls[c]) && s.calls[c].key == key ==>
         && (Seen(s.calls[c]).Some? ==> WasLatest(s0, actions, key, Seen(s.calls[c]).value.db.source))
         && (s.calls[c].Opened? || s.calls[c].Returned? ==> WasLatest(s0, actions, key, s.calls[c].db.source))
  }

  lemma WasLatestGrows(s0: State, actions: seq<Action>, key: Path)
    requires |actions| > 0
    ensures forall sig :: WasLatest(s0, actions[..|actions| - 1], key, sig) ==> WasLatest(s0, actions, key, sig)
    ensures WasLatest(s0, actions, key, Latest(s0, actions, key))
  {
    hide Latest;
    var n := |actions| - 1;
    forall sig | WasLatest(s0, actions[..n], key, sig) ensures WasLatest(s0, actions, key, sig) {
      var i :| 0 <= i <= n && Latest(s0, actions[..n][..i], key) == sig;
      assert actions[..n][..i] == actions[..i];
    }
    assert actions[..|actions|] == actions;
  }

  lemma LatestStep(s0: State, actions: seq<Action>, key: Path)
    requires |actions| > 0
    ensures var n := |actions| - 1;
      Latest(s0, actions, key)
        == if actions[n].Touch? && actions[n].path == key then actions[n].sig else Latest(s0, actions[..n], key)
  {}

  lemma SourcesStep(s0: State, actions: seq<Action>, s: State, s': State, key: Path)
    requires |actions| > 0 && Step(s, actions[|actions| - 1]) == Some(s')
    requires SourcesKnown(s0, actions[..|actions| - 1], s, key)
    ensures SourcesKnown(s0, actions, s', key)
  {
    hide CallStep, WasLatest, Latest;
    var a := actions[|actions| - 1];
    WasLatestGrows(s0, actions, key);
    LatestStep(s0, actions, key);
    if a.Advance? {
      CallNarrates(s, a.call, a.canonical, s');
    }
  }

  lemma {:induction false} RunsKnowSources(s0: State, actions: seq<Action>, key: Path)
    requires Initial(s0) && After(s0, actions).Some?
    ensures SourcesKnown(s0, actions, After(s0, actions).value, key)
  {
    hide SourcesKnown, CallStep;
    if |actions| > 0 {
      var n := |actions| - 1;
      RunsKnowSources(s0, actions[..n], key);
      SourcesStep(s0, actions, After(s0, actions[..n]).value, After(s0, actions).value, key);
    } else {
      NoSources(s0, key);
    }
  }

  lemma NoSources(s0: State, key: Path)
    requires Initial(s0)
    ensures SourcesKnown(s0, [], s0, key)
  {}

  // ------------------------------------------------------- who can still store old data

  /** The map would take what an opened call has: the key may become free for it, or the
      entry it saw is still there. */
  predicate CanStore(s: State, c: Call)
    requires c in s.calls && s.calls[c].Opened?
  {
    var f := s.calls[c];
    || f.seen.None? || Creates(s, c)
    || (f.key in s.residents && s.residents[f.key].db.id == f.seen.value.db.id)
  }

  /** A call has read the file as it was before `latest` and can still store that. */
  predicate Threatens(s: State, key: Path, latest: FileSig, c: Call) {
    && c in s.calls && s.calls[c].Opened? && s.calls[c].key == key
    && s.calls[c].db.source < latest && CanStore(s, c)
  }

  /** Nobody is about to store an older state of the file. */
  predicate SafeToBegin(s: State, key: Path, latest: FileSig) {
    forall c <- s.calls :: !Threatens(s, key, latest, c)
  }

  // -------------------------------------------------------------- safe calls are fresh

  /** Nothing older than `floor` reaches a call that began when the file was at `floor`. */
  ghost predicate Guarded(s: State, key: Path, floor: FileSig, call: Call) {
    && (key in s.disk ==> s.disk[key] >= floor)
    && SafeToBegin(s, key, floor)
    && (call in s.calls && HasKey(s.calls[call]) && s.calls[call].key == key ==> CallGuarded(s, s.calls[call], floor))
  }

  /** Since the call looked, the entry is the one it saw or is new enough; so is what the
      call opened and what it answers. */
  ghost predicate CallGuarded(s: State, phase: Phase, floor: FileSig)
    requires HasKey(phase)
  {
    && (!phase.Keyed? && !phase.Returned? && phase.key in s.residents ==>
          || s.residents[phase.key].db.source >= floor
          || (Seen(phase).Some? && s.residents[phase.key].db.id == Seen(phase).value.db.id))
    && (phase.Opened? || phase.Returned? ==> phase.db.source >= floor)
  }

  /** What a step puts into the map is new enough. */
  lemma StoresFresh(s: State, a: Action, s': State, key: Path, floor: FileSig)
    requires SafeToBegin(s, key, floor) && Step(s, a) == Some(s')
    ensures key in s'.residents ==> Lookup(s.residents, key) == Some(s'.residents[key]) || s'.residents[key].db.source >= floor
  {
    StepChanges(s, a, s', key);
    if key in s'.residents && Lookup(s.residents, key) != Some(s'.residents[key]) {
      assert !Threatens(s, key, floor, a.call);
    }
  }

  /** Who cannot store never can again: the entry it saw does not come back. */
  lemma SafeKept(s: State, a: Action, s': State, key: Path, floor: FileSig)
    requires IdsIdentify(s) && SafeToBegin(s, key, floor) && (key in s.disk ==> s.disk[key] >= floor)
    requires Step(s, a) == Some(s')
    ensures SafeToBegin(s', key, floor)
  {
    hide CallStep, IdsIdentify;
    if a.Advance? {
      CallNarrates(s, a.call, a.canonical, s');
    }
    forall c <- s'.calls | s'.calls[c].Opened? && s'.calls[c].key == key && s'.calls[c].db.source < floor
      ensures !CanStore(s', c)
    {
      assert !Threatens(s, key, floor, c);
      StillCannot(s, a, s', c);
    }
  }

  lemma StillCannot(s: State, a: Action, s': State, c: Call)
    requires IdsIdentify(s) && Step(s, a) == Some(s')
    requires c in s.calls && c in s'.calls && s.calls[c].Opened? && s'.calls[c] == s.calls[c] && !CanStore(s, c)
    ensures !CanStore(s', c)
  {
    var f := s.calls[c];
    StepChanges(s, a, s', f.key);
    assert SeenBySome(s, f.seen.value) && Known(s, f.seen.value);
  }

  lemma GuardedKept(s: State, a: Action, s': State, key: Path, floor: FileSig, latest: FileSig, call: Call)
    requires IdsIdentify(s) && SigsLag(s, key, latest) && Guarded(s, key, floor, call)
    requires Step(s, a) == Some(s') && (a.Touch? && a.path == key ==> a.sig >= floor)
    ensures Guarded(s', key, floor, call)
  {
    hide CallStep, IdsIdentify, SafeToBegin;
    SafeKept(s, a, s', key, floor);
    StoresFresh(s, a, s', key, floor);
    if a.Advance? {
      CallNarrates(s, a.call, a.canonical, s');
    }
  }

  /** The run in which a call begins after `before` and `more` follows. */
  ghost function RunOf(before: seq<Action>, call: Call, more: seq<Action>): seq<Action> {
    before + [Begin(call)] + more
  }

  lemma BeginsGuarded(s0: State, before: seq<Action>, call: Call, key: Path)
    requires Initial(s0) && Ascending(s0, before, key) && After(s0, RunOf(before, call, [])).Some?
    requires After(s0, before).Some? && SafeToBegin(After(s0, before).value, key, Latest(s0, before, key))
    ensures Guarded(After(s0, RunOf(before, call, [])).value, key, Latest(s0, before, key), call)
  {
    hide Ascending, Latest;
    RunsLag(s0, before, key);
    var run := RunOf(before, call, []);
    assert run[..|before|] == before && run[|before|] == Begin(call);
    var s, s' := After(s0, before).value, After(s0, run).value;
    forall c <- s'.calls ensures !Threatens(s', key, Latest(s0, before, key), c) {
      assert c in s.calls ==> !Threatens(s, key, Latest(s0, before, key), c);
    }
  }

  lemma {:induction false} RunGuarded(s0: State, before: seq<Action>, call: Call, more: seq<Action>, key: Path)
    requires Initial(s0) && Ascending(s0, RunOf(before, call, more), key) && After(s0, RunOf(before, call, more)).Some?
    requires After(s0, before).Some? && SafeToBegin(After(s0, before).value, key, Latest(s0, before, key))
    ensures Guarded(After(s0, RunOf(before, call, more)).value, key, Latest(s0, before, key), call)
    decreases |more|
  {
    hide Ascending, Latest, Guarded, Step, IdsIdentify, SigsLag, SafeToBegin;
    var run, n := RunOf(before, call, more), |more| - 1;
    assert run[..|before|] == before;
    if n < 0 {
      AscendingPrefix(s0, run, |before|, key);
      BeginsGuarded(s0, before, call, key);
    } else {
      var shorter := RunOf(before, call, more[..n]);
      assert run[..|run| - 1] == shorter && run[|run| - 1] == more[n];
      AscendingPrefix(s0, run, |run| - 1, key);
      RunGuarded(s0, before, call, more[..n], key);
      var s := After(s0, shorter).value;
      RunsIdentify(s0, shorter);
      RunsLag(s0, shorter, key);
      EarlierIsOlder(s0, run, |before|, |run| - 1, key);
      LastTouch(s0, run, key);
      GuardedKept(s, more[n], After(s0, run).value, key, Latest(s0, before, key), Latest(s0, shorter, key), call);
    }
  }

  lemma LastTouch(s0: State, run: seq<Action>, key: Path)
    requires |run| > 0 && Ascending(s0, run, key)
    ensures var n := |run| - 1; run[n].Touch? && run[n].path == key ==> run[n].sig > Latest(s0, run[..n], key)
  {}

  // ----------------------------------------------------------- exactly when it is fresh

  /** A call that begins after `before` is answered for `key` at the end of the run. */
  ghost predicate Answers(s0: State, before: seq<Action>, call: Call, more: seq<Action>, key: Path) {
    var run := RunOf(before, call, more);
    var s := After(s0, run);
    && Ascending(s0, run, key) && s.Some?
    && call in s.value.calls && s.value.calls[call].Returned? && s.value.calls[call].key == key
  }

  /** The answer is the file as it was at some moment since the call began. */
  ghost predicate AnswerIsFresh(s0: State, before: seq<Action>, call: Call, more: seq<Action>, key: Path)
    requires Answers(s0, before, call, more, key)
  {
    var run := RunOf(before, call, more);
    LatestSince(s0, run, |before|, key, After(s0, run).value.calls[call].db.source)
  }

  /** Whatever call begins now, and whatever happens then, it gets the file as it is now or
      later. */
  ghost predicate AlwaysFresh(s0: State, before: seq<Action>, key: Path) {
    forall call, more {:trigger Answers(s0, before, call, more, key)} ::
      Answers(s0, before, call, more, key) ==> AnswerIsFresh(s0, before, call, more, key)
  }

  lemma SafeIsFresh(s0: State, before: seq<Action>, call: Call, more: seq<Action>, key: Path)
    requires Initial(s0) && After(s0, before).Some? && Answers(s0, before, call, more, key)
    requires SafeToBegin(After(s0, before).value, key, Latest(s0, before, key))
    ensures AnswerIsFresh(s0, before, call, more, key)
  {
    hide After, Ascending, Latest, WasLatest, LatestSince, SafeToBegin;
    var run := RunOf(before, call, more);
    RunGuarded(s0, before, call, more, key);
    RunsKnowSources(s0, run, key);
    assert run[..|before|] == before;
    SinceIff(s0, run, |before|, key, After(s0, run).value.calls[call].db.source);
  }

  /** Where a run stands. */
  ghost predicate Stands(s0: State, run: seq<Action>, s: State, key: Path, latest: FileSig) {
    After(s0, run) == Some(s) && Ascending(s0, run, key) && Latest(s0, run, key) == latest
  }

  lemma Extend(s0: State, run: seq<Action>, s: State, key: Path, latest: FileSig, a: Action)
      returns (longer: seq<Action>, s': State)
    requires Stands(s0, run, s, key, latest) && Step(s, a).Some?
    requires a.Touch? && a.path == key ==> a.sig > latest
    ensures longer == run + [a] && Step(s, a) == Some(s')
    ensures Stands(s0, longer, s', key, if a.Touch? && a.path == key then a.sig else latest)
  {
    hide Step;
    longer, s' := run + [a], Step(s, a).value;
    assert longer[..|run|] == run;
  }

  /** A call that has begun looks, finds no entry or a stale one, and goes on to reopen. */
  lemma LooksAlone(s0: State, run: seq<Action>, s: State, key: Path, latest: FileSig, call: Call)
      returns (longer: seq<Action>, s': State)
    requires Stands(s0, run, s, key, latest) && call in s.calls && s.calls[call] == Start
    requires call.path == key && call.purpose.Open? && key in s.disk
    requires key in s.residents ==> s.residents[key].sig != s.disk[key]
    ensures Stands(s0, longer, s', key, latest)
    ensures longer == run + [Advance(call, Some(key)), Advance(call, Some(key)), Advance(call, Some(key))]
    ensures s' == Moved(s, call, Reopening(key, Lookup(s.residents, key)))
  {
    hide Stands;
    var step, seen := Advance(call, Some(key)), Lookup(s.residents, key);
    longer, s' := Extend(s0, run, s, key, latest, step);
    assert s' == Moved(s, call, Keyed(key));
    longer, s' := Extend(s0, longer, s', key, latest, step);
    assert s' == Moved(s, call, Snapped(key, seen));
    longer, s' := Extend(s0, longer, s', key, latest, step);
  }

  /** A call that reopens reads the signature and the file. */
  lemma ReadsAlone(s0: State, run: seq<Action>, s: State, key: Path, latest: FileSig, call: Call, seen: Option<Resident>)
      returns (longer: seq<Action>, s': State)
    requires Stands(s0, run, s, key, latest) && call in s.calls && s.calls[call] == Reopening(key, seen) && key in s.disk
    ensures Stands(s0, longer, s', key, latest)
    ensures longer == run + [Advance(call, None), Advance(call, None)]
    ensures s' == s.(nextId := s.nextId + 1,
                     calls := s.calls[call := Opened(key, seen, s.disk[key], Database(s.nextId, s.disk[key]))])
  {
    hide Stands;
    longer, s' := Extend(s0, run, s, key, latest, Advance(call, None));
    assert s' == Moved(s, call, SigRead(key, seen, s.disk[key]));
    longer, s' := Extend(s0, longer, s', key, latest, Advance(call, None));
  }

  /** A call that has begun goes all the way to having opened the file, alone. */
  lemma OpensAlone(s0: State, run: seq<Action>, s: State, key: Path, latest: FileSig, call: Call)
      returns (longer: seq<Action>, s': State)
    requires Stands(s0, run, s, key, latest) && call in s.calls && s.calls[call] == Start
    requires call.path == key && call.purpose.Open? && key in s.disk
    requires key in s.residents ==> s.residents[key].sig != s.disk[key]
    ensures Stands(s0, longer, s', key, latest) && run <= longer
    ensures forall i | |run| <= i < |longer| :: longer[i].Advance?
    ensures s' == s.(nextId := s.nextId + 1,
                     calls := s.calls[call := Opened(key, Lookup(s.residents, key), s.disk[key], Database(s.nextId, s.disk[key]))])
  {
    hide Stands, Lookup;
    longer, s' := LooksAlone(s0, run, s, key, latest, call);
    longer, s' := ReadsAlone(s0, longer, s', key, latest, call, Lookup(s.residents, key));
  }

  /** There is always another call to begin. */
  lemma {:induction false} FreshId(calls: set<Call>) returns (id: nat)
    ensures forall c <- calls :: c.id < id
  {
    if calls == {} {
      id := 0;
    } else {
      var c :| c in calls;
      var rest := FreshId(calls - {c});
      id := if c.id < rest then rest else c.id + 1;
    }
  }

  /** The key can be closed meanwhile. */
  lemma ClosesMeanwhile(s0: State, run: seq<Action>, s: State, key: Path, latest: FileSig, id: nat)
      returns (longer: seq<Action>, s': State)
    requires Stands(s0, run, s, key, latest) && key in s.residents && forall c <- s.calls :: c.id < id
    ensures Stands(s0, longer, s', key, latest) && run <= longer
    ensures s' == s.(residents := s.residents - {key}, calls := s.calls[Call(id, key, Close) := Done])
  {
    hide Stands;
    var k := Call(id, key, Close);
    longer, s' := Extend(s0, run, s, key, latest, Begin(k));
    longer, s' := Extend(s0, longer, s', key, latest, Advance(k, None));
    assert s' == Moved(s, k, Keyed(key));
    longer, s' := Extend(s0, longer, s', key, latest, Advance(k, None));
  }

  /** The threatening call stores what it read before, and a call that has opened the file
      since then is answered with that. */
  lemma StoresBetween(s0: State, run: seq<Action>, s: State, key: Path, latest: FileSig, c: Call, call: Call)
      returns (longer: seq<Action>, s': State)
    requires Stands(s0, run, s, key, latest) && c in s.calls && call in s.calls && c != call
    requires s.calls[c].Opened? && s.calls[c].key == key && CanStore(s, c)
    requires s.calls[call].Opened? && s.calls[call].key == key && s.calls[call].seen == Lookup(s.residents, key)
    requires key in s.residents ==>
      && s.calls[c].seen.Some? && s.residents[key].db.id == s.calls[c].seen.value.db.id
      && s.calls[c].db.id != s.residents[key].db.id
    ensures Stands(s0, longer, s', key, latest) && longer == run + [Advance(c, None), Advance(call, None)]
    ensures call in s'.calls && s'.calls[call] == Returned(key, s.calls[c].db) && s'.disk == s.disk
  {
    hide Stands;
    longer, s' := Extend(s0, run, s, key, latest, Advance(c, None));
    assert s' == s.(residents := s.residents[key := Own(s.calls[c])], calls := s.calls[c := Returned(key, s.calls[c].db)]);
    longer, s' := Extend(s0, longer, s', key, latest, Advance(call, None));
  }

  /** While some call threatens to store an older state, a call can begin that is answered
      with it. */
  lemma ThreatMakesStale(s0: State, before: seq<Action>, key: Path, c: Call) returns (call: Call, more: seq<Action>)
    requires Initial(s0) && After(s0, before).Some? && Ascending(s0, before, key)
    requires Threatens(After(s0, before).value, key, Latest(s0, before, key), c)
    ensures Answers(s0, before, call, more, key) && !AnswerIsFresh(s0, before, call, more, key)
  {
    hide After, Ascending, Latest, IdsIdentify, Known, Stands;
    var s, latest := After(s0, before).value, Latest(s0, before, key);
    var f := s.calls[c];
    StandsNow(s0, before, key);
    RunsLag(s0, before, key);
    StoredIdsDiffer(s0, before, key, c);
    var id := FreshId(s.calls.Keys);
    call := Call(id, key, Open);
    var run, now := Extend(s0, before, s, key, latest, Begin(call));
    if key in s.residents && !(f.seen.Some? && s.residents[key].db.id == f.seen.value.db.id) {
      run, now := ClosesMeanwhile(s0, run, now, key, latest, id + 1);
    }
    run, now := Extend(s0, run, now, key, latest, Touch(key, latest + 1));
    run, now := OpensAlone(s0, run, now, key, latest + 1, call);
    run, now := StoresBetween(s0, run, now, key, latest + 1, c, call);
    more := run[|before| + 1..];
    assert run == RunOf(before, call, more);
    EndsStale(s0, before, call, more, key, now, latest + 1);
  }

  lemma StandsNow(s0: State, run: seq<Action>, key: Path)
    requires After(s0, run).Some? && Ascending(s0, run, key)
    ensures Stands(s0, run, After(s0, run).value, key, Latest(s0, run, key))
  {}

  lemma StoredIdsDiffer(s0: State, before: seq<Action>, key: Path, c: Call)
    requires Initial(s0) && After(s0, before).Some?
    requires c in After(s0, before).value.calls && After(s0, before).value.calls[c].Opened?
    ensures var s := After(s0, before).value; key in s.residents ==> s.calls[c].db.id != s.residents[key].db.id
  {
    hide After;
    RunsIdentify(s0, before);
    var s := After(s0, before).value;
    if key in s.residents {
      assert InMapOf(s, s.residents[key]) && Known(s, s.residents[key]);
    }
  }

  lemma EndsStale(s0: State, before: seq<Action>, call: Call, more: seq<Action>, key: Path, s: State, latest: FileSig)
    requires Stands(s0, RunOf(before, call, more), s, key, latest)
    requires call in s.calls && s.calls[call].Returned? && s.calls[call].key == key
    requires s.calls[call].db.source < Latest(s0, before, key)
    ensures Answers(s0, before, call, more, key) && !AnswerIsFresh(s0, before, call, more, key)
  {
    hide After, Ascending, Latest;
    var run, sig := RunOf(before, call, more), s.calls[call].db.source;
    assert run[..|before|] == before;
    if LatestSince(s0, run, |before|, key, sig) {
      var i :| |before| <= i <= |run| && Latest(s0, run[..i], key) == sig;
      EarlierIsOlder(s0, run, |before|, i, key);
    }
  }

  /** At any moment: every call that begins now is sure of the file as it is now or later,
      exactly when nobody has read an older state of it and can still store that. */
  lemma AnswerIsFreshIff(s0: State, before: seq<Action>, key: Path)
    requires Initial(s0) && After(s0, before).Some? && Ascending(s0, before, key)
    ensures SafeToBegin(After(s0, before).value, key, Latest(s0, before, key)) <==> AlwaysFresh(s0, before, key)
  {
    hide After, Ascending, Latest, Answers, AnswerIsFresh, Threatens;
    var s, latest := After(s0, before).value, Latest(s0, before, key);
    if SafeToBegin(s, key, latest) {
      forall call, more {:trigger Answers(s0, before, call, more, key)} | Answers(s0, before, call, more, key)
        ensures AnswerIsFresh(s0, before, call, more, key)
      {
        SafeIsFresh(s0, before, call, more, key);
      }
    } else {
      var c :| c in s.calls && Threatens(s, key, latest, c);
      var call, more := ThreatMakesStale(s0, before, key, c);
      assert Answers(s0, before, call, more, key) && !AnswerIsFresh(s0, before, call, more, key);
    }
  }

  const FILE: Path := "a.esm"

  /** Two first opens race. The first reads the old file and stores it late; the second
      begins after the file has changed and reads the new one; both get the old. */
  lemma LoserOfARaceGetsTheOldFile() returns (s0: State, before: seq<Action>, loser: Call, more: seq<Action>)
    ensures Initial(s0) && After(s0, before).Some? && (forall a <- more :: a.Advance?)
    ensures Answers(s0, before, loser, more, FILE) && !AnswerIsFresh(s0, before, loser, more, FILE)
  {
    hide After, Ascending, Latest, Stands;
    var first := Call(0, FILE, Open);
    loser := Call(1, FILE, Open);
    s0 := State(map[], map[FILE := 1], 0, true, map[]);
    StartsStanding(s0);
    var run, s := Extend(s0, [], s0, FILE, 1, Begin(first));
    run, s := OpensAlone(s0, run, s, FILE, 1, first);
    before, s := Extend(s0, run, s, FILE, 1, Touch(FILE, 2));
    StandsAt(s0, before, s, FILE, 2);
    run, s := Extend(s0, before, s, FILE, 2, Begin(loser));
    run, s := OpensAlone(s0, run, s, FILE, 2, loser);
    run, s := StoresBetween(s0, run, s, FILE, 2, first, loser);
    more := run[|before| + 1..];
    assert run == RunOf(before, loser, more);
    EndsStale(s0, before, loser, more, FILE, s, 2);
  }

  lemma StandsAt(s0: State, run: seq<Action>, s: State, key: Path, latest: FileSig)
    requires Stands(s0, run, s, key, latest)
    ensures After(s0, run) == Some(s) && Latest(s0, run, key) == latest
  {}

  lemma StartsStanding(s0: State)
    requires FILE in s0.disk
    ensures Stands(s0, [], s0, FILE, s0.disk[FILE])
  {}
}
