/** The context nodes around a bundle: gathering them through a reverse index gives what a
    scan of the whole incidence gives. */
module ContextIndex {
  import opened Sorting

  type FormId = nat

  /** A changed record and the edge that ties it to a context node. */
  datatype Incident = Incident(record: FormId, edge: nat)

  /** For every context node, its incidents in the order of the edges. */
  type Incidence = map<FormId, seq<Incident>>

  /** Where a record occurs: at `position` in the list of the context node. */
  datatype Occurrence = Occurrence(context: FormId, position: nat, edge: nat)

  // -------------------------------------------------------------------------- full scan

  function AmongMembers(incidents: seq<Incident>, members: set<FormId>): seq<Incident> {
    if |incidents| == 0 then []
    else
      var n := |incidents| - 1;
      AmongMembers(incidents[..n], members) + (if incidents[n].record in members then [incidents[n]] else [])
  }

  function AllAmong(inc: Incidence, members: set<FormId>): Incidence {
    map c | c in inc :: AmongMembers(inc[c], members)
  }

  /** The candidates found by looking at every context node. */
  function Scanned(inc: Incidence, members: set<FormId>): Incidence {
    var all := AllAmong(inc, members);
    map c | c in all && |all[c]| > 0 :: all[c]
  }

  // ---------------------------------------------------------------------- reverse index

  /** `o` is an occurrence of `record`. */
  ghost predicate Occurs(inc: Incidence, record: FormId, o: Occurrence) {
    && o.context in inc && o.position < |inc[o.context]|
    && inc[o.context][o.position] == Incident(record, o.edge)
  }

  function At(index: map<FormId, seq<Occurrence>>, record: FormId): seq<Occurrence> {
    if record in index then index[record] else []
  }

  ghost predicate NoRepeats<T>(xs: seq<T>) {
    forall i, j | 0 <= i < j < |xs| :: xs[i] != xs[j]
  }

  /** The index lists every occurrence in `done` contexts, and in `c` before `upTo`, once. */
  ghost predicate Indexes(inc: Incidence, done: set<FormId>, c: FormId, upTo: nat, index: map<FormId, seq<Occurrence>>) {
    && (forall r :: NoRepeats(At(index, r)))
    && (forall r, o :: o in At(index, r) <==> Occurs(inc, r, o) && (o.context in done || (o.context == c && o.position < upTo)))
  }

  method BuildMemberIncidence(inc: Incidence) returns (index: map<FormId, seq<Occurrence>>)
    ensures Indexes(inc, inc.Keys, 0, 0, index)
  {
    index := map[];
    var rest := inc.Keys;
    while rest != {}
      invariant rest <= inc.Keys && Indexes(inc, inc.Keys - rest, 0, 0, index)
      decreases rest
    {
      var c :| c in rest;
      index := IndexContext(inc, inc.Keys - rest, c, index);
      assert inc.Keys - (rest - {c}) == (inc.Keys - rest) + {c};
      rest := rest - {c};
    }
    assert inc.Keys - {} == inc.Keys;
  }

  method IndexContext(inc: Incidence, ghost done: set<FormId>, c: FormId, before: map<FormId, seq<Occurrence>>)
    returns (index: map<FormId, seq<Occurrence>>)
    requires c in inc && c !in done && Indexes(inc, done, 0, 0, before)
    ensures Indexes(inc, done + {c}, 0, 0, index)
  {
    hide Indexes;
    index := before;
    IndexBegins(inc, done, c, before);
    for p := 0 to |inc[c]|
      invariant Indexes(inc, done, c, p, index)
    {
      var incident := inc[c][p];
      IndexStep(inc, done, c, p, index);
      index := index[incident.record := At(index, incident.record) + [Occurrence(c, p, incident.edge)]];
    }
    IndexEnds(inc, done, c, index);
  }

  lemma IndexBegins(inc: Incidence, done: set<FormId>, c: FormId, index: map<FormId, seq<Occurrence>>)
    requires Indexes(inc, done, 0, 0, index)
    ensures Indexes(inc, done, c, 0, index)
  {
    forall r, o ensures o in At(index, r) <==> Occurs(inc, r, o) && (o.context in done || (o.context == c && o.position < 0)) {
      assert o in At(index, r) <==> Occurs(inc, r, o) && (o.context in done || (o.context == 0 && o.position < 0));
    }
  }

  lemma IndexEnds(inc: Incidence, done: set<FormId>, c: FormId, index: map<FormId, seq<Occurrence>>)
    requires c in inc && Indexes(inc, done, c, |inc[c]|, index)
    ensures Indexes(inc, done + {c}, 0, 0, index)
  {
    forall r, o ensures o in At(index, r) <==> Occurs(inc, r, o) && (o.context in done + {c} || (o.context == 0 && o.position < 0)) {
      assert o in At(index, r) <==> Occurs(inc, r, o) && (o.context in done || (o.context == c && o.position < |inc[c]|));
    }
  }

  lemma IndexStep(inc: Incidence, done: set<FormId>, c: FormId, p: nat, index: map<FormId, seq<Occurrence>>)
    requires c in inc && c !in done && p < |inc[c]| && Indexes(inc, done, c, p, index)
    ensures var incident := inc[c][p];
      Indexes(inc, done, c, p + 1, index[incident.record := At(index, incident.record) + [Occurrence(c, p, incident.edge)]])
  {
    var incident := inc[c][p];
    var new_ := Occurrence(c, p, incident.edge);
    var after := index[incident.record := At(index, incident.record) + [new_]];
    assert new_ !in At(index, incident.record);
    forall r ensures NoRepeats(At(after, r)) {
      assert NoRepeats(At(index, r));
    }
    forall r, o ensures o in At(after, r) <==> Occurs(inc, r, o) && (o.context in done || (o.context == c && o.position < p + 1)) {
      assert o in At(index, r) <==> Occurs(inc, r, o) && (o.context in done || (o.context == c && o.position < p));
    }
  }

  // -------------------------------------------------------------- through the index

  /** One found incident with its position. */
  type Found = (nat, Incident)

  function FoundAt(byContext: map<FormId, seq<Found>>, c: FormId): seq<Found> {
    if c in byContext then byContext[c] else []
  }

  /** Positions come once, and exactly the incidents of `seen` records have been found. */
  ghost predicate Finds(inc: Incidence, seen: set<FormId>, byContext: map<FormId, seq<Found>>) {
    && (forall c <- byContext :: |byContext[c]| > 0)
    && (forall c :: NoRepeats(FoundAt(byContext, c)))
    && (forall c, p: nat, i :: (p, i) in FoundAt(byContext, c) <==> c in inc && p < |inc[c]| && inc[c][p] == i && i.record in seen)
  }

  method Gather(inc: Incidence, index: map<FormId, seq<Occurrence>>, members: set<FormId>) returns (byContext: map<FormId, seq<Found>>)
    requires Indexes(inc, inc.Keys, 0, 0, index)
    ensures Finds(inc, members, byContext)
  {
    byContext := map[];
    var rest := members;
    while rest != {}
      invariant rest <= members && Finds(inc, members - rest, byContext)
      decreases rest
    {
      var r :| r in rest;
      byContext := GatherOne(inc, index, members - rest, r, byContext);
      assert members - (rest - {r}) == (members - rest) + {r};
      rest := rest - {r};
    }
    assert members - {} == members;
  }

  /** The same, with the first `n` occurrences of one more record. */
  ghost predicate FindsPart(inc: Incidence, seen: set<FormId>, r: FormId, occurrences: seq<Occurrence>, byContext: map<FormId, seq<Found>>) {
    && (forall c <- byContext :: |byContext[c]| > 0)
    && (forall c :: NoRepeats(FoundAt(byContext, c)))
    && (forall c, p: nat, i :: (p, i) in FoundAt(byContext, c) <==>
          && c in inc && p < |inc[c]| && inc[c][p] == i
          && (i.record in seen || (i.record == r && Occurrence(c, p, i.edge) in occurrences)))
  }

  method GatherOne(inc: Incidence, index: map<FormId, seq<Occurrence>>, ghost seen: set<FormId>, r: FormId, before: map<FormId, seq<Found>>)
    returns (byContext: map<FormId, seq<Found>>)
    requires Indexes(inc, inc.Keys, 0, 0, index) && r !in seen && Finds(inc, seen, before)
    ensures Finds(inc, seen + {r}, byContext)
  {
    hide Finds, FindsPart, Indexes;
    var occurrences := At(index, r);
    byContext := before;
    PartBegins(inc, seen, r, before);
    assert occurrences[..0] == [];
    for k := 0 to |occurrences|
      invariant FindsPart(inc, seen, r, occurrences[..k], byContext)
    {
      var o := occurrences[k];
      OccurrenceIs(inc, index, r, k);
      assert occurrences[..k + 1] == occurrences[..k] + [o];
      PartStep(inc, seen, r, occurrences[..k], o, byContext);
      byContext := byContext[o.context := FoundAt(byContext, o.context) + [(o.position, Incident(r, o.edge))]];
    }
    assert occurrences[..|occurrences|] == occurrences;
    PartEnds(inc, index, seen, r, byContext);
  }

  lemma OccurrenceIs(inc: Incidence, index: map<FormId, seq<Occurrence>>, r: FormId, k: nat)
    requires Indexes(inc, inc.Keys, 0, 0, index) && k < |At(index, r)|
    ensures Occurs(inc, r, At(index, r)[k]) && At(index, r)[k] !in At(index, r)[..k]
  {
    var o := At(index, r)[k];
    assert o in At(index, r);
    assert NoRepeats(At(index, r));
  }

  lemma PartBegins(inc: Incidence, seen: set<FormId>, r: FormId, byContext: map<FormId, seq<Found>>)
    requires Finds(inc, seen, byContext)
    ensures FindsPart(inc, seen, r, [], byContext)
  {
    hide NoRepeats, FoundAt;
  }

  lemma PartStep(inc: Incidence, seen: set<FormId>, r: FormId, occurrences: seq<Occurrence>, o: Occurrence, byContext: map<FormId, seq<Found>>)
    requires FindsPart(inc, seen, r, occurrences, byContext) && Occurs(inc, r, o) && o !in occurrences && r !in seen
    ensures FindsPart(inc, seen, r, occurrences + [o],
                      byContext[o.context := FoundAt(byContext, o.context) + [(o.position, Incident(r, o.edge))]])
  {
    var found := (o.position, Incident(r, o.edge));
    var after := byContext[o.context := FoundAt(byContext, o.context) + [found]];
    assert found !in FoundAt(byContext, o.context) by {
      assert (o.position, Incident(r, o.edge)) in FoundAt(byContext, o.context) <==>
        Occurrence(o.context, o.position, o.edge) in occurrences;
    }
    forall c ensures NoRepeats(FoundAt(after, c)) {
      assert NoRepeats(FoundAt(byContext, c));
    }
    forall c, p: nat, i ensures (p, i) in FoundAt(after, c) <==>
      && c in inc && p < |inc[c]| && inc[c][p] == i
      && (i.record in seen || (i.record == r && Occurrence(c, p, i.edge) in occurrences + [o]))
    {
      assert (p, i) in FoundAt(byContext, c) <==>
        && c in inc && p < |inc[c]| && inc[c][p] == i
        && (i.record in seen || (i.record == r && Occurrence(c, p, i.edge) in occurrences));
    }
  }

  lemma PartEnds(inc: Incidence, index: map<FormId, seq<Occurrence>>, seen: set<FormId>, r: FormId, byContext: map<FormId, seq<Found>>)
    requires Indexes(inc, inc.Keys, 0, 0, index) && FindsPart(inc, seen, r, At(index, r), byContext)
    ensures Finds(inc, seen + {r}, byContext)
  {
    hide NoRepeats, FoundAt, At;
    forall c, p: nat, i ensures (p, i) in FoundAt(byContext, c) <==> c in inc && p < |inc[c]| && inc[c][p] == i && i.record in seen + {r} {
      if c in inc && p < |inc[c]| && inc[c][p] == i && i.record == r {
        assert Occurs(inc, r, Occurrence(c, p, i.edge));
      }
    }
  }

  /** The incidents of each context node put back into the order of the edges. */
  function Stripped(found: seq<Found>): (incidents: seq<Incident>)
    ensures |incidents| == |found|
  {
    seq(|found|, k requires 0 <= k < |found| => found[k].1)
  }

  method CandidatesByIndex(inc: Incidence, index: map<FormId, seq<Occurrence>>, members: set<FormId>) returns (candidates: Incidence)
    requires Indexes(inc, inc.Keys, 0, 0, index)
    ensures candidates == Scanned(inc, members)
  {
    var byContext := Gather(inc, index, members);
    candidates := map c | c in byContext :: Stripped(SortByKey(byContext[c]));
    SameAsScan(inc, members, byContext);
  }

  // --------------------------------------------------------------- the same candidates

  /** The found pairs in order: every member incident with its position. */
  ghost function Numbered(incidents: seq<Incident>, members: set<FormId>): seq<Found> {
    if |incidents| == 0 then []
    else
      var n := |incidents| - 1;
      Numbered(incidents[..n], members) + (if incidents[n].record in members then [(n, incidents[n])] else [])
  }

  lemma {:induction false} NumberedLaw(incidents: seq<Incident>, members: set<FormId>)
    ensures Stripped(Numbered(incidents, members)) == AmongMembers(incidents, members)
    ensures StrictKeys(KeysOf(Numbered(incidents, members)))
    ensures forall p: nat, i :: (p, i) in Numbered(incidents, members) <==> p < |incidents| && incidents[p] == i && i.record in members
  {
    hide StrictKeys;
    var n := |incidents| - 1;
    if n < 0 {
      NothingNumbered();
    } else {
      var before := Numbered(incidents[..n], members);
      NumberedLaw(incidents[..n], members);
      forall k | 0 <= k < |before| ensures before[k].0 < n {
        assert (before[k].0, before[k].1) in before;
      }
      if incidents[n].record in members {
        OneMoreKey(before, n, incidents[n]);
      } else {
        assert Numbered(incidents, members) == before;
      }
    }
  }

  lemma NothingNumbered()
    ensures StrictKeys(KeysOf<Incident>([]))
  {}

  lemma OneMoreKey(before: seq<Found>, n: nat, i: Incident)
    requires StrictKeys(KeysOf(before)) && forall k | 0 <= k < |before| :: before[k].0 < n
    ensures StrictKeys(KeysOf(before + [(n, i)]))
  {
    var keys := KeysOf(before + [(n, i)]);
    forall j, k | 0 <= j < k < |keys| ensures keys[j] < keys[k] {
      if k < |before| {
        assert KeysOf(before)[j] < KeysOf(before)[k];
      }
    }
  }

  /** Two lists with the same elements, both in strictly ascending order of position, are
      the same list. */
  lemma {:induction false} SameList(a: seq<Found>, b: seq<Found>)
    requires StrictKeys(KeysOf(a)) && StrictKeys(KeysOf(b)) && forall x :: x in a <==> x in b
    ensures a == b
  {
    if |a| == 0 {
      if |b| > 0 {
        HasElement(b);
      }
    } else if |b| == 0 {
      HasElement(a);
    } else {
      var m, n := |a| - 1, |b| - 1;
      LastIsSame(a, b);
      forall x ensures x in a[..m] <==> x in b[..n] {
        InFront(a, x);
        InFront(b, x);
      }
      assert KeysOf(a[..m]) == KeysOf(a)[..m] && KeysOf(b[..n]) == KeysOf(b)[..n];
      SameList(a[..m], b[..n]);
      assert a == a[..m] + [a[m]] && b == b[..n] + [b[n]];
    }
  }

  lemma HasElement(a: seq<Found>)
    requires |a| > 0
    ensures exists x :: x in a
  {
    assert a[0] in a;
  }

  lemma KeyOrder(a: seq<Found>, i: nat, j: nat)
    requires StrictKeys(KeysOf(a)) && i <= j < |a|
    ensures a[i].0 <= a[j].0 && (i < j ==> a[i].0 < a[j].0)
  {
    assert KeysOf(a)[i] == a[i].0 && KeysOf(a)[j] == a[j].0;
  }

  lemma InFront(a: seq<Found>, x: Found)
    requires |a| > 0 && StrictKeys(KeysOf(a))
    ensures x in a[..|a| - 1] <==> x in a && x != a[|a| - 1]
  {
    var m := |a| - 1;
    forall k | 0 <= k < m ensures a[k] != a[m] {
      assert KeysOf(a)[k] < KeysOf(a)[m];
    }
  }

  lemma LastIsSame(a: seq<Found>, b: seq<Found>)
    requires |a| > 0 && |b| > 0 && StrictKeys(KeysOf(a)) && StrictKeys(KeysOf(b)) && forall x :: x in a <==> x in b
    ensures a[|a| - 1] == b[|b| - 1]
  {
    var m, n := |a| - 1, |b| - 1;
    assert a[m] in b && b[n] in a;
    var i :| 0 <= i < |b| && b[i] == a[m];
    var j :| 0 <= j < |a| && a[j] == b[n];
    KeyOrder(b, i, n);
    KeyOrder(a, j, m);
  }

  /** Sorting what was found gives the scan's list. */
  lemma SortedIsScan(inc: Incidence, members: set<FormId>, byContext: map<FormId, seq<Found>>, c: FormId)
    requires Finds(inc, members, byContext) && c in inc
    ensures Stripped(SortByKey(FoundAt(byContext, c))) == AmongMembers(inc[c], members)
  {
    hide SortByKey;
    var found := FoundAt(byContext, c);
    NumberedLaw(inc[c], members);
    DistinctPositions(inc, members, byContext, c);
    SortStrict(found);
    SortLaw(found);
    forall x ensures x in SortByKey(found) <==> x in Numbered(inc[c], members) {
      assert x == (x.0, x.1);
      assert (x.0, x.1) in FoundAt(byContext, c) <==> x.0 < |inc[c]| && inc[c][x.0] == x.1 && x.1.record in members;
    }
    SameList(SortByKey(found), Numbered(inc[c], members));
  }

  lemma DistinctPositions(inc: Incidence, members: set<FormId>, byContext: map<FormId, seq<Found>>, c: FormId)
    requires Finds(inc, members, byContext)
    ensures var found := FoundAt(byContext, c); forall i, j | 0 <= i < j < |found| :: found[i].0 != found[j].0
  {
    var found := FoundAt(byContext, c);
    assert NoRepeats(found);
    forall i, j | 0 <= i < j < |found| ensures found[i].0 != found[j].0 {
      assert (found[i].0, found[i].1) in found && (found[j].0, found[j].1) in found;
      assert found[i] != found[j];
    }
  }

  lemma SameAsScan(inc: Incidence, members: set<FormId>, byContext: map<FormId, seq<Found>>)
    requires Finds(inc, members, byContext)
    ensures (map c | c in byContext :: Stripped(SortByKey(byContext[c]))) == Scanned(inc, members)
  {
    hide SortByKey, Stripped, AmongMembers;
    forall c ensures c in byContext <==> c in Scanned(inc, members) {
      FoundIffScanned(inc, members, byContext, c);
    }
    forall c <- byContext ensures Stripped(SortByKey(byContext[c])) == Scanned(inc, members)[c] {
      FoundIffScanned(inc, members, byContext, c);
    }
  }

  lemma FoundIffScanned(inc: Incidence, members: set<FormId>, byContext: map<FormId, seq<Found>>, c: FormId)
    requires Finds(inc, members, byContext)
    ensures c in byContext <==> c in inc && |AmongMembers(inc[c], members)| > 0
    ensures c in byContext ==> c in inc && Stripped(SortByKey(byContext[c])) == AmongMembers(inc[c], members)
  {
    hide SortByKey, AmongMembers;
    if c in byContext {
      var x := byContext[c][0];
      assert (x.0, x.1) in FoundAt(byContext, c);
    }
    if c in inc {
      SortedIsScan(inc, members, byContext, c);
    }
  }
}
