/** The record index built from the structural walk: the sorted forms table, the
    type directory and the reverse references, against plain maps. */
module FormIndex {
  import opened Wrappers
  import opened Bytes
  import opened EsmFormat
  import opened EsmWalk
  import opened Sorting

  type FormId = nat

  datatype Forms = Forms(records: seq<(nat, RecordMeta)>, types: map<Signature, seq<FormId>>)

  // ------------------------------------------------------------ the reference map

  /** The last record with this FormID in the event stream. */
  ghost function LastRecord(events: seq<Event>, id: FormId): Option<RecordMeta> {
    if |events| == 0 then None
    else
      var e := events[|events| - 1];
      if e.RecordEvent? && e.formId == id then Some(RecordMeta(e.offset, e.signature, e.flags, e.formVersion))
      else LastRecord(events[..|events| - 1], id)
  }

  /** It is the record as the walk reported it, and no later event has its FormID. */
  lemma {:induction false} LastRecordIs(events: seq<Event>, id: FormId) returns (i: nat)
    requires LastRecord(events, id).Some?
    ensures i < |events| && events[i].RecordEvent? && events[i].formId == id
    ensures var m := LastRecord(events, id).value;
      && m.offset == events[i].offset && m.signature == events[i].signature
      && m.flags == events[i].flags && m.formVersion == events[i].formVersion
    ensures forall j | i < j < |events| :: events[j].RecordEvent? ==> events[j].formId != id
  {
    i := |events| - 1;
    if !(events[i].RecordEvent? && events[i].formId == id) {
      i := LastRecordIs(events[..i], id);
    }
  }

  ghost function Find<V>(m: map<FormId, V>, id: FormId): Option<V> {
    if id in m then Some(m[id]) else None
  }

  // ----------------------------------------------------------------------- building

  /** The FormID map: a later record replaces an earlier one. */
  method InsertRecords(events: seq<Event>) returns (m: map<FormId, RecordMeta>)
    ensures forall id :: Find(m, id) == LastRecord(events, id)
  {
    m := map[];
    assert events[..0] == [];
    for i := 0 to |events|
      invariant forall id :: Find(m, id) == LastRecord(events[..i], id)
    {
      var e := events[i];
      assert events[..i + 1][..i] == events[..i];
      if e.RecordEvent? {
        m := m[e.formId := RecordMeta(e.offset, e.signature, e.flags, e.formVersion)];
      }
    }
    assert events[..|events|] == events;
  }

  ghost predicate DistinctKeys<V>(xs: seq<(nat, V)>) {
    forall i, j | 0 <= i < j < |xs| :: xs[i].0 != xs[j].0
  }

  /** The pairs of a map, in no particular order. */
  method Pairs<V>(m: map<FormId, V>) returns (xs: seq<(nat, V)>)
    ensures DistinctKeys(xs)
    ensures forall k, v :: (k, v) in xs <==> k in m && m[k] == v
  {
    xs := [];
    var rest := m.Keys;
    while rest != {}
      invariant rest <= m.Keys
      invariant DistinctKeys(xs) && forall i | 0 <= i < |xs| :: xs[i].0 !in rest
      invariant forall k, v :: (k, v) in xs <==> k in m && k !in rest && m[k] == v
      decreases rest
    {
      var k :| k in rest;
      xs := xs + [(k, m[k])];
      rest := rest - {k};
    }
  }

  /** The sorted table holds exactly the map. */
  ghost predicate TableOf(records: seq<(nat, RecordMeta)>, m: map<FormId, RecordMeta>) {
    && StrictKeys(KeysOf(records))
    && forall k, v :: (k, v) in records <==> k in m && m[k] == v
  }

  /** Each listed type has an ascending list of exactly its records. */
  ghost predicate DirectoryOf(types: map<Signature, seq<FormId>>, m: map<FormId, RecordMeta>) {
    && (forall sig <- types :: |types[sig]| > 0 && StrictKeys(types[sig]))
    && (forall sig <- types, id :: id in types[sig] <==> id in m && m[id].signature == sig)
    && (forall id <- m :: m[id].signature in types)
  }

  method BuildForms(events: seq<Event>) returns (forms: Forms, ghost m: map<FormId, RecordMeta>)
    ensures forall id :: Find(m, id) == LastRecord(events, id)
    ensures TableOf(forms.records, m) && DirectoryOf(forms.types, m)
  {
    var index := InsertRecords(events);
    m := index;
    var pairs := Pairs(index);
    SortStrict(pairs);
    SortLaw(pairs);
    var records := SortByKey(pairs);
    var types := BuildTypeIndex(index);
    forms := Forms(records, types);
  }

  /** Groups the FormIDs by signature, then sorts every group. */
  method BuildTypeIndex(m: map<FormId, RecordMeta>) returns (types: map<Signature, seq<FormId>>)
    ensures DirectoryOf(types, m)
  {
    var groups: map<Signature, seq<FormId>> := map[];
    var rest := m.Keys;
    while rest != {}
      invariant rest <= m.Keys
      invariant Grouped(groups, m, m.Keys - rest)
      decreases rest
    {
      var id :| id in rest;
      var sig := m[id].signature;
      GroupedStep(groups, m, m.Keys - rest, id);
      groups := groups[sig := (if sig in groups then groups[sig] else []) + [id]];
      rest := rest - {id};
    }
    GroupsSorted(groups, m);
    types := map sig | sig in groups :: SortIds(groups[sig]);
  }

  lemma GroupsSorted(groups: map<Signature, seq<FormId>>, m: map<FormId, RecordMeta>)
    requires Grouped(groups, m, m.Keys)
    ensures DirectoryOf(map sig | sig in groups :: SortIds(groups[sig]), m)
  {
    hide SortIds;
    forall sig <- groups
      ensures StrictKeys(SortIds(groups[sig])) && |SortIds(groups[sig])| > 0
      ensures forall id :: id in SortIds(groups[sig]) <==> id in groups[sig]
    {
      SortIdsLaw(groups[sig]);
    }
  }

  ghost predicate Distinct(ids: seq<FormId>) {
    forall i, j | 0 <= i < j < |ids| :: ids[i] != ids[j]
  }

  ghost predicate Grouped(groups: map<Signature, seq<FormId>>, m: map<FormId, RecordMeta>, done: set<FormId>) {
    && (forall sig <- groups :: |groups[sig]| > 0 && Distinct(groups[sig]))
    && (forall sig <- groups, id :: id in groups[sig] <==> id in done && id in m && m[id].signature == sig)
    && (forall id <- done :: id in m ==> m[id].signature in groups)
  }

  lemma GroupedStep(groups: map<Signature, seq<FormId>>, m: map<FormId, RecordMeta>, done: set<FormId>, id: FormId)
    requires Grouped(groups, m, done) && id in m && id !in done
    ensures var sig := m[id].signature;
      Grouped(groups[sig := (if sig in groups then groups[sig] else []) + [id]], m, done + {id})
  {
    var sig := m[id].signature;
    var before := if sig in groups then groups[sig] else [];
    forall i | 0 <= i < |before| ensures before[i] != id {
      assert before[i] in before;
    }
  }

  // ------------------------------------------------------------------------ lookups

  lemma TableKeys(records: seq<(nat, RecordMeta)>, m: map<FormId, RecordMeta>)
    requires TableOf(records, m)
    ensures forall id :: id in m <==> id in KeysOf(records)
  {
    forall id | id in m ensures id in KeysOf(records) {
      assert (id, m[id]) in records;
      var i :| 0 <= i < |records| && records[i] == (id, m[id]);
      assert KeysOf(records)[i] == id;
    }
    forall id | id in KeysOf(records) ensures id in m {
      var i :| 0 <= i < |records| && KeysOf(records)[i] == id;
      assert (id, records[i].1) in records;
    }
  }

  /** Binary search over the sorted table. */
  method GetByFormId(forms: Forms, id: FormId, ghost m: map<FormId, RecordMeta>) returns (meta: Option<RecordMeta>)
    requires TableOf(forms.records, m)
    ensures meta == Find(m, id)
  {
    TableKeys(forms.records, m);
    var found := BinarySearch(KeysOf(forms.records), id);
    if found.None? {
      return None;
    }
    var entry := forms.records[found.value];
    assert (entry.0, entry.1) in forms.records;
    meta := Some(entry.1);
  }

  /** The FormIDs of one type, ascending. */
  function FormIdsByType(forms: Forms, sig: Signature): seq<FormId> {
    if sig in forms.types then forms.types[sig] else []
  }

  /** The FormIDs of one type with their records. */
  method RecordsByType(forms: Forms, sig: Signature, ghost m: map<FormId, RecordMeta>) returns (rows: seq<(FormId, RecordMeta)>)
    requires TableOf(forms.records, m) && DirectoryOf(forms.types, m)
    ensures KeysOf(rows) == FormIdsByType(forms, sig)
    ensures forall i | 0 <= i < |rows| :: rows[i].0 in m && rows[i].1 == m[rows[i].0] && rows[i].1.signature == sig
  {
    var ids := FormIdsByType(forms, sig);
    rows := [];
    for i := 0 to |ids|
      invariant KeysOf(rows) == ids[..i]
      invariant forall j | 0 <= j < |rows| :: rows[j].0 in m && rows[j].1 == m[rows[j].0] && rows[j].1.signature == sig
    {
      assert ids[i] in forms.types[sig];
      var meta := GetByFormId(forms, ids[i], m);
      if meta.Some? {
        rows := rows + [(ids[i], meta.value)];
      }
    }
  }

  /** The type lists partition the indexed FormIDs. */
  lemma TypesPartition(forms: Forms, m: map<FormId, RecordMeta>)
    requires DirectoryOf(forms.types, m)
    ensures forall id :: id in m <==> exists sig <- forms.types :: id in forms.types[sig]
    ensures forall sig <- forms.types, sig' <- forms.types, id :: id in forms.types[sig] && id in forms.types[sig'] ==> sig == sig'
    ensures forall sig :: |FormIdsByType(forms, sig)| > 0 <==> sig in forms.types
  {
    forall id | id in m ensures exists sig <- forms.types :: id in forms.types[sig] {
      assert id in forms.types[m[id].signature];
    }
    forall sig <- forms.types, sig' <- forms.types, id | id in forms.types[sig] && id in forms.types[sig'] ensures sig == sig' {
      assert m[id].signature == sig && m[id].signature == sig';
    }
  }

  // -------------------------------------------------------------- reverse references

  /** A record of the file as the decoder reads it: its FormID and the FormIDs its
      fields name, or nothing when it cannot be parsed. */
  datatype Decoded = Unparsable | Decoded(formId: FormId, refs: seq<FormId>)

  /** Record `d` counts as a reference from an indexed record to `t`, which must be
      another form that exists. */
  predicate References(index: set<FormId>, hardcoded: set<FormId>, d: Decoded, t: FormId) {
    d.Decoded? && d.formId in index && t in d.refs && t != d.formId && (t in index || t in hardcoded)
  }

  /** The records that reference `t`, in file order. */
  ghost function Referencers(index: set<FormId>, hardcoded: set<FormId>, file: seq<Decoded>, t: FormId): seq<FormId> {
    if |file| == 0 then []
    else
      var d := file[|file| - 1];
      Referencers(index, hardcoded, file[..|file| - 1], t) + (if References(index, hardcoded, d, t) then [d.formId] else [])
  }

  function GetXref(xref: map<FormId, seq<FormId>>, t: FormId): seq<FormId> {
    if t in xref then xref[t] else []
  }

  /** Inverts every record's references; a record that names a target several
      times counts once. */
  method BuildXref(index: set<FormId>, hardcoded: set<FormId>, file: seq<Decoded>) returns (xref: map<FormId, seq<FormId>>)
    ensures forall t :: GetXref(xref, t) == Referencers(index, hardcoded, file, t)
  {
    xref := map[];
    assert file[..0] == [];
    for i := 0 to |file|
      invariant forall t :: GetXref(xref, t) == Referencers(index, hardcoded, file[..i], t)
    {
      assert file[..i + 1][..i] == file[..i];
      var d := file[i];
      if d.Unparsable? {
        continue;
      }
      if d.formId !in index {
        continue;
      }
      xref := AddReferences(index, hardcoded, d, xref);
    }
    assert file[..|file|] == file;
  }

  method AddReferences(index: set<FormId>, hardcoded: set<FormId>, d: Decoded, before: map<FormId, seq<FormId>>)
    returns (xref: map<FormId, seq<FormId>>)
    requires d.Decoded? && d.formId in index
    ensures forall t ::
      GetXref(xref, t) == GetXref(before, t) + (if References(index, hardcoded, d, t) then [d.formId] else [])
  {
    xref := before;
    var seen: set<FormId> := {};
    for k := 0 to |d.refs|
      invariant forall t :: t in seen <==> t in d.refs[..k] && References(index, hardcoded, d, t)
      invariant forall t :: GetXref(xref, t) == GetXref(before, t) + (if t in seen then [d.formId] else [])
    {
      var target := d.refs[k];
      assert d.refs[..k + 1] == d.refs[..k] + [target];
      var exists' := target in index || target in hardcoded;
      if target != d.formId && exists' && target !in seen {
        seen := seen + {target};
        xref := xref[target := GetXref(xref, target) + [d.formId]];
      }
    }
    assert d.refs[..|d.refs|] == d.refs;
  }

  ghost predicate UniqueIds(file: seq<Decoded>) {
    forall i, j | 0 <= i < j < |file| && file[i].Decoded? && file[j].Decoded? :: file[i].formId != file[j].formId
  }

  /** Record `r` of the file is indexed and names `t`, which is another record, indexed or
      built into the game. */
  ghost predicate IsReferenced(index: set<FormId>, hardcoded: set<FormId>, file: seq<Decoded>, t: FormId, r: FormId) {
    && r in index && t != r && t in index + hardcoded
    && exists i | 0 <= i < |file| :: file[i].Decoded? && file[i].formId == r && t in file[i].refs
  }

  lemma ReferencedStep(index: set<FormId>, hardcoded: set<FormId>, file: seq<Decoded>, t: FormId, r: FormId)
    requires |file| > 0
    ensures var n := |file| - 1;
      IsReferenced(index, hardcoded, file, t, r)
      <==> IsReferenced(index, hardcoded, file[..n], t, r)
           || (References(index, hardcoded, file[n], t) && file[n].formId == r)
  {
    var n := |file| - 1;
    if IsReferenced(index, hardcoded, file[..n], t, r) {
      var i :| 0 <= i < n && file[..n][i].Decoded? && file[..n][i].formId == r && t in file[..n][i].refs;
      assert file[i] == file[..n][i];
    }
    if i :| 0 <= i < n && file[i].Decoded? && file[i].formId == r && t in file[i].refs {
      assert file[..n][i] == file[i];
    }
  }

  /** A target's list holds exactly the records that reference it, and when no
      FormID occurs twice in the file, each once. */
  lemma {:induction false} ReferencersLaw(index: set<FormId>, hardcoded: set<FormId>, file: seq<Decoded>, t: FormId)
    ensures forall r :: r in Referencers(index, hardcoded, file, t) <==> IsReferenced(index, hardcoded, file, t, r)
    ensures UniqueIds(file) ==> Distinct(Referencers(index, hardcoded, file, t))
  {
    hide IsReferenced;
    if |file| == 0 {
      NothingReferenced(index, hardcoded, file, t);
    } else {
      var n := |file| - 1;
      var d, before := file[n], Referencers(index, hardcoded, file[..n], t);
      ReferencersLaw(index, hardcoded, file[..n], t);
      forall r ensures r in Referencers(index, hardcoded, file, t) <==> IsReferenced(index, hardcoded, file, t, r) {
        ReferencedStep(index, hardcoded, file, t, r);
      }
      if UniqueIds(file) {
        assert UniqueIds(file[..n]);
        if References(index, hardcoded, d, t) {
          LastIsNew(index, hardcoded, file, t);
          forall i | 0 <= i < |before| ensures before[i] != d.formId {
            assert before[i] in before;
          }
        }
      }
    }
  }

  lemma NothingReferenced(index: set<FormId>, hardcoded: set<FormId>, file: seq<Decoded>, t: FormId)
    requires |file| == 0
    ensures forall r :: !IsReferenced(index, hardcoded, file, t, r)
  {}

  lemma LastIsNew(index: set<FormId>, hardcoded: set<FormId>, file: seq<Decoded>, t: FormId)
    requires |file| > 0 && UniqueIds(file) && References(index, hardcoded, file[|file| - 1], t)
    ensures !IsReferenced(index, hardcoded, file[..|file| - 1], t, file[|file| - 1].formId)
  {}
}
