/** The compact string table: sorted ids, cumulative ends and one text blob,
    against the plain map in which the last entry of an id wins. */
module StringTable {
  import opened Wrappers
  import opened Bytes
  import opened Sorting

  type Entry = (nat, Blob)

  /** `ends` are 32-bit numbers. */
  datatype Table = Table(ids: seq<nat>, ends: seq<nat>, text: Blob)

  // ------------------------------------------------------------ the reference map

  /** The text of the last entry with this id. */
  ghost function LastWins(entries: seq<Entry>, id: nat): Option<Blob> {
    if |entries| == 0 then None
    else if entries[|entries| - 1].0 == id then Some(entries[|entries| - 1].1)
    else LastWins(entries[..|entries| - 1], id)
  }

  // -------------------------------------------------------------- what is kept

  /** The last entry of every run of equal ids. */
  function Kept(sorted: seq<Entry>): seq<Entry> {
    if |sorted| == 0 then []
    else if |sorted| > 1 && sorted[1].0 == sorted[0].0 then Kept(sorted[1..])
    else [sorted[0]] + Kept(sorted[1..])
  }

  function Texts(kept: seq<Entry>): Blob {
    if |kept| == 0 then [] else Texts(kept[..|kept| - 1]) + kept[|kept| - 1].1
  }

  /** A table over `kept`: every end is the text so far, cut to 32 bits. */
  ghost predicate Over(t: Table, kept: seq<Entry>) {
    && |t.ids| == |t.ends| == |kept|
    && t.text == Texts(kept)
    && (forall i | 0 <= i < |kept| :: t.ids[i] == kept[i].0)
    && (forall i | 0 <= i < |kept| :: t.ends[i] == |Texts(kept[..i + 1])| % U32)
  }

  lemma KeptStep(kept: seq<Entry>, e: Entry, t: Table)
    requires Over(t, kept)
    ensures Over(Table(t.ids + [e.0], t.ends + [(|t.text| + |e.1|) % U32], t.text + e.1), kept + [e])
  {
    var more, ends := kept + [e], t.ends + [(|t.text| + |e.1|) % U32];
    assert more[..|kept|] == kept && more[..|kept| + 1] == more;
    forall i | 0 <= i < |more| ensures ends[i] == |Texts(more[..i + 1])| % U32 {
      if i < |kept| {
        assert more[..i + 1] == kept[..i + 1];
      }
    }
  }

  /** Builds the table; a repeated id keeps its last text. */
  method FromEntries(entries: seq<Entry>) returns (t: Table)
    ensures Over(t, Kept(SortByKey(entries)))
  {
    var sorted := SortByKey(entries);
    t := Table([], [], []);
    ghost var kept: seq<Entry> := [];
    assert sorted[0..] == sorted;
    for i := 0 to |sorted|
      invariant Over(t, kept)
      invariant kept + Kept(sorted[i..]) == Kept(sorted)
    {
      hide Over;
      var e := sorted[i];
      assert sorted[i..][1..] == sorted[i + 1..];
      if i + 1 < |sorted| && sorted[i + 1].0 == e.0 {
        assert sorted[i..][1].0 == sorted[i..][0].0;
        continue;
      }
      KeptStep(kept, e, t);
      assert kept + ([e] + Kept(sorted[i + 1..])) == kept + [e] + Kept(sorted[i + 1..]);
      t := Table(t.ids + [e.0], t.ends + [(|t.text| + |e.1|) % U32], t.text + e.1);
      kept := kept + [e];
    }
    assert kept + [] == kept;
  }

  /** The text of `id`: binary search for it, then cut it out of the blob. */
  method Get(t: Table, id: nat) returns (text: Option<Blob>)
    requires StrictKeys(t.ids) && |t.ids| == |t.ends|
    ensures id !in t.ids ==> text == None
    ensures forall i | 0 <= i < |t.ids| && t.ids[i] == id :: text == Cut(t, i)
  {
    var found := BinarySearch(t.ids, id);
    if found.None? {
      return None;
    }
    var i := found.value;
    var start := if i == 0 then 0 else t.ends[i - 1];
    var end := t.ends[i];
    text := if start <= end <= |t.text| then Some(t.text[start..end]) else None;
  }

  ghost function Cut(t: Table, i: nat): Option<Blob>
    requires i < |t.ids| == |t.ends|
  {
    var start := if i == 0 then 0 else t.ends[i - 1];
    if start <= t.ends[i] <= |t.text| then Some(t.text[start..t.ends[i]]) else None
  }

  // ----------------------------------------------------------- the last entry wins

  lemma {:induction false} LastOfRun(entries: seq<Entry>, id: nat)
    ensures var run := WithKey(entries, id);
      LastWins(entries, id) == if |run| == 0 then None else Some(run[|run| - 1].1)
  {
    if |entries| > 0 {
      var n := |entries| - 1;
      LastOfRun(entries[..n], id);
      WithKeyAppend(entries[..n], entries[n], id);
      assert entries[..n] + [entries[n]] == entries;
    }
  }

  lemma {:induction false} WithKeyAppend(xs: seq<Entry>, x: Entry, k: nat)
    ensures WithKey(xs + [x], k) == WithKey(xs, k) + (if x.0 == k then [x] else [])
  {
    if |xs| == 0 {
      assert ([x])[1..] == [];
      assert xs + [x] == [x];
    } else {
      assert (xs + [x])[1..] == xs[1..] + [x];
      WithKeyAppend(xs[1..], x, k);
      var own: seq<Entry> := if xs[0].0 == k then [xs[0]] else [];
      var last: seq<Entry> := if x.0 == k then [x] else [];
      assert own + (WithKey(xs[1..], k) + last) == own + WithKey(xs[1..], k) + last;
    }
  }

  ghost predicate LastInRun(sorted: seq<Entry>, e: Entry) {
    var run := WithKey(sorted, e.0);
    |run| > 0 && run[|run| - 1] == e
  }

  ghost predicate Strict(xs: seq<Entry>) {
    forall i, j | 0 <= i < j < |xs| :: xs[i].0 < xs[j].0
  }

  lemma {:induction false} KeptMembers(sorted: seq<Entry>)
    ensures forall e <- Kept(sorted) :: e in sorted
  {
    if |sorted| > 0 {
      KeptMembers(sorted[1..]);
      assert sorted == [sorted[0]] + sorted[1..];
    }
  }

  /** Among sorted entries a key that changes never comes back. */
  lemma RunEnds(sorted: seq<Entry>)
    requires Sorted(sorted) && |sorted| > 0 && !(|sorted| > 1 && sorted[1].0 == sorted[0].0)
    ensures forall e <- sorted[1..] :: sorted[0].0 < e.0
    ensures WithKey(sorted[1..], sorted[0].0) == []
  {
    forall i | 0 <= i < |sorted[1..]| ensures sorted[0].0 < sorted[1..][i].0 {
      assert sorted[1].0 <= sorted[i + 1].0;
    }
    WithKeyNone(sorted[1..], sorted[0].0);
  }

  lemma {:induction false} KeptStrict(sorted: seq<Entry>)
    requires Sorted(sorted)
    ensures Strict(Kept(sorted))
  {
    if |sorted| > 0 {
      KeptStrict(sorted[1..]);
      KeptMembers(sorted[1..]);
      if !(|sorted| > 1 && sorted[1].0 == sorted[0].0) {
        RunEnds(sorted);
        forall j | 0 <= j < |Kept(sorted[1..])| ensures sorted[0].0 < Kept(sorted[1..])[j].0 {
          assert Kept(sorted[1..])[j] in Kept(sorted[1..]);
        }
      }
    }
  }

  lemma {:induction false} KeptLast(sorted: seq<Entry>)
    requires Sorted(sorted)
    ensures forall e <- Kept(sorted) :: LastInRun(sorted, e)
  {
    if |sorted| > 0 {
      KeptLast(sorted[1..]);
      forall e <- Kept(sorted) ensures LastInRun(sorted, e) {
        if e in Kept(sorted[1..]) {
          assert LastInRun(sorted[1..], e);
        } else {
          RunEnds(sorted);
        }
      }
    }
  }

  lemma {:induction false} KeptCovers(sorted: seq<Entry>, id: nat)
    requires exists e :: e in sorted && e.0 == id
    ensures exists e :: e in Kept(sorted) && e.0 == id
  {
    var e :| e in sorted && e.0 == id;
    if e in sorted[1..] {
      KeptCovers(sorted[1..], id);
      var k :| k in Kept(sorted[1..]) && k.0 == id;
      assert k in Kept(sorted);
    } else if |sorted| > 1 && sorted[1].0 == sorted[0].0 {
      assert e == sorted[0] && sorted[1] in sorted[1..];
      KeptCovers(sorted[1..], id);
    } else {
      assert e == sorted[0] && sorted[0] in Kept(sorted);
    }
  }

  /** The entry kept for an id is the last one given. */
  lemma KeptIsLast(entries: seq<Entry>, e: Entry)
    requires e in Kept(SortByKey(entries))
    ensures LastWins(entries, e.0) == Some(e.1)
  {
    hide Kept, WithKey, SortByKey;
    var sorted := SortByKey(entries);
    SortLaw(entries);
    KeptLast(sorted);
    LastOfRun(entries, e.0);
    assert LastInRun(sorted, e);
  }

  lemma NotKept(entries: seq<Entry>, id: nat)
    requires forall e <- Kept(SortByKey(entries)) :: e.0 != id
    ensures LastWins(entries, id) == None
  {
    hide Kept, SortByKey;
    var sorted := SortByKey(entries);
    SortLaw(entries);
    forall i | 0 <= i < |entries| ensures entries[i].0 != id {
      assert entries[i] in sorted;
      if entries[i].0 == id {
        KeptCovers(sorted, id);
      }
    }
    WithKeyNone(entries, id);
    LastOfRun(entries, id);
  }

  // -------------------------------------------------------------- cutting texts out

  lemma {:induction false} TextsSplit(kept: seq<Entry>, i: nat)
    requires i <= |kept|
    ensures |Texts(kept[..i])| <= |Texts(kept)| && Texts(kept)[..|Texts(kept[..i])|] == Texts(kept[..i])
  {
    if i < |kept| {
      var n := |kept| - 1;
      TextsSplit(kept[..n], i);
      assert kept[..n][..i] == kept[..i];
    } else {
      assert kept[..i] == kept;
    }
  }

  lemma TextAt(kept: seq<Entry>, i: nat)
    requires i < |kept|
    ensures var start, end := |Texts(kept[..i])|, |Texts(kept[..i + 1])|;
      end == start + |kept[i].1| && end <= |Texts(kept)| && Texts(kept)[start..end] == kept[i].1
  {
    var prefix := kept[..i + 1];
    assert prefix[..i] == kept[..i];
    TextsSplit(kept, i);
    TextsSplit(kept, i + 1);
    assert Texts(prefix) == Texts(kept[..i]) + kept[i].1;
  }

  /** While the text fits 32 bits the slices tile the blob. */
  lemma CutsTile(t: Table, kept: seq<Entry>, i: nat)
    requires Over(t, kept) && i < |kept| && |Texts(kept[..i + 1])| < U32
    ensures Cut(t, i) == Some(kept[i].1)
  {
    TextAt(kept, i);
    if i > 0 {
      assert t.ends[i - 1] == |Texts(kept[..(i - 1) + 1])| % U32;
    }
  }

  /** The first text that ends beyond 32 bits is not read back. */
  lemma CutWraps(t: Table, kept: seq<Entry>, i: nat)
    requires Over(t, kept) && i < |kept|
    requires |Texts(kept[..i])| < U32 <= |Texts(kept[..i + 1])|
    ensures Cut(t, i) != Some(kept[i].1)
  {
    TextAt(kept, i);
    if i > 0 {
      assert t.ends[i - 1] == |Texts(kept[..(i - 1) + 1])| % U32;
    }
    var start, end := |Texts(kept[..i])|, |Texts(kept[..i + 1])|;
    assert t.ends[i] == end % U32 < end;
  }

  /** What every id reads back. */
  ghost predicate ReadsBack(t: Table, entries: seq<Entry>)
    requires |t.ids| == |t.ends|
  {
    forall i | 0 <= i < |t.ids| :: Cut(t, i) == LastWins(entries, t.ids[i])
  }

  /** Every id of the table reads back its last text, and every other id is
      absent, exactly when the kept text fits 32 bits. */
  lemma TableLaw(t: Table, entries: seq<Entry>)
    requires Over(t, Kept(SortByKey(entries)))
    ensures StrictKeys(t.ids)
    ensures forall id | id !in t.ids :: LastWins(entries, id) == None
    ensures ReadsBack(t, entries) <==> |t.text| < U32
  {
    hide SortByKey, LastWins, Cut, Texts;
    var kept := Kept(SortByKey(entries));
    SortLaw(entries);
    KeptStrict(SortByKey(entries));
    forall id | id !in t.ids ensures LastWins(entries, id) == None {
      forall e <- kept ensures e.0 != id {
        var i :| 0 <= i < |kept| && kept[i] == e;
        assert t.ids[i] in t.ids;
      }
      NotKept(entries, id);
    }
    forall i | 0 <= i < |kept| ensures LastWins(entries, t.ids[i]) == Some(kept[i].1) {
      KeptIsLast(entries, kept[i]);
    }
    if |t.text| < U32 {
      forall i | 0 <= i < |t.ids| ensures Cut(t, i) == LastWins(entries, t.ids[i]) {
        TextsSplit(kept, i + 1);
        CutsTile(t, kept, i);
      }
    } else {
      var i := FirstBeyond(kept);
      CutWraps(t, kept, i);
      assert Cut(t, i) != LastWins(entries, t.ids[i]);
    }
  }

  /** One text of 2^32 bytes is enough for an id not to be answered. */
  lemma HugeTextIsForgotten(t: Table, huge: Blob)
    requires huge == seq(U32, _ => 65) && Over(t, Kept(SortByKey([(1, huge)])))
    ensures |t.ids| == |t.ends| == 1 && t.ids[0] == 1
    ensures LastWins([(1, huge)], 1) == Some(huge) && Cut(t, 0) != Some(huge)
  {
    var entries: seq<Entry> := [(1, huge)];
    assert entries[1..] == [] && SortByKey(entries) == entries && Kept(entries) == entries;
    assert entries[..0] == [] && entries[..1] == entries;
    assert Texts(entries) == [] + huge == huge;
    CutWraps(t, entries, 0);
  }

  lemma {:induction false} FirstBeyond(kept: seq<Entry>) returns (i: nat)
    requires |Texts(kept)| >= U32
    ensures i < |kept| && |Texts(kept[..i])| < U32 <= |Texts(kept[..i + 1])|
  {
    var n := |kept| - 1;
    assert kept[..n + 1] == kept;
    if |Texts(kept[..n])| < U32 {
      i := n;
    } else {
      i := FirstBeyond(kept[..n]);
      assert kept[..n][..i] == kept[..i] && kept[..n][..i + 1] == kept[..i + 1];
    }
  }
}
