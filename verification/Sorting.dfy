/** Stable sorting by a numeric key and binary search over the result. */
module Sorting {
  import opened Wrappers

  ghost predicate Sorted<V>(xs: seq<(nat, V)>) {
    forall i, j | 0 <= i < j < |xs| :: xs[i].0 <= xs[j].0
  }

  ghost predicate AtLeast<V>(k: nat, xs: seq<(nat, V)>) {
    forall i | 0 <= i < |xs| :: k <= xs[i].0
  }

  ghost predicate StrictKeys(keys: seq<nat>) {
    forall i, j | 0 <= i < j < |keys| :: keys[i] < keys[j]
  }

  function KeysOf<V>(xs: seq<(nat, V)>): (keys: seq<nat>)
    ensures |keys| == |xs|
  {
    seq(|xs|, i requires 0 <= i < |xs| => xs[i].0)
  }

  /** Puts `x` before the first entry whose key is not smaller. */
  function Insert<V>(x: (nat, V), xs: seq<(nat, V)>): (ys: seq<(nat, V)>)
    ensures |ys| == |xs| + 1
  {
    if |xs| == 0 || x.0 <= xs[0].0 then [x] + xs else [xs[0]] + Insert(x, xs[1..])
  }

  function SortByKey<V>(xs: seq<(nat, V)>): (ys: seq<(nat, V)>)
    ensures |ys| == |xs|
  {
    if |xs| == 0 then [] else Insert(xs[0], SortByKey(xs[1..]))
  }

  /** The entries with key `k`, in order. */
  ghost function WithKey<V>(xs: seq<(nat, V)>, k: nat): seq<(nat, V)> {
    if |xs| == 0 then [] else (if xs[0].0 == k then [xs[0]] else []) + WithKey(xs[1..], k)
  }

  lemma {:induction false} InsertAtLeast<V>(k: nat, x: (nat, V), xs: seq<(nat, V)>)
    requires k <= x.0 && AtLeast(k, xs)
    ensures AtLeast(k, Insert(x, xs))
  {
    if |xs| > 0 && x.0 > xs[0].0 {
      InsertAtLeast(k, x, xs[1..]);
    }
  }

  lemma {:induction false} InsertSorted<V>(x: (nat, V), xs: seq<(nat, V)>)
    requires Sorted(xs)
    ensures Sorted(Insert(x, xs))
  {
    if |xs| > 0 && x.0 > xs[0].0 {
      InsertSorted(x, xs[1..]);
      InsertAtLeast(xs[0].0, x, xs[1..]);
    }
  }

  lemma {:induction false} InsertMembers<V>(x: (nat, V), xs: seq<(nat, V)>)
    ensures forall e :: e in Insert(x, xs) <==> e == x || e in xs
  {
    if |xs| > 0 && x.0 > xs[0].0 {
      InsertMembers(x, xs[1..]);
      assert xs == [xs[0]] + xs[1..];
    }
  }

  lemma {:induction false} InsertStable<V>(x: (nat, V), xs: seq<(nat, V)>, k: nat)
    ensures WithKey(Insert(x, xs), k) == (if x.0 == k then [x] else []) + WithKey(xs, k)
  {
    if |xs| == 0 || x.0 <= xs[0].0 {
      assert ([x] + xs)[1..] == xs;
    } else {
      var rest := Insert(x, xs[1..]);
      InsertStable(x, xs[1..], k);
      assert Insert(x, xs)[1..] == rest;
      assert WithKey(Insert(x, xs), k) == (if xs[0].0 == k then [xs[0]] else []) + WithKey(rest, k);
    }
  }

  /** The sort orders by key, keeps exactly the entries, and keeps the order among
      equal keys. */
  lemma {:induction false} SortLaw<V>(xs: seq<(nat, V)>)
    ensures Sorted(SortByKey(xs))
    ensures forall e :: e in SortByKey(xs) <==> e in xs
    ensures forall k :: WithKey(SortByKey(xs), k) == WithKey(xs, k)
  {
    if |xs| > 0 {
      SortLaw(xs[1..]);
      InsertSorted(xs[0], SortByKey(xs[1..]));
      InsertMembers(xs[0], SortByKey(xs[1..]));
      forall k ensures WithKey(SortByKey(xs), k) == WithKey(xs, k) {
        InsertStable(xs[0], SortByKey(xs[1..]), k);
      }
      assert forall e :: e in xs <==> e == xs[0] || e in xs[1..];
    }
  }

  /** Distinct keys stay distinct, so the sorted keys are strictly ascending. */
  lemma SortStrict<V>(xs: seq<(nat, V)>)
    requires forall i, j | 0 <= i < j < |xs| :: xs[i].0 != xs[j].0
    ensures StrictKeys(KeysOf(SortByKey(xs)))
  {
    SortLaw(xs);
    var ys := SortByKey(xs);
    forall i, j | 0 <= i < j < |ys| ensures ys[i].0 < ys[j].0 {
      if ys[i].0 == ys[j].0 {
        WithKeyTwice(ys, i, j);
        WithKeyOnce(xs, ys[i].0);
      }
    }
  }

  lemma {:induction false} WithKeyTwice<V>(xs: seq<(nat, V)>, i: nat, j: nat)
    requires i < j < |xs| && xs[i].0 == xs[j].0
    ensures |WithKey(xs, xs[i].0)| >= 2
  {
    if i == 0 {
      WithKeyFound(xs[1..], j - 1);
    } else {
      WithKeyTwice(xs[1..], i - 1, j - 1);
    }
  }

  lemma {:induction false} WithKeyFound<V>(xs: seq<(nat, V)>, i: nat)
    requires i < |xs|
    ensures |WithKey(xs, xs[i].0)| >= 1
  {
    if i > 0 {
      WithKeyFound(xs[1..], i - 1);
    }
  }

  lemma {:induction false} WithKeyOnce<V>(xs: seq<(nat, V)>, k: nat)
    requires forall i, j | 0 <= i < j < |xs| :: xs[i].0 != xs[j].0
    ensures |WithKey(xs, k)| <= 1
  {
    if |xs| > 0 {
      WithKeyOnce(xs[1..], k);
      if xs[0].0 == k {
        WithKeyNone(xs[1..], k);
      }
    }
  }

  lemma {:induction false} WithKeyNone<V>(xs: seq<(nat, V)>, k: nat)
    requires forall i | 0 <= i < |xs| :: xs[i].0 != k
    ensures WithKey(xs, k) == []
  {
    if |xs| > 0 {
      WithKeyNone(xs[1..], k);
    }
  }

  function Doubled(ids: seq<nat>): (xs: seq<(nat, nat)>)
    ensures |xs| == |ids|
  {
    seq(|ids|, i requires 0 <= i < |ids| => (ids[i], ids[i]))
  }

  function SortIds(ids: seq<nat>): seq<nat> {
    KeysOf(SortByKey(Doubled(ids)))
  }

  /** Sorting distinct ids gives the same ids, strictly ascending. */
  lemma SortIdsLaw(ids: seq<nat>)
    requires forall i, j | 0 <= i < j < |ids| :: ids[i] != ids[j]
    ensures StrictKeys(SortIds(ids)) && |SortIds(ids)| == |ids|
    ensures forall id :: id in SortIds(ids) <==> id in ids
  {
    var xs := Doubled(ids);
    var ys := SortByKey(xs);
    SortStrict(xs);
    SortLaw(xs);
    forall id ensures id in SortIds(ids) <==> id in ids {
      if id in SortIds(ids) {
        var i :| 0 <= i < |ys| && ys[i].0 == id;
        assert ys[i] in xs;
        var k :| 0 <= k < |xs| && xs[k] == ys[i];
        assert ids[k] == id;
      }
      if id in ids {
        var k :| 0 <= k < |ids| && ids[k] == id;
        assert xs[k] in ys;
        var i :| 0 <= i < |ys| && ys[i] == xs[k];
        assert KeysOf(ys)[i] == id;
      }
    }
  }

  /** The index of `key` in strictly ascending keys, if it is there. */
  method BinarySearch(keys: seq<nat>, key: nat) returns (found: Option<nat>)
    requires StrictKeys(keys)
    ensures found.None? <==> key !in keys
    ensures found.Some? ==> found.value < |keys| && keys[found.value] == key
  {
    var lo, hi := 0, |keys|;
    while lo < hi
      invariant lo <= hi <= |keys|
      invariant forall i | 0 <= i < lo :: keys[i] < key
      invariant forall i | hi <= i < |keys| :: keys[i] > key
    {
      var mid := (lo + hi) / 2;
      if keys[mid] == key {
        return Some(mid);
      } else if keys[mid] < key {
        lo := mid + 1;
      } else {
        hi := mid;
      }
    }
    found := None;
  }

  /** The elements of a set in ascending order. */
  method Ascending(s: set<nat>) returns (xs: seq<nat>)
    ensures StrictKeys(xs) && forall x :: x in xs <==> x in s
  {
    var ids: seq<nat> := [];
    var rest := s;
    while rest != {}
      invariant rest <= s && (forall x :: x in ids <==> x in s && x !in rest)
      invariant forall i, j | 0 <= i < j < |ids| :: ids[i] != ids[j]
      decreases rest
    {
      var x :| x in rest;
      ids := ids + [x];
      rest := rest - {x};
    }
    SortIdsLaw(ids);
    xs := SortIds(ids);
  }
}
