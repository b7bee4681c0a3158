/** Choosing the anchor of a group, and the two merges that follow splitting. */
module BundleMerge {
  import opened Sorting
  import opened UnionFind

  /** What anchor selection looks at. A lower rank is a higher priority. */
  datatype Facts = Facts(rank: nat, statusWeight: int, named: bool, degree: nat)

  type Universe = map<FormId, Facts>

  /** Whether `a` is at least as good an anchor as `b`: by rank, status, name, degree, and
      last the lower FormID. */
  predicate AsGood(u: Universe, a: FormId, b: FormId)
    requires a in u && b in u
  {
    var x, y := u[a], u[b];
    if x.rank != y.rank then x.rank < y.rank
    else if x.statusWeight != y.statusWeight then x.statusWeight > y.statusWeight
    else if x.named != y.named then x.named
    else if x.degree != y.degree then x.degree > y.degree
    else a <= b
  }

  ghost predicate IsAnchor(u: Universe, group: set<FormId>, a: FormId) {
    a in group && group <= u.Keys && forall b <- group :: AsGood(u, a, b)
  }

  /** What makes a record the anchor, one criterion after the other: no other has a lower
      rank; of those as high, none a greater status; of those, none a name unless it has;
      of those, none more edges; and of those, none a lower FormID. */
  lemma AnchorIsBest(u: Universe, group: set<FormId>, a: FormId, b: FormId)
    requires IsAnchor(u, group, a) && b in group
    ensures u[a].rank <= u[b].rank
    ensures u[b].rank == u[a].rank ==> u[b].statusWeight <= u[a].statusWeight
    ensures (u[b].rank, u[b].statusWeight) == (u[a].rank, u[a].statusWeight) ==> u[b].named ==> u[a].named
    ensures (u[b].rank, u[b].statusWeight, u[b].named) == (u[a].rank, u[a].statusWeight, u[a].named) ==> u[b].degree <= u[a].degree
    ensures u[b] == u[a] ==> a <= b
  {}

  lemma OneAnchor(u: Universe, group: set<FormId>, a: FormId, b: FormId)
    requires IsAnchor(u, group, a) && IsAnchor(u, group, b)
    ensures a == b
  {}

  lemma AsGoodChain(u: Universe, a: FormId, b: FormId, c: FormId)
    requires a in u && b in u && c in u && AsGood(u, a, b) && AsGood(u, b, c)
    ensures AsGood(u, a, c)
  {}

  lemma AsGoodTotal(u: Universe, a: FormId, b: FormId)
    requires a in u && b in u
    ensures AsGood(u, a, b) || AsGood(u, b, a)
    ensures AsGood(u, a, a)
  {}

  /** The best record of a group to name it after. */
  method SelectAnchor(u: Universe, group: set<FormId>) returns (anchor: FormId)
    requires group != {} && group <= u.Keys
    ensures IsAnchor(u, group, anchor)
  {
    hide AsGood;
    anchor :| anchor in group;
    AsGoodTotal(u, anchor, anchor);
    var rest := group - {anchor};
    while rest != {}
      invariant rest <= group && anchor in group
      invariant forall b <- group | b !in rest :: AsGood(u, anchor, b)
      decreases rest
    {
      var x :| x in rest;
      AsGoodTotal(u, anchor, x);
      AsGoodTotal(u, x, x);
      if !AsGood(u, anchor, x) {
        forall b <- group | b !in rest ensures AsGood(u, x, b) {
          AsGoodChain(u, x, anchor, b);
        }
        anchor := x;
      }
      rest := rest - {x};
    }
  }

  ghost predicate AllIn(u: Universe, groups: seq<set<FormId>>) {
    forall i | 0 <= i < |groups| :: groups[i] != {} && groups[i] <= u.Keys
  }

  // -------------------------------------------------------------------- the same anchor

  /** `x` lies in one of the first `n` groups that have the anchor `a`. */
  ghost predicate InGroupOf(u: Universe, groups: seq<set<FormId>>, n: nat, a: FormId, x: FormId)
    requires n <= |groups|
  {
    exists i | 0 <= i < n :: IsAnchor(u, groups[i], a) && x in groups[i]
  }

  function Held(byAnchor: map<FormId, set<FormId>>, a: FormId): set<FormId> {
    if a in byAnchor then byAnchor[a] else {}
  }

  ghost predicate DistinctIds(ids: seq<FormId>) {
    forall i, j | 0 <= i < j < |ids| :: ids[i] != ids[j]
  }

  /** What each anchor holds after the first `n` groups. */
  ghost predicate Contents(u: Universe, groups: seq<set<FormId>>, n: nat, byAnchor: map<FormId, set<FormId>>)
    requires n <= |groups|
  {
    && (forall a, x :: x in Held(byAnchor, a) <==> InGroupOf(u, groups, n, a, x))
    && (forall a <- byAnchor :: byAnchor[a] != {})
  }

  ghost predicate Listed(byAnchor: map<FormId, set<FormId>>, order: seq<FormId>) {
    DistinctIds(order) && forall a :: a in order <==> a in byAnchor
  }

  ghost predicate HasAnchor(u: Universe, group: set<FormId>, byAnchor: map<FormId, set<FormId>>) {
    exists a: FormId :: IsAnchor(u, group, a) && a in byAnchor
  }

  /** Nothing has been merged: the groups stand one by one under their anchors. */
  ghost predicate OneByOne(u: Universe, groups: seq<set<FormId>>, n: nat, byAnchor: map<FormId, set<FormId>>, order: seq<FormId>)
    requires n <= |groups|
  {
    |order| == n && forall i | 0 <= i < n :: IsAnchor(u, groups[i], order[i]) && Held(byAnchor, order[i]) == groups[i]
  }

  /** Groups with one anchor become one, in the order the anchors first appear; the merged
      group keeps that anchor. Disjoint groups have different anchors and stay as they are. */
  method MergeSameAnchor(u: Universe, groups: seq<set<FormId>>) returns (merged: seq<set<FormId>>, ghost order: seq<FormId>)
    requires AllIn(u, groups)
    ensures |merged| == |order| && DistinctIds(order)
    ensures forall j, x | 0 <= j < |merged| :: x in merged[j] <==> InGroupOf(u, groups, |groups|, order[j], x)
    ensures forall j | 0 <= j < |merged| :: IsAnchor(u, merged[j], order[j])
    ensures forall i | 0 <= i < |groups| :: Within(groups[i], merged)
    ensures Disjoint(groups) ==> merged == groups
  {
    hide IsAnchor, InGroupOf, Disjoint, Contents, Listed, HasAnchor, OneByOne;
    var byAnchor: map<FormId, set<FormId>> := map[];
    var sequence: seq<FormId> := [];
    NothingMerged(u, groups);
    for i := 0 to |groups|
      invariant Contents(u, groups, i, byAnchor) && Listed(byAnchor, sequence)
      invariant forall k | 0 <= k < i :: HasAnchor(u, groups[k], byAnchor)
      invariant Disjoint(groups) ==> OneByOne(u, groups, i, byAnchor, sequence)
    {
      var a := SelectAnchor(u, groups[i]);
      var byAnchor' := byAnchor[a := Held(byAnchor, a) + groups[i]];
      var sequence' := if a in byAnchor then sequence else sequence + [a];
      ContentsGrow(u, groups, i, byAnchor, a);
      ListedGrows(byAnchor, sequence, a, byAnchor'[a]);
      AnchorsGrow(u, groups, i, byAnchor, byAnchor', a);
      if Disjoint(groups) {
        StillOneByOne(u, groups, i, byAnchor, sequence, a);
      }
      byAnchor, sequence := byAnchor', sequence';
    }
    merged := seq(|sequence|, i requires 0 <= i < |sequence| => Held(byAnchor, sequence[i]));
    order := sequence;
    ListedOnce(byAnchor, order);
    MergedGroups(u, groups, byAnchor, order, merged);
    NoneLost(u, groups, byAnchor, order, merged);
    if Disjoint(groups) {
      AllAsBefore(u, groups, byAnchor, order, merged);
    }
  }

  lemma NothingMerged(u: Universe, groups: seq<set<FormId>>)
    ensures Contents(u, groups, 0, map[]) && Listed(map[], []) && OneByOne(u, groups, 0, map[], [])
  {}

  lemma InGroupOfLast(u: Universe, groups: seq<set<FormId>>, n: nat, a: FormId, x: FormId)
    requires n < |groups|
    ensures InGroupOf(u, groups, n + 1, a, x) <==> InGroupOf(u, groups, n, a, x) || (IsAnchor(u, groups[n], a) && x in groups[n])
  {
    hide IsAnchor;
  }

  lemma ContentsGrow(u: Universe, groups: seq<set<FormId>>, i: nat, byAnchor: map<FormId, set<FormId>>, a: FormId)
    requires i < |groups| && Contents(u, groups, i, byAnchor) && IsAnchor(u, groups[i], a) && groups[i] != {}
    ensures Contents(u, groups, i + 1, byAnchor[a := Held(byAnchor, a) + groups[i]])
  {
    hide IsAnchor, InGroupOf;
    var after := byAnchor[a := Held(byAnchor, a) + groups[i]];
    forall b, x ensures x in Held(after, b) <==> InGroupOf(u, groups, i + 1, b, x) {
      InGroupOfLast(u, groups, i, b, x);
      if IsAnchor(u, groups[i], b) {
        OneAnchor(u, groups[i], a, b);
      }
      assert x in Held(byAnchor, b) <==> InGroupOf(u, groups, i, b, x);
    }
  }

  lemma ListedGrows(byAnchor: map<FormId, set<FormId>>, order: seq<FormId>, a: FormId, group: set<FormId>)
    requires Listed(byAnchor, order)
    ensures Listed(byAnchor[a := group], if a in byAnchor then order else order + [a])
  {
    if a !in byAnchor {
      forall i | 0 <= i < |order| ensures order[i] != a {
        assert order[i] in order;
      }
    }
  }

  lemma ListedOnce(byAnchor: map<FormId, set<FormId>>, order: seq<FormId>)
    requires Listed(byAnchor, order)
    ensures DistinctIds(order)
  {}

  lemma AnchorsGrow(u: Universe, groups: seq<set<FormId>>, i: nat, before: map<FormId, set<FormId>>, after: map<FormId, set<FormId>>, a: FormId)
    requires i < |groups| && IsAnchor(u, groups[i], a) && after.Keys == before.Keys + {a}
    requires forall k | 0 <= k < i :: HasAnchor(u, groups[k], before)
    ensures forall k | 0 <= k < i + 1 :: HasAnchor(u, groups[k], after)
  {
    hide IsAnchor;
    forall k | 0 <= k < i ensures HasAnchor(u, groups[k], after) {
      var b: FormId :| IsAnchor(u, groups[k], b) && b in before;
      assert b in after;
    }
    assert a in after;
    assert HasAnchor(u, groups[i], after);
  }

  lemma StillOneByOne(u: Universe, groups: seq<set<FormId>>, i: nat, byAnchor: map<FormId, set<FormId>>, order: seq<FormId>, a: FormId)
    requires i < |groups| && IsAnchor(u, groups[i], a) && Disjoint(groups)
    requires OneByOne(u, groups, i, byAnchor, order) && Listed(byAnchor, order)
    ensures a !in byAnchor
    ensures OneByOne(u, groups, i + 1, byAnchor[a := Held(byAnchor, a) + groups[i]], order + [a])
  {
    forall k | 0 <= k < i ensures order[k] != a {
      assert IsAnchor(u, groups[k], order[k]);
    }
    assert a !in order;
  }

  lemma MergedGroups(u: Universe, groups: seq<set<FormId>>, byAnchor: map<FormId, set<FormId>>, order: seq<FormId>, merged: seq<set<FormId>>)
    requires AllIn(u, groups) && Contents(u, groups, |groups|, byAnchor) && Listed(byAnchor, order)
    requires |merged| == |order| && forall i | 0 <= i < |order| :: merged[i] == Held(byAnchor, order[i])
    ensures forall j, x | 0 <= j < |merged| :: x in merged[j] <==> InGroupOf(u, groups, |groups|, order[j], x)
    ensures forall j | 0 <= j < |merged| :: IsAnchor(u, merged[j], order[j])
  {
    hide IsAnchor, InGroupOf;
    forall j | 0 <= j < |merged| ensures IsAnchor(u, merged[j], order[j]) {
      assert order[j] in order;
      MergedAnchor(u, groups, order[j], merged[j]);
    }
  }

  lemma MergedAnchor(u: Universe, groups: seq<set<FormId>>, a: FormId, group: set<FormId>)
    requires group != {} && AllIn(u, groups)
    requires forall x :: x in group <==> InGroupOf(u, groups, |groups|, a, x)
    ensures IsAnchor(u, group, a)
  {
    hide AsGood;
    forall x <- group ensures x in u && a in group && a in u && AsGood(u, a, x) {
      assert InGroupOf(u, groups, |groups|, a, x);
      var i :| 0 <= i < |groups| && IsAnchor(u, groups[i], a) && x in groups[i];
      assert InGroupOf(u, groups, |groups|, a, a);
    }
    var x :| x in group;
  }

  lemma NoneLost(u: Universe, groups: seq<set<FormId>>, byAnchor: map<FormId, set<FormId>>, order: seq<FormId>, merged: seq<set<FormId>>)
    requires Contents(u, groups, |groups|, byAnchor) && Listed(byAnchor, order)
    requires forall k | 0 <= k < |groups| :: HasAnchor(u, groups[k], byAnchor)
    requires |merged| == |order| && forall i | 0 <= i < |order| :: merged[i] == Held(byAnchor, order[i])
    ensures forall i | 0 <= i < |groups| :: Within(groups[i], merged)
  {
    hide IsAnchor;
    forall i | 0 <= i < |groups| ensures Within(groups[i], merged) {
      assert HasAnchor(u, groups[i], byAnchor);
      var a: FormId :| IsAnchor(u, groups[i], a) && a in byAnchor;
      var j :| 0 <= j < |order| && order[j] == a;
      forall x <- groups[i] ensures x in merged[j] {
        assert InGroupOf(u, groups, |groups|, a, x);
        assert x in Held(byAnchor, a);
      }
      assert groups[i] <= merged[j];
    }
  }

  lemma AllAsBefore(u: Universe, groups: seq<set<FormId>>, byAnchor: map<FormId, set<FormId>>, order: seq<FormId>, merged: seq<set<FormId>>)
    requires OneByOne(u, groups, |groups|, byAnchor, order)
    requires |merged| == |order| && forall i | 0 <= i < |order| :: merged[i] == Held(byAnchor, order[i])
    ensures merged == groups
  {
    hide IsAnchor;
  }

  // ---------------------------------------------------------------------- large overlap

  function Ratio(a: set<FormId>, b: set<FormId>): real {
    var denominator := if |a| <= |b| then |a| else |b|;
    if denominator == 0 then 0.0 else |a * b| as real / denominator as real
  }

  /** Two groups overlap by a positive threshold exactly when what they share is at least
      that part of either of them. */
  lemma OverlapMeans(a: set<FormId>, b: set<FormId>, threshold: real)
    requires a != {} && b != {} && threshold > 0.0
    ensures Ratio(a, b) >= threshold
       <==> |a * b| as real >= threshold * |a| as real || |a * b| as real >= threshold * |b| as real
  {
    var shared, small, large := |a * b| as real, if |a| <= |b| then |a| else |b|, if |a| <= |b| then |b| else |a|;
    assert |a| > 0 && |b| > 0;
    QuotientReaches(shared, small as real, threshold);
    assert threshold * small as real <= threshold * large as real;
  }

  lemma QuotientReaches(x: real, d: real, t: real)
    requires d > 0.0
    ensures x / d >= t <==> x >= t * d
  {
    assert x / d * d == x;
    if x / d >= t {
      assert (x / d - t) * d >= 0.0;
    } else {
      assert (t - x / d) * d > 0.0;
    }
  }

  /** No two groups overlap by the threshold or more. */
  ghost predicate Apart(groups: seq<set<FormId>>, threshold: real) {
    forall i, j | 0 <= i < j < |groups| :: Ratio(groups[i], groups[j]) < threshold
  }

  ghost predicate Within(group: set<FormId>, groups: seq<set<FormId>>) {
    exists j | 0 <= j < |groups| :: group <= groups[j]
  }

  /** `x` comes into the group with a whole one of `groups`. */
  ghost predicate BroughtBy(groups: seq<set<FormId>>, whole: set<FormId>, x: FormId) {
    exists i | 0 <= i < |groups| :: x in groups[i] && groups[i] <= whole
  }

  /** Every group of `coarse` is a union of groups of `fine`, and none is lost. */
  ghost predicate Unions(fine: seq<set<FormId>>, coarse: seq<set<FormId>>) {
    && (forall i | 0 <= i < |fine| :: Within(fine[i], coarse))
    && (forall j, x | 0 <= j < |coarse| && x in coarse[j] :: BroughtBy(fine, coarse[j], x))
  }

  lemma UnionsJoin(a: seq<set<FormId>>, b: seq<set<FormId>>, c: seq<set<FormId>>)
    requires Unions(a, b) && Unions(b, c)
    ensures Unions(a, c)
  {
    hide Within, BroughtBy;
    forall i | 0 <= i < |a| ensures Within(a[i], c) {
      WithinJoin(a[i], b, c);
    }
    forall k, x | 0 <= k < |c| && x in c[k] ensures BroughtBy(a, c[k], x) {
      BroughtJoin(a, b, c[k], x);
    }
  }

  lemma WithinJoin(group: set<FormId>, b: seq<set<FormId>>, c: seq<set<FormId>>)
    requires Within(group, b) && forall j | 0 <= j < |b| :: Within(b[j], c)
    ensures Within(group, c)
  {
    var j :| 0 <= j < |b| && group <= b[j];
    assert Within(b[j], c);
    var k :| 0 <= k < |c| && b[j] <= c[k];
    assert group <= c[k];
  }

  lemma BroughtJoin(a: seq<set<FormId>>, b: seq<set<FormId>>, whole: set<FormId>, x: FormId)
    requires BroughtBy(b, whole, x) && forall j, y | 0 <= j < |b| && y in b[j] :: BroughtBy(a, b[j], y)
    ensures BroughtBy(a, whole, x)
  {
    var j :| 0 <= j < |b| && x in b[j] && b[j] <= whole;
    assert BroughtBy(a, b[j], x);
    var i :| 0 <= i < |a| && x in a[i] && a[i] <= b[j];
    assert a[i] <= whole;
  }

  // What a sweep gathers: groups joined one at a time, each overlapping enough with what
  // is already there.

  ghost predicate Picks(groups: seq<set<FormId>>, path: seq<nat>) {
    forall k | 0 <= k < |path| :: path[k] < |groups|
  }

  ghost function UnionOf(groups: seq<set<FormId>>, path: seq<nat>): set<FormId>
    requires Picks(groups, path)
  {
    if |path| == 0 then {} else UnionOf(groups, path[..|path| - 1]) + groups[path[|path| - 1]]
  }

  ghost predicate GrownAlong(groups: seq<set<FormId>>, threshold: real, cur: set<FormId>, path: seq<nat>) {
    && |path| > 0 && Picks(groups, path)
    && cur == UnionOf(groups, path)
    && forall k | 0 < k < |path| :: Ratio(UnionOf(groups, path[..k]), groups[path[k]]) >= threshold
  }

  /** The group is one of `groups`, or was joined from several along enough overlap. */
  ghost predicate Grown(groups: seq<set<FormId>>, threshold: real, cur: set<FormId>) {
    exists path: seq<nat> :: GrownAlong(groups, threshold, cur, path)
  }

  lemma GrownOne(groups: seq<set<FormId>>, threshold: real, i: nat)
    requires i < |groups|
    ensures Grown(groups, threshold, groups[i])
  {
    var path := [i];
    assert path[..0] == [];
    assert UnionOf(groups, []) == {};
    assert GrownAlong(groups, threshold, groups[i], path);
  }

  lemma GrownMore(groups: seq<set<FormId>>, threshold: real, cur: set<FormId>, j: nat)
    requires j < |groups| && Grown(groups, threshold, cur) && Ratio(cur, groups[j]) >= threshold
    ensures Grown(groups, threshold, cur + groups[j])
  {
    hide Ratio;
    var path :| GrownAlong(groups, threshold, cur, path);
    var longer := path + [j];
    assert longer[..|path|] == path;
    forall k | 0 < k < |longer| ensures Ratio(UnionOf(groups, longer[..k]), groups[longer[k]]) >= threshold {
      assert k < |path| ==> longer[..k] == path[..k];
    }
    assert GrownAlong(groups, threshold, cur + groups[j], longer);
  }

  lemma {:induction false} UnionHas(groups: seq<set<FormId>>, path: seq<nat>)
    requires Picks(groups, path)
    ensures forall k | 0 <= k < |path| :: groups[path[k]] <= UnionOf(groups, path)
    ensures forall x <- UnionOf(groups, path) :: exists k | 0 <= k < |path| :: x in groups[path[k]]
    decreases |path|
  {
    if |path| > 0 {
      var n := |path| - 1;
      UnionHas(groups, path[..n]);
      forall x <- UnionOf(groups, path) ensures exists k | 0 <= k < |path| :: x in groups[path[k]] {
        if x !in groups[path[n]] {
          var k :| 0 <= k < n && x in groups[path[..n][k]];
          assert x in groups[path[k]];
        }
      }
    }
  }

  lemma GrownAt(groups: seq<set<FormId>>, threshold: real, cur: set<FormId>, x: FormId)
    requires Grown(groups, threshold, cur) && x in cur
    ensures BroughtBy(groups, cur, x)
  {
    hide Ratio;
    var path :| GrownAlong(groups, threshold, cur, path);
    UnionHas(groups, path);
    var k :| 0 <= k < |path| && x in groups[path[k]];
  }

  lemma GrownNonEmpty(groups: seq<set<FormId>>, threshold: real, cur: set<FormId>)
    requires Grown(groups, threshold, cur) && forall i | 0 <= i < |groups| :: groups[i] != {}
    ensures cur != {}
  {
    hide Ratio;
    var path :| GrownAlong(groups, threshold, cur, path);
    UnionHas(groups, path);
    assert groups[path[0]] <= cur;
  }

  /** The later groups that overlap the growing group enough join it. */
  method Absorb(groups: seq<set<FormId>>, threshold: real, used: seq<bool>, i: nat)
    returns (cur: set<FormId>, taken: seq<bool>, changed: bool)
    requires i < |groups| && |used| == |groups| && used[i]
    ensures Grown(groups, threshold, cur) && groups[i] <= cur
    ensures |taken| == |groups|
    ensures forall k | 0 <= k < |groups| && used[k] :: taken[k]
    ensures forall k | 0 <= k < |groups| && taken[k] && !used[k] :: k > i && groups[k] <= cur
    ensures changed <==> exists k | 0 <= k < |groups| :: taken[k] && !used[k]
    ensures !changed ==> taken == used && cur == groups[i] && forall j | i < j < |groups| && !used[j] :: Ratio(cur, groups[j]) < threshold
    ensures Apart(groups, threshold) ==> !changed
  {
    hide Grown, Ratio;
    cur, taken, changed := groups[i], used, false;
    GrownOne(groups, threshold, i);
    for j := i + 1 to |groups|
      invariant Grown(groups, threshold, cur) && groups[i] <= cur && |taken| == |groups|
      invariant forall k | 0 <= k < |groups| && used[k] :: taken[k]
      invariant forall k | j <= k < |groups| :: taken[k] == used[k]
      invariant forall k | 0 <= k < |groups| && taken[k] && !used[k] :: i < k < j && groups[k] <= cur
      invariant changed <==> exists k | 0 <= k < |groups| :: taken[k] && !used[k]
      invariant !changed ==> taken == used && cur == groups[i] && forall k | i < k < j && !used[k] :: Ratio(cur, groups[k]) < threshold
      invariant Apart(groups, threshold) ==> !changed
    {
      if used[j] {
        continue;
      }
      if Ratio(cur, groups[j]) >= threshold {
        GrownMore(groups, threshold, cur, j);
        cur := cur + groups[j];
        taken := taken[j := true];
        changed := true;
        assert taken[j] && !used[j];
      }
    }
  }

  /** Groups without a common member never overlap enough, whatever the positive
      threshold; under any other threshold all groups do. */
  lemma ApartWhenDisjoint(groups: seq<set<FormId>>, threshold: real)
    ensures Disjoint(groups) && threshold > 0.0 ==> Apart(groups, threshold)
    ensures threshold <= 0.0 ==> (Apart(groups, threshold) <==> |groups| <= 1)
  {
    if Disjoint(groups) && threshold > 0.0 {
      forall i, j | 0 <= i < j < |groups| ensures Ratio(groups[i], groups[j]) < threshold {
        assert groups[i] * groups[j] == {};
      }
    }
    if threshold <= 0.0 && |groups| > 1 {
      assert Ratio(groups[0], groups[1]) >= 0.0;
    }
  }

  /** What one sweep may do: join groups, each along enough overlap, losing none; and
      nothing at all exactly when no two groups overlap enough. */
  ghost predicate Sweeps(before: seq<set<FormId>>, after: seq<set<FormId>>, threshold: real) {
    && Unions(before, after)
    && (forall j | 0 <= j < |after| :: Grown(before, threshold, after[j]))
    && (after == before <==> Apart(before, threshold))
  }

  /** One sweep: every group not yet taken takes all later ones that overlap it enough. */
  method MergePass(groups: seq<set<FormId>>, threshold: real) returns (merged: seq<set<FormId>>, changed: bool)
    ensures Sweeps(groups, merged, threshold)
    ensures changed <==> merged != groups
    ensures changed ==> |merged| < |groups|
  {
    hide Grown, Ratio, SomeFrom;
    merged, changed := [], false;
    var used := seq(|groups|, _ => false);
    ghost var skipped := 0;
    for i := 0 to |groups|
      invariant |used| == |groups| && |merged| + skipped == i
      invariant forall k | 0 <= k < i :: used[k]
      invariant forall k | 0 <= k < |groups| && used[k] :: Within(groups[k], merged)
      invariant forall j | 0 <= j < |merged| :: Grown(groups, threshold, merged[j])
      invariant changed ==> skipped > 0 || SomeFrom(used, i)
      invariant !changed ==> merged == groups[..i] && forall k | i <= k < |groups| :: !used[k]
      invariant !changed ==> forall p, q | 0 <= p < i && p < q < |groups| :: Ratio(groups[p], groups[q]) < threshold
      invariant Apart(groups, threshold) ==> !changed
    {
      if used[i] {
        skipped := skipped + 1;
        continue;
      }
      ghost var was := used;
      used := used[i := true];
      var cur, taken, more := Absorb(groups, threshold, used, i);
      StillSome(was, used, taken, i);
      WithinMore(groups, merged, used, taken, cur, i);
      merged := merged + [cur];
      if more {
        changed := true;
      }
      used := taken;
    }
    NoneFrom(used);
    forall j, x | 0 <= j < |merged| && x in merged[j] ensures BroughtBy(groups, merged[j], x) {
      GrownAt(groups, threshold, merged[j], x);
    }
  }

  ghost predicate SomeFrom(used: seq<bool>, i: nat) {
    exists k | i <= k < |used| :: used[k]
  }

  lemma NoneFrom(used: seq<bool>)
    ensures !SomeFrom(used, |used|)
  {}

  /** Groups taken by a sweep stay taken, and whatever one group takes lies behind it. */
  lemma StillSome(was: seq<bool>, used: seq<bool>, taken: seq<bool>, i: nat)
    requires i < |was| && !was[i] && used == was[i := true] && |taken| == |used|
    requires forall k | 0 <= k < |used| && used[k] :: taken[k]
    requires forall k | 0 <= k < |used| && taken[k] && !used[k] :: k > i
    ensures SomeFrom(was, i) ==> SomeFrom(taken, i + 1)
    ensures (exists k | 0 <= k < |used| :: taken[k] && !used[k]) ==> SomeFrom(taken, i + 1)
  {
    if SomeFrom(was, i) {
      var k :| i <= k < |was| && was[k];
      assert used[k] && taken[k];
    }
    if exists k | 0 <= k < |used| :: taken[k] && !used[k] {
      var k :| 0 <= k < |used| && taken[k] && !used[k];
      assert taken[k];
    }
  }

  lemma WithinMore(groups: seq<set<FormId>>, merged: seq<set<FormId>>, used: seq<bool>, taken: seq<bool>, cur: set<FormId>, i: nat)
    requires i < |groups| && |used| == |taken| == |groups| && groups[i] <= cur
    requires forall k | 0 <= k < |groups| && used[k] && k != i :: Within(groups[k], merged)
    requires forall k | 0 <= k < |groups| && taken[k] && !used[k] :: groups[k] <= cur
    ensures forall k | 0 <= k < |groups| && taken[k] :: Within(groups[k], merged + [cur])
  {
    forall k | 0 <= k < |groups| && taken[k] ensures Within(groups[k], merged + [cur]) {
      if k == i || !used[k] {
        assert groups[k] <= (merged + [cur])[|merged|];
      } else {
        var j :| 0 <= j < |merged| && groups[k] <= merged[j];
        assert groups[k] <= (merged + [cur])[j];
      }
    }
  }

  function Least(group: set<FormId>): FormId
    requires group != {}
  {
    LeastExists(group);
    var x :| x in group && forall y <- group :: x <= y;
    x
  }

  lemma LeastExists(group: set<FormId>)
    requires group != {}
    ensures exists x <- group :: forall y <- group :: x <= y
  {
    var least := FindLeast(group);
  }

  lemma {:induction false} FindLeast(group: set<FormId>) returns (least: FormId)
    requires group != {}
    ensures least in group && forall y <- group :: least <= y
    decreases group
  {
    var x :| x in group;
    var rest := group - {x};
    least := x;
    if rest != {} {
      var m := FindLeast(rest);
      if m < x {
        least := m;
      }
    }
    forall y <- group ensures least <= y {
      assert y == x || y in rest;
    }
  }

  /** The groups in the order of their least members. */
  function Ordered(groups: seq<set<FormId>>): (sorted: seq<set<FormId>>)
    requires forall i | 0 <= i < |groups| :: groups[i] != {}
    ensures |sorted| == |groups|
  {
    var keyed := SortByKey(seq(|groups|, i requires 0 <= i < |groups| => (Least(groups[i]), groups[i])));
    seq(|keyed|, i requires 0 <= i < |keyed| => keyed[i].1)
  }

  /** They stand in that order: an earlier group has a member no later one undercuts. */
  lemma OrderedByLeast(groups: seq<set<FormId>>, i: nat, j: nat)
    requires (forall k | 0 <= k < |groups| :: groups[k] != {}) && i < j < |groups|
    ensures exists x <- Ordered(groups)[i] :: forall y <- Ordered(groups)[j] :: x <= y
  {
    var pairs := seq(|groups|, k requires 0 <= k < |groups| => (Least(groups[k]), groups[k]));
    var keyed := SortByKey(pairs);
    SortLaw(pairs);
    assert keyed[i] in pairs && keyed[j] in pairs;
    var p :| 0 <= p < |pairs| && pairs[p] == keyed[i];
    var q :| 0 <= q < |pairs| && pairs[q] == keyed[j];
    LeastIs(groups[p]);
    LeastIs(groups[q]);
    assert Ordered(groups)[i] == groups[p] && Ordered(groups)[j] == groups[q];
    assert KeysOf(keyed)[i] <= KeysOf(keyed)[j];
    assert Least(groups[p]) in Ordered(groups)[i];
  }

  lemma LeastIs(group: set<FormId>)
    requires group != {}
    ensures Least(group) in group && forall y <- group :: Least(group) <= y
  {
    LeastExists(group);
  }

  lemma OrderedHasAll(groups: seq<set<FormId>>)
    requires forall i | 0 <= i < |groups| :: groups[i] != {}
    ensures forall g :: g in Ordered(groups) <==> g in groups
    ensures Unions(groups, Ordered(groups))
  {
    var pairs := seq(|groups|, i requires 0 <= i < |groups| => (Least(groups[i]), groups[i]));
    var keyed, sorted := SortByKey(pairs), Ordered(groups);
    SortLaw(pairs);
    forall g ensures g in sorted <==> g in groups {
      if g in sorted {
        var i :| 0 <= i < |keyed| && keyed[i].1 == g;
        assert keyed[i] in pairs;
      }
      if g in groups {
        var i :| 0 <= i < |groups| && groups[i] == g;
        assert pairs[i] in keyed;
        var j :| 0 <= j < |keyed| && keyed[j] == pairs[i];
        assert sorted[j] == g;
      }
    }
    forall i | 0 <= i < |groups| ensures Within(groups[i], sorted) {
      assert groups[i] in sorted;
    }
    forall j, x | 0 <= j < |sorted| && x in sorted[j] ensures BroughtBy(groups, sorted[j], x) {
      assert sorted[j] in groups;
    }
  }

  /** Sweeps until nothing overlaps enough any more; `passes` are the groups before the
      first sweep and after each one. */
  method MergeByOverlap(groups: seq<set<FormId>>, threshold: real)
    returns (merged: seq<set<FormId>>, ghost passes: seq<seq<set<FormId>>>)
    requires forall i | 0 <= i < |groups| :: groups[i] != {}
    ensures |passes| > 0 && passes[0] == Ordered(groups) && passes[|passes| - 1] == merged
    ensures forall k | 0 <= k < |passes| - 1 :: Sweeps(passes[k], passes[k + 1], threshold)
    ensures Unions(groups, merged) && Apart(merged, threshold)
    ensures Apart(Ordered(groups), threshold) ==> merged == Ordered(groups)
    ensures forall i | 0 <= i < |merged| :: merged[i] != {}
  {
    hide Ordered, Unions, Apart, Grown;
    OrderedHasAll(groups);
    merged := Ordered(groups);
    passes := [merged];
    forall i | 0 <= i < |merged| ensures merged[i] != {} {
      assert merged[i] in merged;
    }
    var changed := true;
    while changed
      invariant |passes| > 0 && passes[0] == Ordered(groups) && passes[|passes| - 1] == merged
      invariant forall k | 0 <= k < |passes| - 1 :: Sweeps(passes[k], passes[k + 1], threshold)
      invariant Unions(groups, merged)
      invariant !changed ==> Apart(merged, threshold)
      invariant Apart(Ordered(groups), threshold) ==> merged == Ordered(groups)
      invariant forall i | 0 <= i < |merged| :: merged[i] != {}
      decreases |merged|, changed
    {
      var next, more := MergePass(merged, threshold);
      UnionsJoin(groups, merged, next);
      forall i | 0 <= i < |next| ensures next[i] != {} {
        GrownNonEmpty(merged, threshold, next[i]);
      }
      merged, changed, passes := next, more, passes + [next];
    }
  }
}
