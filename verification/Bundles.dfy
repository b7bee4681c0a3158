/** From changed records to bundles: cluster, split, merge. */
module Bundles {
  import opened Sorting
  import opened UnionFind
  import opened BundleMerge
  import Split = BundleSplit

  // ------------------------------------------------------------------------ the pipeline

  lemma PartitionJoin(u: set<FormId>, v: set<FormId>, a: seq<set<FormId>>, b: seq<set<FormId>>)
    requires IsPartition(u, a) && IsPartition(v, b) && u !! v
    ensures IsPartition(u + v, a + b)
  {
    hide Inside, Covers, Disjoint;
    InsideJoin(u, v, a, b);
    CoversJoin(u, v, a, b);
    DisjointJoin(u, v, a, b);
  }

  lemma InsideJoin(u: set<FormId>, v: set<FormId>, a: seq<set<FormId>>, b: seq<set<FormId>>)
    requires Inside(u, a) && Inside(v, b)
    ensures Inside(u + v, a + b)
  {}

  lemma CoversJoin(u: set<FormId>, v: set<FormId>, a: seq<set<FormId>>, b: seq<set<FormId>>)
    requires Covers(u, a) && Covers(v, b)
    ensures Covers(u + v, a + b)
  {
    forall x <- u + v ensures InSome(a + b, x) {
      if x in u {
        var i :| 0 <= i < |a| && x in a[i];
        assert (a + b)[i] == a[i];
      } else {
        var i :| 0 <= i < |b| && x in b[i];
        assert (a + b)[|a| + i] == b[i];
      }
    }
  }

  lemma DisjointJoin(u: set<FormId>, v: set<FormId>, a: seq<set<FormId>>, b: seq<set<FormId>>)
    requires Inside(u, a) && Inside(v, b) && Disjoint(a) && Disjoint(b) && u !! v
    ensures Disjoint(a + b)
  {
    hide Inside;
    forall i, j | 0 <= i < j < |a + b| ensures (a + b)[i] !! (a + b)[j] {
      if i < |a| {
        InsideAt(u, a, i);
      }
      if j >= |a| {
        InsideAt(v, b, j - |a|);
      }
    }
  }

  lemma InsideAt(u: set<FormId>, groups: seq<set<FormId>>, i: nat)
    requires Inside(u, groups) && i < |groups|
    ensures groups[i] != {} && groups[i] <= u
  {}

  lemma WholePartition(members: set<FormId>)
    requires members != {}
    ensures IsPartition(members, [members])
  {
    forall x <- members ensures InSome([members], x) {
      assert x in [members][0];
    }
  }

  /** What a component gives: itself when it is small enough or has too few anchors, and
      otherwise what one of its anchors owns. */
  ghost predicate Gives(k: Split.Component, maxMembers: nat, part: set<FormId>) {
    if |k.members| <= maxMembers || |Split.Anchors(k)| < 2 then part == k.members else Split.IsGroup(k, part)
  }

  ghost predicate Given(g: Graph, ranks: map<FormId, nat>, maxMembers: nat, components: seq<set<FormId>>, part: set<FormId>) {
    exists i | 0 <= i < |components| ::
      part <= components[i] && Gives(Split.Component(components[i], ranks, g.edges), maxMembers, part)
  }

  /** Every part is what one of the components gives. */
  ghost predicate PartsOf(g: Graph, ranks: map<FormId, nat>, maxMembers: nat, components: seq<set<FormId>>, parts: seq<set<FormId>>) {
    forall i | 0 <= i < |parts| :: Given(g, ranks, maxMembers, components, parts[i])
  }

  method SplitAll(g: Graph, ranks: map<FormId, nat>, components: seq<set<FormId>>, maxMembers: nat) returns (parts: seq<set<FormId>>)
    requires IsPartition(g.universe, components)
    ensures IsPartition(g.universe, parts) && PartsOf(g, ranks, maxMembers, components, parts)
  {
    hide IsPartition, PartsOf, InSome, Split.Splits, Split.Anchors;
    parts := [];
    ghost var covered: set<FormId> := {};
    NothingToSplit(g, ranks, maxMembers, components);
    for i := 0 to |components|
      invariant IsPartition(covered, parts) && PartsOf(g, ranks, maxMembers, components, parts)
      invariant forall x :: x in covered <==> InSome(components[..i], x)
    {
      var component := Split.Component(components[i], ranks, g.edges);
      var some := Split.SplitOversized(component, maxMembers);
      PartsPartition(g, ranks, components, i, component, maxMembers, some);
      ComponentApart(g, components, i, covered);
      PartitionJoin(covered, components[i], parts, some);
      PartsJoin(g, ranks, maxMembers, components, parts, some);
      MoreCovered(components, i, covered);
      covered := covered + components[i];
      parts := parts + some;
    }
    assert components[..|components|] == components;
    AllCovered(g, components, covered);
  }

  lemma NothingToSplit(g: Graph, ranks: map<FormId, nat>, maxMembers: nat, components: seq<set<FormId>>)
    ensures IsPartition({}, []) && PartsOf(g, ranks, maxMembers, components, []) && forall x :: !InSome(components[..0], x)
  {}

  lemma PartsJoin(g: Graph, ranks: map<FormId, nat>, maxMembers: nat, components: seq<set<FormId>>, a: seq<set<FormId>>, b: seq<set<FormId>>)
    requires PartsOf(g, ranks, maxMembers, components, a) && PartsOf(g, ranks, maxMembers, components, b)
    ensures PartsOf(g, ranks, maxMembers, components, a + b)
  {
    hide Given;
  }

  lemma MoreCovered(components: seq<set<FormId>>, i: nat, covered: set<FormId>)
    requires i < |components| && forall x :: x in covered <==> InSome(components[..i], x)
    ensures forall x :: x in covered + components[i] <==> InSome(components[..i + 1], x)
  {
    forall x ensures x in covered + components[i] <==> InSome(components[..i + 1], x) {
      if InSome(components[..i], x) {
        var j :| 0 <= j < i && x in components[..i][j];
        assert components[..i + 1][j] == components[j];
      }
      if x in components[i] {
        assert components[..i + 1][i] == components[i];
      }
      if InSome(components[..i + 1], x) {
        var j :| 0 <= j < i + 1 && x in components[..i + 1][j];
        if j < i {
          assert components[..i][j] == components[j];
        }
      }
    }
  }

  lemma PartsPartition(g: Graph, ranks: map<FormId, nat>, components: seq<set<FormId>>, i: nat, k: Split.Component, maxMembers: nat, parts: seq<set<FormId>>)
    requires IsPartition(g.universe, components) && i < |components| && k == Split.Component(components[i], ranks, g.edges)
    requires |k.members| <= maxMembers || |Split.Anchors(k)| < 2 ==> parts == [k.members]
    requires |k.members| > maxMembers && |Split.Anchors(k)| >= 2 ==> Split.Splits(k, parts)
    ensures IsPartition(components[i], parts) && PartsOf(g, ranks, maxMembers, components, parts)
  {
    hide Split.Anchors, Split.IsGroup;
    if parts == [k.members] {
      WholePartition(k.members);
    }
    forall j | 0 <= j < |parts| ensures Given(g, ranks, maxMembers, components, parts[j]) {
      assert parts[j] <= components[i] && Gives(k, maxMembers, parts[j]);
    }
  }

  lemma ComponentApart(g: Graph, components: seq<set<FormId>>, i: nat, covered: set<FormId>)
    requires IsPartition(g.universe, components) && i < |components|
    requires forall x :: x in covered <==> InSome(components[..i], x)
    ensures covered !! components[i]
  {
    forall x <- covered ensures x !in components[i] {
      var j :| 0 <= j < i && x in components[..i][j];
      assert components[j] !! components[i];
    }
  }

  lemma AllCovered(g: Graph, components: seq<set<FormId>>, covered: set<FormId>)
    requires IsPartition(g.universe, components)
    requires forall x :: x in covered <==> InSome(components, x)
    ensures covered == g.universe
  {}

  /** All members of a group are chained to each other. */
  ghost predicate AllChained(g: Graph, group: set<FormId>) {
    forall a <- group, b <- group :: Chained(g, a, b)
  }

  /** The class of a record: everything chained to it. */
  ghost predicate IsClass(g: Graph, class_: set<FormId>) {
    && class_ <= g.universe && class_ != {}
    && forall a <- class_, b <- g.universe :: b in class_ <==> Chained(g, a, b)
  }

  /** A bundle is what some class of chained records gives. */
  ghost predicate BundleOf(g: Graph, ranks: map<FormId, nat>, maxMembers: nat, bundle: set<FormId>) {
    exists class_: set<FormId> ::
      IsClass(g, class_) && bundle <= class_ && Gives(Split.Component(class_, ranks, g.edges), maxMembers, bundle)
  }

  /** Every changed record is in exactly one bundle. Under a positive threshold a bundle
      holds only records that are chained, and neither merge disturbs what the split
      decided; under any other threshold there is only one bundle. */
  method BuildBundles(g: Graph, u: Universe, ranks: map<FormId, nat>, maxMembers: nat, threshold: real)
    returns (bundles: seq<set<FormId>>, ghost parts: seq<set<FormId>>)
    requires u.Keys == g.universe
    ensures IsPartition(g.universe, bundles)
    ensures threshold > 0.0 ==>
      && |bundles| == |parts| && (forall b :: b in bundles <==> b in parts)
      && forall i | 0 <= i < |bundles| :: AllChained(g, bundles[i]) && BundleOf(g, ranks, maxMembers, bundles[i])
    ensures threshold <= 0.0 ==> |bundles| <= 1
  {
    hide IsPartition, Apart, Unions, Grown, Sweeps, Clustered, Root, IsForest, AreClasses, Disjoint, Chained, Ordered, AllIn, PartsOf;
    var dsu := Cluster(g);
    ghost var forest := dsu.parent;
    ClusteredForest(g, forest);
    var components := BuildComponents(dsu);
    var split := SplitAll(g, ranks, components, maxMembers);
    parts := split;
    PartsAreGroups(g, u, split);
    var merged, order := MergeSameAnchor(u, split);
    ghost var passes;
    bundles, passes := MergeByOverlap(merged, threshold);
    OrderedHasAll(split);
    OrderedPartition(g, split);
    ApartWhenDisjoint(Ordered(split), threshold);
    ApartWhenDisjoint(bundles, threshold);
    if threshold > 0.0 {
      BundlesAreChained(g, forest, ranks, maxMembers, components, split, bundles);
    } else {
      OneBundle(g, split, bundles);
    }
  }

  lemma OneBundle(g: Graph, parts: seq<set<FormId>>, bundles: seq<set<FormId>>)
    requires IsPartition(g.universe, parts) && Unions(parts, bundles) && |bundles| <= 1
    requires forall i | 0 <= i < |bundles| :: bundles[i] != {}
    ensures IsPartition(g.universe, bundles)
  {
    forall i, x | 0 <= i < |bundles| && x in bundles[i] ensures x in g.universe {
      assert BroughtBy(parts, bundles[i], x);
    }
    forall x <- g.universe ensures InSome(bundles, x) {
      assert InSome(parts, x);
      var p :| 0 <= p < |parts| && x in parts[p];
      assert Within(parts[p], bundles);
    }
  }

  lemma ClusteredForest(g: Graph, parent: map<FormId, FormId>)
    requires Clustered(g, parent)
    ensures IsForest(parent) && parent.Keys == g.universe
  {
    hide Root, IsForest, Chained;
  }

  lemma PartsAreGroups(g: Graph, u: Universe, parts: seq<set<FormId>>)
    requires IsPartition(g.universe, parts) && u.Keys == g.universe
    ensures AllIn(u, parts) && Disjoint(parts) && forall i | 0 <= i < |parts| :: parts[i] != {}
  {}

  /** Putting a partition in order keeps it one. */
  lemma OrderedPartition(g: Graph, parts: seq<set<FormId>>)
    requires IsPartition(g.universe, parts) && forall i | 0 <= i < |parts| :: parts[i] != {}
    ensures Disjoint(Ordered(parts)) && IsPartition(g.universe, Ordered(parts))
  {
    hide Ordered, Inside, Covers, Disjoint;
    OrderedDisjoint(parts);
    OrderedInside(g, parts);
  }

  lemma OrderedInside(g: Graph, parts: seq<set<FormId>>)
    requires Inside(g.universe, parts) && Covers(g.universe, parts) && forall i | 0 <= i < |parts| :: parts[i] != {}
    ensures Inside(g.universe, Ordered(parts)) && Covers(g.universe, Ordered(parts))
  {
    hide Ordered, Unions;
    OrderedHasAll(parts);
    var sorted := Ordered(parts);
    forall i | 0 <= i < |sorted| ensures sorted[i] != {} && sorted[i] <= g.universe {
      assert sorted[i] in parts;
    }
    forall x <- g.universe ensures InSome(sorted, x) {
      assert InSome(parts, x);
      var i :| 0 <= i < |parts| && x in parts[i];
      assert parts[i] in sorted;
    }
  }

  lemma OrderedDisjoint(parts: seq<set<FormId>>)
    requires Disjoint(parts) && forall i | 0 <= i < |parts| :: parts[i] != {}
    ensures Disjoint(Ordered(parts))
  {
    hide Ordered;
    var pairs := seq(|parts|, p requires 0 <= p < |parts| => (Least(parts[p]), parts[p]));
    forall i, j | 0 <= i < j < |pairs| ensures pairs[i].0 != pairs[j].0 {
      assert parts[i] !! parts[j];
      assert Least(parts[i]) in parts[i] && Least(parts[j]) in parts[j];
    }
    SortStrict(pairs);
    forall i, j | 0 <= i < j < |Ordered(parts)| ensures Ordered(parts)[i] !! Ordered(parts)[j] {
      OrderedApart(parts, i, j);
    }
  }

  lemma OrderedApart(parts: seq<set<FormId>>, i: nat, j: nat)
    requires (forall p | 0 <= p < |parts| :: parts[p] != {}) && i < j < |parts|
    requires forall p, q | 0 <= p < q < |parts| :: parts[p] !! parts[q]
    requires StrictKeys(KeysOf(SortByKey(seq(|parts|, p requires 0 <= p < |parts| => (Least(parts[p]), parts[p])))))
    ensures Ordered(parts)[i] !! Ordered(parts)[j]
  {
    var pairs := seq(|parts|, p requires 0 <= p < |parts| => (Least(parts[p]), parts[p]));
    var keyed := SortByKey(pairs);
    SortLaw(pairs);
    assert KeysOf(keyed)[i] < KeysOf(keyed)[j];
    assert keyed[i] in pairs && keyed[j] in pairs;
    var p :| 0 <= p < |pairs| && pairs[p] == keyed[i];
    var q :| 0 <= q < |pairs| && pairs[q] == keyed[j];
    assert p != q;
  }

  lemma ComponentIsClass(g: Graph, parent: map<FormId, FormId>, components: seq<set<FormId>>, i: nat)
    requires Clustered(g, parent) && IsPartition(g.universe, components) && AreClasses(parent, components) && i < |components|
    ensures IsClass(g, components[i])
  {
    hide Root, IsForest, Chained;
    forall a <- components[i], b <- g.universe ensures b in components[i] <==> Chained(g, a, b) {
      assert Together(parent, a, b) <==> Chained(g, a, b);
    }
  }

  lemma BundlesAreChained(g: Graph, parent: map<FormId, FormId>, ranks: map<FormId, nat>, maxMembers: nat,
                          components: seq<set<FormId>>, parts: seq<set<FormId>>, bundles: seq<set<FormId>>)
    requires Clustered(g, parent) && IsPartition(g.universe, components) && AreClasses(parent, components)
    requires PartsOf(g, ranks, maxMembers, components, parts) && forall b :: b in bundles <==> b in parts
    ensures forall i | 0 <= i < |bundles| :: BundleOf(g, ranks, maxMembers, bundles[i]) && AllChained(g, bundles[i])
  {
    hide Clustered, IsPartition, AreClasses, Gives, Chained;
    forall i | 0 <= i < |bundles| ensures BundleOf(g, ranks, maxMembers, bundles[i]) && AllChained(g, bundles[i]) {
      assert bundles[i] in parts;
      var p :| 0 <= p < |parts| && parts[p] == bundles[i];
      assert Given(g, ranks, maxMembers, components, parts[p]);
      var c :| 0 <= c < |components| && parts[p] <= components[c]
        && Gives(Split.Component(components[c], ranks, g.edges), maxMembers, parts[p]);
      ComponentIsClass(g, parent, components, c);
      assert BundleOf(g, ranks, maxMembers, bundles[i]);
    }
  }
}
