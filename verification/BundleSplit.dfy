/** Splitting an oversized cluster: every record goes to the nearest anchor, found by a
    layered search from all anchors at once. */
module BundleSplit {
  import opened Wrappers
  import opened Sorting
  import opened UnionFind

  /** An oversized component: its records, the rank of those whose type can anchor a
      bundle, and all edges. */
  datatype Component = Component(members: set<FormId>, ranks: map<FormId, nat>, edges: seq<Edge>)

  function Anchors(k: Component): set<FormId> {
    set x | x in k.members && x in k.ranks
  }

  predicate Adjacent(k: Component, a: FormId, b: FormId) {
    && a in k.members && b in k.members
    && exists e <- k.edges :: (e.from == a && e.to == b) || (e.from == b && e.to == a)
  }

  /** Anchors are ordered by rank, then FormID. */
  predicate Before(k: Component, a: FormId, b: FormId)
    requires a in k.ranks && b in k.ranks
  {
    k.ranks[a] < k.ranks[b] || (k.ranks[a] == k.ranks[b] && a <= b)
  }

  // --------------------------------------------------------------------- what is nearest

  /** There is a walk of `d` edges inside the component from `a` to `v`. */
  ghost predicate Walk(k: Component, a: FormId, v: FormId, d: nat)
    decreases d
  {
    if d == 0 then a == v && a in k.members
    else exists w <- k.members :: Adjacent(k, w, v) && Walk(k, a, w, d - 1)
  }

  /** The owner is the anchor that minimises distance, then rank, then FormID, at
      distance `d`. */
  ghost predicate Nearest(k: Component, v: FormId, owner: FormId, d: nat) {
    && owner in Anchors(k) && Walk(k, owner, v, d)
    && forall a, n: nat | a in Anchors(k) && Walk(k, a, v, n) :: d < n || (d == n && Before(k, owner, a))
  }

  ghost predicate Reached(k: Component, v: FormId) {
    exists a, n: nat :: a in Anchors(k) && Walk(k, a, v, n)
  }

  ghost predicate IsBest(k: Component, a: FormId) {
    a in Anchors(k) && forall b <- Anchors(k) :: Before(k, a, b)
  }

  /** Whom a member belongs to: its nearest anchor, or the best anchor of all when no
      walk leads to it. */
  ghost predicate OwnedBy(k: Component, v: FormId, owner: FormId) {
    if Reached(k, v) then exists d: nat :: Nearest(k, v, owner, d) else IsBest(k, owner)
  }

  /** No two anchors can both own a member. */
  lemma OneOwner(k: Component, v: FormId, a: FormId, b: FormId)
    requires OwnedBy(k, v, a) && OwnedBy(k, v, b)
    ensures a == b
  {
    hide Walk;
    if Reached(k, v) {
      var d: nat :| Nearest(k, v, a, d);
      var e: nat :| Nearest(k, v, b, e);
      assert d == e;
    }
  }

  /** Every anchor owns itself. */
  lemma AnchorOwnsItself(k: Component, a: FormId)
    requires a in Anchors(k)
    ensures OwnedBy(k, a, a)
  {
    assert Walk(k, a, a, 0);
    assert Nearest(k, a, a, 0);
  }

  /** What that means for a member some anchor reaches: no anchor is nearer, among the
      nearest none has a lower rank, and among those none a lower FormID. */
  lemma NearestMeans(k: Component, v: FormId, owner: FormId, a: FormId, n: nat) returns (d: nat)
    requires OwnedBy(k, v, owner) && a in k.members && a in k.ranks && Walk(k, a, v, n)
    ensures owner in k.members && owner in k.ranks && Walk(k, owner, v, d) && d <= n
    ensures d == n ==> k.ranks[owner] <= k.ranks[a]
    ensures d == n && k.ranks[owner] == k.ranks[a] ==> owner <= a
  {
    hide Walk;
    assert Reached(k, v);
    d :| Nearest(k, v, owner, d);
  }

  /** And for one that none reaches: no anchor has a lower rank, nor among those of that
      rank a lower FormID. */
  lemma UnreachedMeans(k: Component, v: FormId, owner: FormId, a: FormId)
    requires OwnedBy(k, v, owner) && a in k.members && a in k.ranks
    requires forall b, n: nat | b in k.members && b in k.ranks :: !Walk(k, b, v, n)
    ensures owner in k.members && owner in k.ranks && k.ranks[owner] <= k.ranks[a]
    ensures k.ranks[owner] == k.ranks[a] ==> owner <= a
  {
    hide Walk;
    assert a in Anchors(k);
    assert forall b, n: nat | b in Anchors(k) :: b in k.members && b in k.ranks && !Walk(k, b, v, n);
  }

  // ------------------------------------------------------------------------- the search

  /** The search after layer `layer`: it has found exactly what lies within that distance,
      and knows everything's nearest anchor. */
  ghost predicate Searched(k: Component, layer: nat, dist: map<FormId, nat>, owner: map<FormId, FormId>) {
    && dist.Keys == owner.Keys && dist.Keys <= k.members
    && (forall v <- dist :: dist[v] <= layer && Nearest(k, v, owner[v], dist[v]))
    && (forall v, a, n: nat | a in Anchors(k) && Walk(k, a, v, n) && n <= layer :: v in dist)
  }

  lemma SearchStarts(k: Component)
    ensures Searched(k, 0, map a | a in Anchors(k) :: 0, map a | a in Anchors(k) :: a)
  {
    forall a <- Anchors(k) ensures Nearest(k, a, a, 0) {
      assert Walk(k, a, a, 0);
    }
  }

  /** A walk of `layer + 1` edges to something new comes through the last layer. */
  lemma LastStep(k: Component, layer: nat, dist: map<FormId, nat>, owner: map<FormId, FormId>, a: FormId, v: FormId)
      returns (w: FormId)
    requires Searched(k, layer, dist, owner) && a in Anchors(k) && Walk(k, a, v, layer + 1) && v !in dist
    ensures w in dist && dist[w] == layer && Adjacent(k, w, v) && Walk(k, a, w, layer)
  {
    w :| w in k.members && Adjacent(k, w, v) && Walk(k, a, w, layer);
    if dist[w] < layer {
      WalkOn(k, owner[w], w, v, dist[w]);
    }
  }

  lemma WalkOn(k: Component, a: FormId, w: FormId, v: FormId, d: nat)
    requires Walk(k, a, w, d) && Adjacent(k, w, v)
    ensures Walk(k, a, v, d + 1)
  {}

  /** The owner a new record gets is its nearest anchor. */
  lemma NewOwner(k: Component, layer: nat, dist: map<FormId, nat>, owner: map<FormId, FormId>, v: FormId, o: FormId)
    requires Searched(k, layer, dist, owner) && v !in dist
    requires exists w <- dist :: dist[w] == layer && Adjacent(k, w, v) && owner[w] == o
    requires forall w <- dist :: dist[w] == layer && Adjacent(k, w, v) ==> o in k.ranks && owner[w] in k.ranks && Before(k, o, owner[w])
    ensures Nearest(k, v, o, layer + 1)
  {
    hide Walk;
    var w :| w in dist && dist[w] == layer && Adjacent(k, w, v) && owner[w] == o;
    assert Nearest(k, w, o, layer);
    WalkOn(k, o, w, v, layer);
    forall a, n: nat | a in Anchors(k) && Walk(k, a, v, n) ensures layer + 1 < n || (layer + 1 == n && Before(k, o, a)) {
      if n == layer + 1 {
        var u := LastStep(k, layer, dist, owner, a, v);
        assert Nearest(k, u, owner[u], layer);
        assert Before(k, owner[u], a);
      }
    }
  }

  /** When the last layer has no new neighbours, everything reachable has been found. */
  lemma {:induction false} NothingBeyond(k: Component, layer: nat, dist: map<FormId, nat>, owner: map<FormId, FormId>, a: FormId, v: FormId, n: nat)
    requires Searched(k, layer, dist, owner) && a in Anchors(k) && Walk(k, a, v, n)
    requires forall w <- dist, x <- k.members :: dist[w] == layer && Adjacent(k, w, x) ==> x in dist
    ensures v in dist
    decreases n
  {
    if n > 0 {
      var w :| w in k.members && Adjacent(k, w, v) && Walk(k, a, w, n - 1);
      NothingBeyond(k, layer, dist, owner, a, w, n - 1);
      if dist[w] < layer {
        WalkOn(k, owner[w], w, v, dist[w]);
      }
    }
  }

  // -------------------------------------------------------------------------- adjacency

  predicate Has(adj: map<FormId, set<FormId>>, a: FormId, b: FormId) {
    a in adj && b in adj[a]
  }

  function With(adj: map<FormId, set<FormId>>, a: FormId, b: FormId): map<FormId, set<FormId>> {
    adj[a := (if a in adj then adj[a] else {}) + {b}]
  }

  predicate Joins(k: Component, e: Edge, a: FormId, b: FormId) {
    e.from in k.members && e.to in k.members && ((e.from == a && e.to == b) || (e.from == b && e.to == a))
  }

  method InternalAdjacency(k: Component) returns (adj: map<FormId, set<FormId>>)
    ensures forall a, b :: Has(adj, a, b) <==> Adjacent(k, a, b)
    ensures forall a, b :: Has(adj, a, b) ==> Has(adj, b, a)
    ensures forall e <- k.edges :: e.from in k.members && e.to in k.members ==> Has(adj, e.from, e.to)
  {
    adj := map[];
    for i := 0 to |k.edges|
      invariant forall a, b :: Has(adj, a, b) <==> exists e <- k.edges[..i] :: Joins(k, e, a, b)
    {
      var e := k.edges[i];
      assert k.edges[..i + 1] == k.edges[..i] + [e];
      ghost var before := adj;
      if e.from in k.members && e.to in k.members {
        adj := With(With(adj, e.from, e.to), e.to, e.from);
      }
      forall a, b ensures Has(adj, a, b) <==> exists e' <- k.edges[..i + 1] :: Joins(k, e', a, b) {
        JoinsLast(k, i, a, b);
        assert Has(adj, a, b) <==> Has(before, a, b) || Joins(k, e, a, b);
      }
    }
    assert k.edges[..|k.edges|] == k.edges;
    forall a, b ensures Has(adj, a, b) <==> Adjacent(k, a, b) {
      assert Has(adj, a, b) <==> exists e <- k.edges :: Joins(k, e, a, b);
      JoinsIsAdjacent(k, a, b);
    }
  }

  lemma JoinsLast(k: Component, i: nat, a: FormId, b: FormId)
    requires i < |k.edges|
    ensures (exists e <- k.edges[..i + 1] :: Joins(k, e, a, b))
       <==> (exists e <- k.edges[..i] :: Joins(k, e, a, b)) || Joins(k, k.edges[i], a, b)
  {
    assert k.edges[..i + 1] == k.edges[..i] + [k.edges[i]];
    if exists e <- k.edges[..i] :: Joins(k, e, a, b) {
      var e :| e in k.edges[..i] && Joins(k, e, a, b);
      assert e in k.edges[..i + 1];
    }
    if Joins(k, k.edges[i], a, b) {
      assert k.edges[i] in k.edges[..i + 1];
    }
  }

  lemma JoinsIsAdjacent(k: Component, a: FormId, b: FormId)
    ensures (exists e <- k.edges :: Joins(k, e, a, b)) <==> Adjacent(k, a, b)
  {
    if Adjacent(k, a, b) {
      var e :| e in k.edges && ((e.from == a && e.to == b) || (e.from == b && e.to == a));
      assert Joins(k, e, a, b);
    }
  }

  // --------------------------------------------------------------------- one more layer

  /** For each new neighbour of `nodes`, the owners it was reached from. */
  ghost predicate CandidatesOf(k: Component, dist: map<FormId, nat>, owner: map<FormId, FormId>, nodes: set<FormId>,
                               candidates: map<FormId, seq<FormId>>) {
    && (forall v <- candidates :: |candidates[v]| > 0)
    && forall v, o :: Offers(candidates, v, o) <==> v !in dist && OwnerNextTo(k, owner, nodes, v, o)
  }

  predicate Offers(candidates: map<FormId, seq<FormId>>, v: FormId, o: FormId) {
    v in candidates && o in candidates[v]
  }

  ghost predicate OwnerNextTo(k: Component, owner: map<FormId, FormId>, nodes: set<FormId>, v: FormId, o: FormId) {
    exists w <- nodes :: w in owner && Adjacent(k, w, v) && owner[w] == o
  }

  function Added(candidates: map<FormId, seq<FormId>>, v: FormId, o: FormId): map<FormId, seq<FormId>> {
    candidates[v := (if v in candidates then candidates[v] else []) + [o]]
  }

  method Candidates(k: Component, adj: map<FormId, set<FormId>>, dist: map<FormId, nat>, owner: map<FormId, FormId>, nodes: set<FormId>)
    returns (candidates: map<FormId, seq<FormId>>)
    requires forall a, b :: Has(adj, a, b) <==> Adjacent(k, a, b)
    requires nodes <= owner.Keys
    ensures CandidatesOf(k, dist, owner, nodes, candidates)
  {
    candidates := map[];
    var rest := nodes;
    while rest != {}
      invariant rest <= nodes && CandidatesOf(k, dist, owner, nodes - rest, candidates)
      decreases rest
    {
      var node :| node in rest;
      var neighbours := if node in adj then adj[node] else {};
      var before := candidates;
      candidates := AddNeighbours(dist, owner[node], neighbours, candidates);
      CandidatesGrow(k, adj, dist, owner, nodes - rest, before, candidates, node);
      assert nodes - (rest - {node}) == (nodes - rest) + {node};
      rest := rest - {node};
    }
    assert nodes - {} == nodes;
  }

  method AddNeighbours(dist: map<FormId, nat>, o: FormId, neighbours: set<FormId>, before: map<FormId, seq<FormId>>)
    returns (candidates: map<FormId, seq<FormId>>)
    requires forall v <- before :: |before[v]| > 0
    ensures forall v <- candidates :: |candidates[v]| > 0
    ensures forall v, p :: Offers(candidates, v, p) <==> Offers(before, v, p) || (v in neighbours && v !in dist && p == o)
  {
    candidates := before;
    var rest := neighbours;
    while rest != {}
      invariant rest <= neighbours && forall v <- candidates :: |candidates[v]| > 0
      invariant forall v, p ::
        Offers(candidates, v, p) <==> Offers(before, v, p) || (v in neighbours - rest && v !in dist && p == o)
      decreases rest
    {
      var v :| v in rest;
      ghost var was := candidates;
      if v !in dist {
        candidates := Added(candidates, v, o);
      }
      forall u, p
        ensures Offers(candidates, u, p) <==> Offers(was, u, p) || (u == v && v !in dist && p == o)
      {}
      rest := rest - {v};
    }
  }

  lemma CandidatesGrow(k: Component, adj: map<FormId, set<FormId>>, dist: map<FormId, nat>, owner: map<FormId, FormId>, nodes: set<FormId>,
                       before: map<FormId, seq<FormId>>, after: map<FormId, seq<FormId>>, node: FormId)
    requires forall a, b :: Has(adj, a, b) <==> Adjacent(k, a, b)
    requires CandidatesOf(k, dist, owner, nodes, before) && node in owner && forall v <- after :: |after[v]| > 0
    requires forall v, p :: Offers(after, v, p) <==>
      Offers(before, v, p) || (v in (if node in adj then adj[node] else {}) && v !in dist && p == owner[node])
    ensures CandidatesOf(k, dist, owner, nodes + {node}, after)
  {
    hide Adjacent, Offers;
    forall v, o ensures Offers(after, v, o) <==> v !in dist && OwnerNextTo(k, owner, nodes + {node}, v, o) {
      assert Has(adj, node, v) <==> Adjacent(k, node, v);
      OwnerNextToMore(k, owner, nodes, node, v, o);
    }
  }

  lemma OwnerNextToMore(k: Component, owner: map<FormId, FormId>, nodes: set<FormId>, node: FormId, v: FormId, o: FormId)
    requires node in owner
    ensures OwnerNextTo(k, owner, nodes + {node}, v, o)
       <==> OwnerNextTo(k, owner, nodes, v, o) || (Adjacent(k, node, v) && owner[node] == o)
  {
    hide Adjacent;
    if OwnerNextTo(k, owner, nodes, v, o) {
      var w :| w in nodes && w in owner && Adjacent(k, w, v) && owner[w] == o;
      assert w in nodes + {node};
    }
    if Adjacent(k, node, v) && owner[node] == o {
      assert node in nodes + {node};
    }
  }

  /** The best of some anchors. */
  method MinAnchor(k: Component, anchors: seq<FormId>) returns (best: FormId)
    requires |anchors| > 0 && forall a <- anchors :: a in k.ranks
    ensures best in anchors && forall a <- anchors :: Before(k, best, a)
  {
    best := anchors[0];
    for i := 1 to |anchors|
      invariant best in anchors && forall j | 0 <= j < i :: Before(k, best, anchors[j])
    {
      if !Before(k, best, anchors[i]) {
        best := anchors[i];
      }
    }
  }

  /** Every candidate gets the distance of the new layer and its best offer. */
  ghost predicate Extended(k: Component, layer: nat, candidates: map<FormId, seq<FormId>>, done: set<FormId>,
                           dist: map<FormId, nat>, owner: map<FormId, FormId>, dist': map<FormId, nat>, owner': map<FormId, FormId>) {
    && dist'.Keys == dist.Keys + done && owner'.Keys == owner.Keys + done
    && (forall v <- dist | v !in done :: dist'[v] == dist[v])
    && (forall v <- owner | v !in done :: owner'[v] == owner[v])
    && (forall v <- done :: v in candidates && dist'[v] == layer + 1 && BestOffer(k, candidates[v], owner'[v]))
  }

  ghost predicate BestOffer(k: Component, offers: seq<FormId>, o: FormId) {
    o in offers && forall p <- offers :: o in k.ranks && p in k.ranks && Before(k, o, p)
  }

  method ExtendLayer(k: Component, layer: nat, candidates: map<FormId, seq<FormId>>, dist: map<FormId, nat>, owner: map<FormId, FormId>)
    returns (dist': map<FormId, nat>, owner': map<FormId, FormId>)
    requires forall v <- candidates :: |candidates[v]| > 0 && forall a <- candidates[v] :: a in k.ranks
    ensures Extended(k, layer, candidates, candidates.Keys, dist, owner, dist', owner')
  {
    dist', owner' := dist, owner;
    var rest := candidates.Keys;
    while rest != {}
      invariant rest <= candidates.Keys && Extended(k, layer, candidates, candidates.Keys - rest, dist, owner, dist', owner')
      decreases rest
    {
      var node :| node in rest;
      var best := MinAnchor(k, candidates[node]);
      assert BestOffer(k, candidates[node], best);
      ExtendOne(k, layer, candidates, candidates.Keys - rest, dist, owner, dist', owner', node, best);
      assert candidates.Keys - (rest - {node}) == (candidates.Keys - rest) + {node};
      dist' := dist'[node := layer + 1];
      owner' := owner'[node := best];
      rest := rest - {node};
    }
    assert candidates.Keys - {} == candidates.Keys;
  }

  lemma ExtendOne(k: Component, layer: nat, candidates: map<FormId, seq<FormId>>, done: set<FormId>, dist: map<FormId, nat>,
                  owner: map<FormId, FormId>, dist': map<FormId, nat>, owner': map<FormId, FormId>, node: FormId, best: FormId)
    requires Extended(k, layer, candidates, done, dist, owner, dist', owner')
    requires node in candidates && BestOffer(k, candidates[node], best)
    ensures Extended(k, layer, candidates, done + {node}, dist, owner, dist'[node := layer + 1], owner'[node := best])
  {
    hide BestOffer;
  }

  ghost predicate IsLayer(dist: map<FormId, nat>, layer: nat, nodes: set<FormId>) {
    forall v :: v in nodes <==> v in dist && dist[v] == layer
  }

  lemma OffersAreAnchors(k: Component, layer: nat, dist: map<FormId, nat>, owner: map<FormId, FormId>, nodes: set<FormId>,
                         candidates: map<FormId, seq<FormId>>, v: FormId, o: FormId)
    requires Searched(k, layer, dist, owner) && CandidatesOf(k, dist, owner, nodes, candidates) && Offers(candidates, v, o)
    ensures o in k.ranks && v in k.members && v !in dist
  {
    hide Walk;
    assert OwnerNextTo(k, owner, nodes, v, o);
    var w :| w in nodes && w in owner && Adjacent(k, w, v) && owner[w] == o;
    assert Nearest(k, w, owner[w], dist[w]);
  }

  /** The search invariant one layer on. */
  lemma SearchGoesOn(k: Component, layer: nat, dist: map<FormId, nat>, owner: map<FormId, FormId>, nodes: set<FormId>,
                     candidates: map<FormId, seq<FormId>>, dist': map<FormId, nat>, owner': map<FormId, FormId>)
    requires Searched(k, layer, dist, owner) && IsLayer(dist, layer, nodes) && CandidatesOf(k, dist, owner, nodes, candidates)
    requires Extended(k, layer, candidates, candidates.Keys, dist, owner, dist', owner')
    ensures Searched(k, layer + 1, dist', owner') && IsLayer(dist', layer + 1, candidates.Keys)
  {
    hide Walk, Adjacent, CandidatesOf, Nearest, BestOffer;
    forall v <- candidates ensures v in k.members && v !in dist && Nearest(k, v, owner'[v], layer + 1) {
      CandidateIsNearest(k, layer, dist, owner, nodes, candidates, v, owner'[v]);
    }
    forall v, a, n: nat | a in Anchors(k) && Walk(k, a, v, n) && n <= layer + 1 ensures v in dist' {
      if n == layer + 1 && v !in dist {
        var w := LastStep(k, layer, dist, owner, a, v);
        CandidateFound(k, dist, owner, nodes, candidates, w, v);
      }
    }
  }

  lemma CandidateFound(k: Component, dist: map<FormId, nat>, owner: map<FormId, FormId>, nodes: set<FormId>,
                       candidates: map<FormId, seq<FormId>>, w: FormId, v: FormId)
    requires CandidatesOf(k, dist, owner, nodes, candidates) && w in nodes && w in owner && Adjacent(k, w, v) && v !in dist
    ensures v in candidates && Offers(candidates, v, owner[w])
  {
    hide Adjacent;
    assert OwnerNextTo(k, owner, nodes, v, owner[w]);
    assert Offers(candidates, v, owner[w]);
  }

  lemma CandidateIsNearest(k: Component, layer: nat, dist: map<FormId, nat>, owner: map<FormId, FormId>, nodes: set<FormId>,
                           candidates: map<FormId, seq<FormId>>, v: FormId, o: FormId)
    requires Searched(k, layer, dist, owner) && IsLayer(dist, layer, nodes) && CandidatesOf(k, dist, owner, nodes, candidates)
    requires v in candidates && BestOffer(k, candidates[v], o)
    ensures v in k.members && v !in dist && Nearest(k, v, o, layer + 1)
  {
    hide Walk, Adjacent, Nearest;
    assert Offers(candidates, v, o);
    OffersAreAnchors(k, layer, dist, owner, nodes, candidates, v, o);
    assert OwnerNextTo(k, owner, nodes, v, o);
    forall w <- dist | dist[w] == layer && Adjacent(k, w, v)
      ensures o in k.ranks && owner[w] in k.ranks && Before(k, o, owner[w])
    {
      CandidateFound(k, dist, owner, nodes, candidates, w, v);
      assert owner[w] in candidates[v];
    }
    NewOwner(k, layer, dist, owner, v, o);
  }

  // ------------------------------------------------------------------------ the method

  /** The layered search from all anchors: finds exactly what is reachable, and for all of
      it the nearest anchor. */
  method Search(k: Component, adj: map<FormId, set<FormId>>) returns (owner: map<FormId, FormId>)
    requires forall a, b :: Has(adj, a, b) <==> Adjacent(k, a, b)
    ensures owner.Keys <= k.members
    ensures forall v <- k.members :: v in owner <==> Reached(k, v)
    ensures forall v <- owner :: OwnedBy(k, v, owner[v])
  {
    hide Walk, Adjacent, CandidatesOf, Nearest, Extended, Searched, IsLayer, Reached, OwnedBy;
    var anchors := Anchors(k);
    var dist: map<FormId, nat> := map a | a in anchors :: 0;
    owner := map a | a in anchors :: a;
    var currentLayer := anchors;
    var layer := 0;
    SearchStarts(k);
    FirstLayer(anchors);
    SearchKeys(k, layer, dist, owner);
    while currentLayer != {}
      invariant Searched(k, layer, dist, owner) && IsLayer(dist, layer, currentLayer)
      invariant dist.Keys == owner.Keys && dist.Keys <= k.members
      decreases k.members - dist.Keys
    {
      LayerIsFound(dist, layer, currentLayer);
      var candidates := Candidates(k, adj, dist, owner, currentLayer);
      if candidates == map[] {
        NoCandidates(k, layer, dist, owner, currentLayer, candidates);
        break;
      }
      OffersRanked(k, layer, dist, owner, currentLayer, candidates);
      var dist', owner' := ExtendLayer(k, layer, candidates, dist, owner);
      SearchGoesOn(k, layer, dist, owner, currentLayer, candidates, dist', owner');
      SearchKeys(k, layer + 1, dist', owner');
      MoreFound(k, layer, dist, owner, currentLayer, candidates, dist', owner');
      dist, owner, currentLayer, layer := dist', owner', candidates.Keys, layer + 1;
    }
    if currentLayer == {} {
      EmptyLayer(k, layer, dist, currentLayer);
    }
    SearchEnds(k, layer, dist, owner);
  }

  lemma FirstLayer(anchors: set<FormId>)
    ensures IsLayer(map a | a in anchors :: 0, 0, anchors)
  {}

  lemma SearchKeys(k: Component, layer: nat, dist: map<FormId, nat>, owner: map<FormId, FormId>)
    requires Searched(k, layer, dist, owner)
    ensures dist.Keys == owner.Keys && dist.Keys <= k.members
  {
    hide Walk, Nearest;
  }

  lemma LayerIsFound(dist: map<FormId, nat>, layer: nat, nodes: set<FormId>)
    requires IsLayer(dist, layer, nodes)
    ensures nodes <= dist.Keys
  {}

  lemma OffersRanked(k: Component, layer: nat, dist: map<FormId, nat>, owner: map<FormId, FormId>, nodes: set<FormId>,
                     candidates: map<FormId, seq<FormId>>)
    requires Searched(k, layer, dist, owner) && CandidatesOf(k, dist, owner, nodes, candidates)
    ensures forall v <- candidates :: |candidates[v]| > 0 && forall a <- candidates[v] :: a in k.ranks
  {
    hide Walk, Nearest, Adjacent, Searched;
    forall v <- candidates, a <- candidates[v] ensures a in k.ranks {
      assert Offers(candidates, v, a);
      OffersAreAnchors(k, layer, dist, owner, nodes, candidates, v, a);
    }
  }

  lemma MoreFound(k: Component, layer: nat, dist: map<FormId, nat>, owner: map<FormId, FormId>, nodes: set<FormId>,
                  candidates: map<FormId, seq<FormId>>, dist': map<FormId, nat>, owner': map<FormId, FormId>)
    requires Searched(k, layer, dist, owner) && CandidatesOf(k, dist, owner, nodes, candidates) && candidates != map[]
    requires Extended(k, layer, candidates, candidates.Keys, dist, owner, dist', owner') && dist'.Keys <= k.members
    ensures k.members - dist'.Keys < k.members - dist.Keys
  {
    hide Walk, Nearest, Adjacent, Searched;
    assert candidates.Keys != {};
    var v :| v in candidates;
    var a := candidates[v][0];
    assert Offers(candidates, v, a);
    assert v !in dist;
    assert v in k.members - dist.Keys && v !in k.members - dist'.Keys;
  }

  /** The last layer has no neighbours that are new. */
  ghost predicate Exhausted(k: Component, layer: nat, dist: map<FormId, nat>) {
    forall w <- dist, x <- k.members :: dist[w] == layer && Adjacent(k, w, x) ==> x in dist
  }

  lemma NoCandidates(k: Component, layer: nat, dist: map<FormId, nat>, owner: map<FormId, FormId>, nodes: set<FormId>,
                     candidates: map<FormId, seq<FormId>>)
    requires IsLayer(dist, layer, nodes) && CandidatesOf(k, dist, owner, nodes, candidates) && candidates == map[]
    requires dist.Keys == owner.Keys
    ensures Exhausted(k, layer, dist)
  {
    hide Adjacent, CandidatesOf;
    forall w <- dist, x <- k.members | dist[w] == layer && Adjacent(k, w, x) ensures x in dist {
      if x !in dist {
        CandidateFound(k, dist, owner, nodes, candidates, w, x);
      }
    }
  }

  lemma EmptyLayer(k: Component, layer: nat, dist: map<FormId, nat>, nodes: set<FormId>)
    requires IsLayer(dist, layer, nodes) && nodes == {}
    ensures Exhausted(k, layer, dist)
  {
    hide Adjacent;
  }

  lemma SearchEnds(k: Component, layer: nat, dist: map<FormId, nat>, owner: map<FormId, FormId>)
    requires Searched(k, layer, dist, owner) && Exhausted(k, layer, dist)
    ensures forall v <- k.members :: v in owner <==> Reached(k, v)
    ensures forall v <- owner :: OwnedBy(k, v, owner[v])
  {
    hide Walk, Adjacent;
    forall v <- dist ensures Reached(k, v) && OwnedBy(k, v, owner[v]) {
      assert Nearest(k, v, owner[v], dist[v]);
    }
    forall v <- k.members | Reached(k, v) ensures v in dist {
      var a, n: nat :| a in Anchors(k) && Walk(k, a, v, n);
      NothingBeyond(k, layer, dist, owner, a, v, n);
    }
  }

  // ------------------------------------------------------------------------ the groups

  /** The group of an anchor is everything it owns. */
  ghost predicate GroupOf(k: Component, a: FormId, group: set<FormId>) {
    && a in Anchors(k) && group * Anchors(k) == {a}
    && forall v :: v in group <==> v in k.members && OwnedBy(k, v, a)
  }

  /** The groups partition the component, one for each anchor, which is the only anchor
      inside. */
  ghost predicate Splits(k: Component, groups: seq<set<FormId>>) {
    && IsPartition(k.members, groups)
    && forall i | 0 <= i < |groups| :: IsGroup(k, groups[i])
  }

  ghost predicate IsGroup(k: Component, group: set<FormId>) {
    exists a: FormId :: GroupOf(k, a, group)
  }

  /** A component within the limit, or with fewer than two anchors, stays whole; any other
      is split among its anchors. */
  method SplitOversized(k: Component, maxMembers: nat) returns (groups: seq<set<FormId>>)
    ensures |k.members| <= maxMembers || |Anchors(k)| < 2 ==> groups == [k.members]
    ensures |k.members| > maxMembers && |Anchors(k)| >= 2 ==> Splits(k, groups) && |groups| == |Anchors(k)|
  {
    hide OwnedBy, Reached, Adjacent;
    if |k.members| <= maxMembers {
      return [k.members];
    }
    var anchors := Anchors(k);
    if |anchors| < 2 {
      return [k.members];
    }
    var adj := InternalAdjacency(k);
    var owner := Search(k, adj);
    var order := Ascending(anchors);
    AnchorsListed(anchors, order);
    var fallback := MinAnchor(k, order);
    FallbackIsBest(k, order, fallback);
    var whole := map v | v in k.members :: if v in owner then owner[v] else fallback;
    forall v <- k.members ensures OwnedBy(k, v, whole[v]) {
      if v !in owner {
        Unreached(k, v, fallback);
      }
    }
    groups := [];
    for i := 0 to |order|
      invariant |groups| == i && forall j | 0 <= j < i :: groups[j] == OwnedSet(k.members, whole, order[j])
    {
      groups := groups + [OwnedSet(k.members, whole, order[i])];
    }
    SplitIsRight(k, order, whole, groups);
    OrderLength(anchors, order);
  }

  function OwnedSet(members: set<FormId>, owner: map<FormId, FormId>, a: FormId): set<FormId> {
    set v | v in members && v in owner && owner[v] == a
  }

  lemma Unreached(k: Component, v: FormId, best: FormId)
    requires !Reached(k, v) && IsBest(k, best)
    ensures OwnedBy(k, v, best)
  {}

  lemma AnchorsListed(anchors: set<FormId>, order: seq<FormId>)
    requires StrictKeys(order) && (forall x :: x in order <==> x in anchors) && |anchors| >= 2
    ensures |order| > 0
  {
    assert anchors != {};
    var x :| x in anchors;
    assert x in order;
  }

  lemma FallbackIsBest(k: Component, order: seq<FormId>, best: FormId)
    requires (forall x :: x in order <==> x in Anchors(k)) && best in order && forall a <- order :: Before(k, best, a)
    ensures IsBest(k, best)
  {}

  lemma {:induction false} OrderLength(s: set<FormId>, order: seq<FormId>)
    requires StrictKeys(order) && forall x :: x in order <==> x in s
    ensures |order| == |s|
    decreases |order|
  {
    var n := |order| - 1;
    if n < 0 {
      assert s == {};
    } else {
      var smaller := s - {order[n]};
      forall x ensures x in order[..n] <==> x in smaller {
        assert order == order[..n] + [order[n]];
      }
      OrderLength(smaller, order[..n]);
      assert s == smaller + {order[n]};
    }
  }

  lemma SplitIsRight(k: Component, order: seq<FormId>, owner: map<FormId, FormId>, groups: seq<set<FormId>>)
    requires StrictKeys(order) && (forall x :: x in order <==> x in Anchors(k)) && |groups| == |order|
    requires owner.Keys == k.members && forall v <- k.members :: OwnedBy(k, v, owner[v])
    requires forall j | 0 <= j < |groups| :: groups[j] == OwnedSet(k.members, owner, order[j])
    ensures Splits(k, groups)
  {
    hide OwnedBy, Anchors, GroupOf;
    forall i | 0 <= i < |groups| ensures GroupOf(k, order[i], groups[i]) {
      assert order[i] in order;
      OwnedSetIsGroup(k, owner, order[i]);
    }
    SplitCovers(k, order, owner, groups);
    forall i | 0 <= i < |groups| ensures IsGroup(k, groups[i]) {
      assert GroupOf(k, order[i], groups[i]);
    }
  }

  lemma OwnedSetIsGroup(k: Component, owner: map<FormId, FormId>, a: FormId)
    requires owner.Keys == k.members && (forall v <- k.members :: OwnedBy(k, v, owner[v])) && a in Anchors(k)
    ensures GroupOf(k, a, OwnedSet(k.members, owner, a))
  {
    hide OwnedBy;
    var group := OwnedSet(k.members, owner, a);
    forall v ensures v in group <==> v in k.members && OwnedBy(k, v, a) {
      if v in k.members && OwnedBy(k, v, a) {
        OneOwner(k, v, a, owner[v]);
      }
    }
    forall x ensures x in group * Anchors(k) <==> x == a {
      if x in Anchors(k) {
        AnchorOwnsItself(k, x);
        OneOwner(k, x, x, owner[x]);
      }
    }
  }

  lemma SplitCovers(k: Component, order: seq<FormId>, owner: map<FormId, FormId>, groups: seq<set<FormId>>)
    requires StrictKeys(order) && (forall x :: x in order <==> x in Anchors(k)) && |groups| == |order|
    requires owner.Keys == k.members && forall v <- k.members :: OwnedBy(k, v, owner[v])
    requires forall j | 0 <= j < |groups| :: groups[j] == OwnedSet(k.members, owner, order[j])
    requires forall i | 0 <= i < |groups| :: GroupOf(k, order[i], groups[i])
    ensures IsPartition(k.members, groups)
  {
    hide OwnedBy, Anchors;
    forall i | 0 <= i < |groups| ensures groups[i] != {} && groups[i] <= k.members {
      assert order[i] in groups[i] * Anchors(k);
    }
    forall v <- k.members ensures InSome(groups, v) {
      OwnerIsAnchor(k, v, owner[v]);
      var i :| 0 <= i < |order| && order[i] == owner[v];
      assert v in groups[i];
    }
  }

  lemma OwnerIsAnchor(k: Component, v: FormId, a: FormId)
    requires OwnedBy(k, v, a)
    ensures a in Anchors(k)
  {
    hide Walk;
  }
}
