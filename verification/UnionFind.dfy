/** Clustering the changed records of a patch: union-find over links between records and
    through shared context, with hubs left out. */
module UnionFind {
  import opened Sorting

  type FormId = nat

  datatype Edge = Edge(from: FormId, to: FormId)

  // ------------------------------------------------------------------------- the forest

  ghost predicate IsForest(parent: map<FormId, FormId>) {
    forall x {:trigger parent[x]} | x in parent :: parent[x] in parent && parent[x] <= x
  }

  /** Where following the parents ends. */
  ghost function Climb(parent: map<FormId, FormId>, x: FormId): FormId
    decreases x
  {
    if x in parent && parent[x] < x then Climb(parent, parent[x]) else x
  }

  ghost function Root(parent: map<FormId, FormId>, x: FormId): FormId {
    Climb(parent, x)
  }

  lemma {:induction false} RootFacts(parent: map<FormId, FormId>, x: FormId)
    requires IsForest(parent) && x in parent
    ensures var r := Root(parent, x); r in parent && parent[r] == r && r <= x && Root(parent, r) == r
    decreases x
  {
    if parent[x] < x {
      RootFacts(parent, parent[x]);
    }
  }

  /** Both forests give every element the same root. */
  ghost predicate SameRoots(before: map<FormId, FormId>, after: map<FormId, FormId>) {
    before.Keys == after.Keys && forall x {:trigger Root(after, x)} :: Root(after, x) == Root(before, x)
  }

  lemma SameRootsSelf(p: map<FormId, FormId>)
    ensures SameRoots(p, p)
  {}

  lemma SameRootsJoin(p: map<FormId, FormId>, q: map<FormId, FormId>, r: map<FormId, FormId>)
    requires SameRoots(p, q) && SameRoots(q, r)
    ensures SameRoots(p, r)
  {
    hide Root;
    forall x ensures Root(r, x) == Root(p, x) {
      assert Root(q, x) == Root(p, x);
    }
  }

  lemma SameRootsOf(p: map<FormId, FormId>, q: map<FormId, FormId>, x: FormId)
    requires SameRoots(p, q)
    ensures Root(q, x) == Root(p, x)
  {
    hide Root;
  }

  /** Pointing one element straight at its root keeps the forest and everybody's root. */
  lemma {:induction false} Compressed(parent: map<FormId, FormId>, x: FormId, y: FormId)
    requires IsForest(parent) && x in parent
    ensures Root(parent[x := Root(parent, x)], y) == Root(parent, y)
    decreases y
  {
    var r := Root(parent, x);
    var after := parent[x := r];
    RootFacts(parent, x);
    if y == x {
      if r < x {
        assert after[r] == r;
        assert Climb(after, x) == Climb(after, r);
      }
    } else if y in parent && parent[y] < y {
      Compressed(parent, x, parent[y]);
    }
  }

  lemma CompressedRoots(parent: map<FormId, FormId>, x: FormId)
    requires IsForest(parent) && x in parent
    ensures SameRoots(parent, parent[x := Root(parent, x)])
  {
    hide Root, IsForest;
    forall y ensures Root(parent[x := Root(parent, x)], y) == Root(parent, y) {
      Compressed(parent, x, y);
    }
  }

  lemma StillForest(parent: map<FormId, FormId>, x: FormId, r: FormId)
    requires IsForest(parent) && x in parent && r in parent && r <= x
    ensures IsForest(parent[x := r])
  {}

  /** Hanging one root under a smaller one moves exactly its tree. */
  lemma {:induction false} Hung(parent: map<FormId, FormId>, small: FormId, large: FormId, y: FormId)
    requires IsForest(parent) && small in parent && large in parent && small < large
    requires parent[small] == small && parent[large] == large
    ensures Root(parent[large := small], y) == if Root(parent, y) == large then small else Root(parent, y)
    decreases y
  {
    var after := parent[large := small];
    if y == large {
      assert after[small] == small;
      assert Climb(after, large) == Climb(after, small);
    } else if y in parent && parent[y] < y {
      Hung(parent, small, large, parent[y]);
    }
  }

  ghost function Joined(ra: FormId, rb: FormId, r: FormId): FormId {
    if ra <= rb then (if r == rb then ra else r) else (if r == ra then rb else r)
  }

  /** The forest after the classes of `a` and `b` are joined. */
  ghost predicate JoinedAt(before: map<FormId, FormId>, after: map<FormId, FormId>, a: FormId, b: FormId) {
    && after.Keys == before.Keys
    && forall x {:trigger Root(after, x)} :: Root(after, x) == Joined(Root(before, a), Root(before, b), Root(before, x))
  }

  lemma NothingJoined(before: map<FormId, FormId>, after: map<FormId, FormId>, a: FormId, b: FormId)
    requires SameRoots(before, after) && Root(before, a) == Root(before, b)
    ensures JoinedAt(before, after, a, b)
  {
    hide Root, Joined;
    forall x ensures Root(after, x) == Joined(Root(before, a), Root(before, b), Root(before, x)) {
      JoinedCases(Root(before, a), Root(before, b), Root(before, x));
    }
  }

  lemma HungIsJoined(before: map<FormId, FormId>, mid: map<FormId, FormId>, after: map<FormId, FormId>, a: FormId, b: FormId)
    requires SameRoots(before, mid) && Root(before, a) != Root(before, b)
    requires var ra, rb := Root(before, a), Root(before, b);
      HungUnder(mid, after, if ra < rb then ra else rb, if ra < rb then rb else ra)
    ensures JoinedAt(before, after, a, b)
  {
    hide Root, Joined;
    forall x ensures Root(after, x) == Joined(Root(before, a), Root(before, b), Root(before, x)) {
      assert Root(mid, x) == Root(before, x);
      JoinedCases(Root(before, a), Root(before, b), Root(before, x));
    }
  }

  lemma JoinedCases(ra: FormId, rb: FormId, r: FormId)
    ensures ra == rb ==> Joined(ra, rb, r) == r
    ensures ra < rb ==> Joined(ra, rb, r) == if r == rb then ra else r
    ensures rb < ra ==> Joined(ra, rb, r) == if r == ra then rb else r
  {}

  /** `y` is met when the parents are followed from `x`. */
  ghost predicate OnWay(parent: map<FormId, FormId>, x: FormId, y: FormId)
    decreases x
  {
    x == y || (x in parent && parent[x] < x && OnWay(parent, parent[x], y))
  }

  /** Everything on the way from `x` points straight at the root, and nothing else has
      moved. */
  ghost predicate Flattened(before: map<FormId, FormId>, after: map<FormId, FormId>, x: FormId, root: FormId) {
    && before.Keys == after.Keys
    && forall y {:trigger after[y]} | y in after :: after[y] == if OnWay(before, x, y) then root else before[y]
  }

  /** The way from `x` is flattened down to `at`, and still untouched from there on. */
  ghost predicate FlattenedTo(before: map<FormId, FormId>, after: map<FormId, FormId>, x: FormId, root: FormId, at: FormId) {
    && before.Keys == after.Keys
    && forall y {:trigger after[y]} | y in after ::
         && (OnWay(before, at, y) ==> OnWay(before, x, y))
         && after[y] == if OnWay(before, x, y) && !OnWay(before, at, y) then root else before[y]
  }

  lemma {:induction false} WayIsDown(parent: map<FormId, FormId>, x: FormId, y: FormId)
    requires OnWay(parent, x, y)
    ensures y <= x
    decreases x
  {
    if x != y {
      WayIsDown(parent, parent[x], y);
    }
  }

  lemma FlattenBegin(parent: map<FormId, FormId>, x: FormId, root: FormId)
    ensures FlattenedTo(parent, parent, x, root, x)
  {}

  lemma FlattenStep(before: map<FormId, FormId>, mid: map<FormId, FormId>, x: FormId, root: FormId, at: FormId)
    requires FlattenedTo(before, mid, x, root, at) && at in mid && mid[at] < at
    ensures before[at] == mid[at] && FlattenedTo(before, mid[at := root], x, root, mid[at])
  {
    assert OnWay(before, at, at);
    assert mid[at] == before[at];
    var after, next := mid[at := root], mid[at];
    if OnWay(before, next, at) {
      WayIsDown(before, next, at);
    }
    forall y {:trigger after[y]} | y in after
      ensures OnWay(before, next, y) ==> OnWay(before, x, y)
      ensures after[y] == if OnWay(before, x, y) && !OnWay(before, next, y) then root else before[y]
    {
      assert mid[y] == mid[y];
      assert OnWay(before, at, y) <==> y == at || OnWay(before, next, y);
    }
  }

  lemma FlattenEnd(before: map<FormId, FormId>, after: map<FormId, FormId>, x: FormId, root: FormId, at: FormId)
    requires FlattenedTo(before, after, x, root, at) && at in after && after[at] == root
    requires root in after && after[root] == root && root <= at
    ensures Flattened(before, after, x, root)
  {
    assert OnWay(before, at, at) && OnWay(before, root, root);
    forall y {:trigger after[y]} | y in after ensures after[y] == if OnWay(before, x, y) then root else before[y] {
      if OnWay(before, at, y) && y != at {
        assert OnWay(before, root, y);
      }
    }
  }

  class DSU {
    var parent: map<FormId, FormId>

    constructor (items: set<FormId>)
      ensures IsForest(parent) && parent.Keys == items
      ensures forall x :: Root(parent, x) == x
    {
      parent := map x | x in items :: x;
    }

    /** The root of `x`; everything on the way is pointed straight at it, and no root
        changes. */
    method Find(x: FormId) returns (root: FormId)
      requires IsForest(parent) && x in parent
      modifies this
      ensures IsForest(parent) && SameRoots(old(parent), parent)
      ensures root == Root(old(parent), x) && Flattened(old(parent), parent, x, root)
    {
      root := x;
      while parent[root] != root
        invariant root in parent && Root(parent, root) == Root(parent, x)
        decreases root
      {
        root := parent[root];
      }
      Compress(x, root);
    }

    /** The second pass of `Find`. */
    method Compress(x: FormId, root: FormId)
      requires IsForest(parent) && x in parent && root in parent && parent[root] == root && Root(parent, x) == root
      modifies this
      ensures IsForest(parent) && SameRoots(old(parent), parent)
      ensures Flattened(old(parent), parent, x, root)
    {
      hide Root, IsForest, SameRoots, Flattened, FlattenedTo;
      var at := x;
      SameRootsSelf(parent);
      FlattenBegin(parent, x, root);
      while parent[at] != root
        invariant IsForest(parent) && SameRoots(old(parent), parent)
        invariant FlattenedTo(old(parent), parent, x, root, at)
        invariant at in parent && root in parent && Root(parent, at) == root && parent[root] == root
        decreases at
      {
        var next := parent[at];
        Above(parent, at);
        FlattenStep(old(parent), parent, x, root, at);
        CompressedRoots(parent, at);
        RootFacts(parent, at);
        StillForest(parent, at, root);
        SameRootsJoin(old(parent), parent, parent[at := root]);
        SameRootsOf(parent, parent[at := root], next);
        parent := parent[at := root];
        at := next;
      }
      RootFacts(parent, at);
      FlattenEnd(old(parent), parent, x, root, at);
    }

    /** Joins two classes; the smaller root survives. */
    method Union(a: FormId, b: FormId)
      requires IsForest(parent) && a in parent && b in parent
      modifies this
      ensures IsForest(parent) && JoinedAt(old(parent), parent, a, b)
    {
      hide Root, IsForest, JoinedAt, Joined, Flattened;
      ghost var before := parent;
      var ra := Find(a);
      var rb := Find(b);
      ghost var mid := parent;
      if ra == rb {
        NothingJoined(before, mid, a, b);
        return;
      }
      RootFacts(parent, a);
      RootFacts(parent, b);
      if ra < rb {
        Hang(ra, rb);
      } else {
        Hang(rb, ra);
      }
      HungIsJoined(before, mid, parent, a, b);
    }

    method Hang(small: FormId, large: FormId)
      requires IsForest(parent) && small in parent && large in parent && small < large
      requires parent[small] == small && parent[large] == large
      modifies this
      ensures IsForest(parent) && HungUnder(old(parent), parent, small, large)
    {
      hide Root, IsForest;
      HungRoots(parent, small, large);
      StillForest(parent, large, small);
      parent := parent[large := small];
    }
  }

  /** An element that does not point at its root points at one above it with the same. */
  lemma Above(parent: map<FormId, FormId>, at: FormId)
    requires IsForest(parent) && at in parent && parent[at] != Root(parent, at)
    ensures parent[at] < at && parent[at] in parent && Root(parent, parent[at]) == Root(parent, at)
  {}

  ghost predicate HungUnder(before: map<FormId, FormId>, after: map<FormId, FormId>, small: FormId, large: FormId) {
    before.Keys == after.Keys
    && forall x {:trigger Root(after, x)} :: Root(after, x) == if Root(before, x) == large then small else Root(before, x)
  }

  lemma HungRoots(parent: map<FormId, FormId>, small: FormId, large: FormId)
    requires IsForest(parent) && small in parent && large in parent && small < large
    requires parent[small] == small && parent[large] == large
    ensures HungUnder(parent, parent[large := small], small, large)
  {
    hide Root, IsForest;
    forall x ensures Root(parent[large := small], x) == if Root(parent, x) == large then small else Root(parent, x) {
      Hung(parent, small, large, x);
    }
  }

  // ------------------------------------------------------------------------- the links

  /** What clustering works on: the changed records, the edges, and how connected each
      record and each context node is. */
  datatype Graph = Graph(
    universe: set<FormId>, edges: seq<Edge>, fullDegree: map<FormId, nat>, contextDegree: map<FormId, nat>, hubDegree: nat)

  function Degree(degrees: map<FormId, nat>, x: FormId): nat {
    if x in degrees then degrees[x] else 0
  }

  /** An edge between two changed records, neither of them a hub. */
  predicate DirectEdge(g: Graph, e: Edge) {
    && e.from in g.universe && e.to in g.universe
    && Degree(g.fullDegree, e.from) <= g.hubDegree && Degree(g.fullDegree, e.to) <= g.hubDegree
  }

  ghost predicate Direct(g: Graph, a: FormId, b: FormId) {
    exists e <- g.edges :: DirectEdge(g, e) && ((e.from == a && e.to == b) || (e.from == b && e.to == a))
  }

  /** The changed record at one end of an edge whose other end is the context node `c`. */
  predicate Touches(g: Graph, e: Edge, c: FormId, a: FormId) {
    a in g.universe && c !in g.universe && ((e.from == a && e.to == c) || (e.to == a && e.from == c))
  }

  ghost predicate ContextOf(g: Graph, c: FormId, a: FormId) {
    exists e <- g.edges :: Touches(g, e, c, a)
  }

  /** Both records touch one context node that is no hub. */
  ghost predicate Shared(g: Graph, a: FormId, b: FormId) {
    exists c :: ContextOf(g, c, a) && ContextOf(g, c, b) && Degree(g.contextDegree, c) <= g.hubDegree
  }

  ghost predicate Linked(g: Graph, a: FormId, b: FormId) {
    a in g.universe && b in g.universe && (Direct(g, a, b) || Shared(g, a, b))
  }

  ghost predicate IsChain(g: Graph, path: seq<FormId>) {
    |path| > 0 && forall i | 0 <= i < |path| - 1 :: Linked(g, path[i], path[i + 1])
  }

  /** The records are joined by a chain of links. */
  ghost predicate Chained(g: Graph, a: FormId, b: FormId) {
    exists path: seq<FormId> :: IsChain(g, path) && path[0] == a && path[|path| - 1] == b
  }

  lemma ChainedSelf(g: Graph, a: FormId)
    ensures Chained(g, a, a)
  {
    assert IsChain(g, [a]);
  }

  lemma ChainedLink(g: Graph, a: FormId, b: FormId)
    requires Linked(g, a, b)
    ensures Chained(g, a, b)
  {
    assert IsChain(g, [a, b]);
  }

  lemma LinkedBack(g: Graph, a: FormId, b: FormId)
    requires Linked(g, a, b)
    ensures Linked(g, b, a)
  {
    if Direct(g, a, b) {
      var e :| e in g.edges && DirectEdge(g, e) && ((e.from == a && e.to == b) || (e.from == b && e.to == a));
      assert Direct(g, b, a);
    } else {
      var c :| ContextOf(g, c, a) && ContextOf(g, c, b) && Degree(g.contextDegree, c) <= g.hubDegree;
      assert Shared(g, b, a);
    }
  }

  lemma ChainedBack(g: Graph, a: FormId, b: FormId)
    requires Chained(g, a, b)
    ensures Chained(g, b, a)
  {
    hide Linked, IsForest, Root;
    var path :| IsChain(g, path) && path[0] == a && path[|path| - 1] == b;
    var n := |path|;
    var back := seq(n, i requires 0 <= i < n => path[n - 1 - i]);
    forall i | 0 <= i < n - 1 ensures Linked(g, back[i], back[i + 1]) {
      assert Linked(g, path[n - 2 - i], path[n - 2 - i + 1]);
      LinkedBack(g, path[n - 2 - i], path[n - 1 - i]);
    }
    assert IsChain(g, back);
  }

  lemma ChainedJoin(g: Graph, a: FormId, b: FormId, c: FormId)
    requires Chained(g, a, b) && Chained(g, b, c)
    ensures Chained(g, a, c)
  {
    hide Linked, IsForest, Root;
    var p :| IsChain(g, p) && p[0] == a && p[|p| - 1] == b;
    var q :| IsChain(g, q) && q[0] == b && q[|q| - 1] == c;
    var path := p + q[1..];
    forall i | 0 <= i < |path| - 1 ensures Linked(g, path[i], path[i + 1]) {
      if i + 1 < |p| {
        assert Linked(g, p[i], p[i + 1]);
      } else {
        var j := i - (|p| - 1);
        assert path[i] == q[j] && path[i + 1] == q[j + 1];
        assert Linked(g, q[j], q[j + 1]);
      }
    }
    assert IsChain(g, path);
  }

  // ------------------------------------------------------------------- the clustering

  /** Every record is chained to its root. */
  ghost predicate Justified(g: Graph, parent: map<FormId, FormId>) {
    && IsForest(parent) && parent.Keys == g.universe
    && forall x {:trigger Root(parent, x)} | x in g.universe :: Root(parent, x) in g.universe && Chained(g, x, Root(parent, x))
  }

  ghost predicate Together(parent: map<FormId, FormId>, a: FormId, b: FormId) {
    a in parent && b in parent && Root(parent, a) == Root(parent, b)
  }

  /** Whoever was together stays together. */
  ghost predicate Coarser(before: map<FormId, FormId>, after: map<FormId, FormId>) {
    before.Keys == after.Keys
    && forall x, y {:trigger Root(after, x), Root(after, y)} ::
         Root(before, x) == Root(before, y) ==> Root(after, x) == Root(after, y)
  }

  lemma JoinedIsCoarser(before: map<FormId, FormId>, after: map<FormId, FormId>, a: FormId, b: FormId)
    requires JoinedAt(before, after, a, b) && a in before && b in before
    ensures Coarser(before, after) && Together(after, a, b)
  {
    hide Root, Joined;
    var ra, rb := Root(before, a), Root(before, b);
    JoinedCases(ra, rb, ra);
    JoinedCases(ra, rb, rb);
  }

  lemma JoinedIsJustified(g: Graph, before: map<FormId, FormId>, after: map<FormId, FormId>, a: FormId, b: FormId)
    requires Justified(g, before) && a in g.universe && b in g.universe && Chained(g, a, b)
    requires IsForest(after) && JoinedAt(before, after, a, b)
    ensures Justified(g, after)
  {
    hide Chained, Root, IsForest, Justified, JoinedAt;
    var ra, rb := Root(before, a), Root(before, b);
    RootIsChained(g, before, a);
    RootIsChained(g, before, b);
    ChainedBack(g, a, ra);
    ChainedJoin(g, ra, a, b);
    ChainedJoin(g, ra, b, rb);
    ChainedBack(g, ra, rb);
    JoinedRoot(before, after, a, b, a);
    JustifiedForest(g, before);
    forall x {:trigger Root(after, x)} | x in g.universe ensures Root(after, x) in g.universe && Chained(g, x, Root(after, x)) {
      RootIsChained(g, before, x);
      JoinedRoot(before, after, a, b, x);
      if Root(after, x) == ra {
        if Root(before, x) == rb {
          ChainedJoin(g, x, rb, ra);
        }
      } else if Root(after, x) == rb {
        if Root(before, x) == ra {
          ChainedJoin(g, x, ra, rb);
        }
      }
    }
    AllJustified(g, after);
  }

  lemma RootIsChained(g: Graph, parent: map<FormId, FormId>, x: FormId)
    requires Justified(g, parent) && x in g.universe
    ensures Root(parent, x) in g.universe && Chained(g, x, Root(parent, x))
  {
    hide Root, IsForest, Chained;
  }

  lemma JoinedRoot(before: map<FormId, FormId>, after: map<FormId, FormId>, a: FormId, b: FormId, x: FormId)
    requires JoinedAt(before, after, a, b)
    ensures after.Keys == before.Keys
    ensures var r, ra, rb := Root(before, x), Root(before, a), Root(before, b);
      Root(after, x) == r || (r == rb && Root(after, x) == ra) || (r == ra && Root(after, x) == rb)
  {
    hide Root, Joined;
    JoinedCases(Root(before, a), Root(before, b), Root(before, x));
  }

  lemma AllJustified(g: Graph, after: map<FormId, FormId>)
    requires IsForest(after) && after.Keys == g.universe
    requires forall x {:trigger Root(after, x)} | x in g.universe :: Root(after, x) in g.universe && Chained(g, x, Root(after, x))
    ensures Justified(g, after)
  {
    hide Root, IsForest, Chained;
  }

  ghost predicate EdgesTogether(g: Graph, edges: seq<Edge>, parent: map<FormId, FormId>) {
    forall e <- edges :: DirectEdge(g, e) ==> Together(parent, e.from, e.to)
  }

  ghost predicate ContextsTogether(g: Graph, contexts: set<FormId>, contextToU: map<FormId, set<FormId>>, parent: map<FormId, FormId>) {
    forall c <- contexts :: c in contextToU && (Degree(g.contextDegree, c) <= g.hubDegree ==> AllTogether(parent, contextToU[c]))
  }

  /** Phase one joins the ends of every edge between changed records that are no hubs;
      phase two joins the records around every context node that is no hub. */
  method Cluster(g: Graph) returns (dsu: DSU)
    ensures fresh(dsu) && Clustered(g, dsu.parent)
  {
    hide Chained, Root, IsForest, Gathered, EdgesTogether, ContextsTogether, Justified;
    dsu := new DSU(g.universe);
    AloneIsJustified(g, dsu.parent);
    JoinEdges(g, dsu);
    var contextToU := GatherContext(g);
    JoinContexts(g, dsu, contextToU);
    ClassesAreChains(g, dsu.parent, contextToU);
    JustifiedForest(g, dsu.parent);
  }

  lemma AloneIsJustified(g: Graph, parent: map<FormId, FormId>)
    requires IsForest(parent) && parent.Keys == g.universe && forall x :: Root(parent, x) == x
    ensures Justified(g, parent)
  {
    hide Root, IsForest, Chained;
    ChainedSelves(g);
  }

  lemma JustifiedForest(g: Graph, parent: map<FormId, FormId>)
    requires Justified(g, parent)
    ensures IsForest(parent) && parent.Keys == g.universe
  {
    hide Root, IsForest, Chained;
  }

  method JoinEdges(g: Graph, dsu: DSU)
    requires Justified(g, dsu.parent)
    modifies dsu
    ensures Justified(g, dsu.parent) && EdgesTogether(g, g.edges, dsu.parent)
  {
    hide Chained, Root, IsForest, Justified, JoinedAt, Together;
    for i := 0 to |g.edges|
      invariant Justified(g, dsu.parent) && EdgesTogether(g, g.edges[..i], dsu.parent)
    {
      var e := g.edges[i];
      assert g.edges[..i + 1] == g.edges[..i] + [e];
      if e.from in g.universe && e.to in g.universe {
        if Degree(g.fullDegree, e.from) <= g.hubDegree && Degree(g.fullDegree, e.to) <= g.hubDegree {
          EdgeIsChain(g, e);
          JustifiedForest(g, dsu.parent);
          ghost var before := dsu.parent;
          dsu.Union(e.from, e.to);
          JoinedIsJustified(g, before, dsu.parent, e.from, e.to);
          JoinedIsCoarser(before, dsu.parent, e.from, e.to);
          EdgesStayTogether(g, g.edges[..i], before, dsu.parent);
        }
      }
    }
    assert g.edges[..|g.edges|] == g.edges;
  }

  method JoinContexts(g: Graph, dsu: DSU, contextToU: map<FormId, set<FormId>>)
    requires Justified(g, dsu.parent) && EdgesTogether(g, g.edges, dsu.parent) && Gathered(g, g.edges, contextToU)
    modifies dsu
    ensures Justified(g, dsu.parent) && EdgesTogether(g, g.edges, dsu.parent)
    ensures ContextsTogether(g, contextToU.Keys, contextToU, dsu.parent)
  {
    hide Chained, Root, IsForest, Justified, AllTogether, EdgesTogether, Gathered, Coarser;
    var contexts := Ascending(contextToU.Keys);
    ghost var done: set<FormId> := {};
    for i := 0 to |contexts|
      invariant Justified(g, dsu.parent) && EdgesTogether(g, g.edges, dsu.parent)
      invariant ContextsTogether(g, done, contextToU, dsu.parent) && forall c :: c in done <==> c in contexts[..i]
    {
      var c := contexts[i];
      assert contexts[..i + 1] == contexts[..i] + [c];
      if Degree(g.contextDegree, c) <= g.hubDegree {
        ghost var before := dsu.parent;
        AroundIsChained(g, contextToU, c);
        JoinAround(g, dsu, contextToU[c]);
        EdgesStayTogether(g, g.edges, before, dsu.parent);
        ContextsStayTogether(g, done, contextToU, before, dsu.parent);
      }
      done := done + {c};
    }
    assert contexts[..|contexts|] == contexts;
    assert done == contextToU.Keys;
  }

  lemma EdgesStayTogether(g: Graph, edges: seq<Edge>, before: map<FormId, FormId>, after: map<FormId, FormId>)
    requires Coarser(before, after) && EdgesTogether(g, edges, before)
    ensures EdgesTogether(g, edges, after)
  {
    hide Root;
  }

  lemma ContextsStayTogether(g: Graph, contexts: set<FormId>, contextToU: map<FormId, set<FormId>>,
                             before: map<FormId, FormId>, after: map<FormId, FormId>)
    requires Coarser(before, after) && ContextsTogether(g, contexts, contextToU, before)
    ensures ContextsTogether(g, contexts, contextToU, after)
  {
    hide Root, AllTogether, Coarser;
    forall c <- contexts | Degree(g.contextDegree, c) <= g.hubDegree ensures AllTogether(after, contextToU[c]) {
      AllStayTogether(before, after, contextToU[c]);
    }
  }

  lemma AllStayTogether(before: map<FormId, FormId>, after: map<FormId, FormId>, around: set<FormId>)
    requires Coarser(before, after) && AllTogether(before, around)
    ensures AllTogether(after, around)
  {
    hide Root;
    forall a <- around, b <- around ensures Together(after, a, b) {
      assert Together(before, a, b);
    }
  }

  lemma ChainedSelves(g: Graph)
    ensures forall x <- g.universe :: Chained(g, x, x)
  {
    hide Chained, IsForest, Root;
    forall x <- g.universe ensures Chained(g, x, x) {
      ChainedSelf(g, x);
    }
  }

  lemma EdgeIsChain(g: Graph, e: Edge)
    requires e in g.edges && DirectEdge(g, e)
    ensures Chained(g, e.from, e.to)
  {
    assert Direct(g, e.from, e.to);
    ChainedLink(g, e.from, e.to);
  }

  ghost predicate AllTogether(parent: map<FormId, FormId>, around: set<FormId>) {
    forall a <- around, b <- around :: Together(parent, a, b)
  }

  /** For every context node, the changed records it shares an edge with. */
  ghost predicate Gathered(g: Graph, edges: seq<Edge>, contextToU: map<FormId, set<FormId>>) {
    && (forall c <- contextToU, a :: a in contextToU[c] <==> exists e <- edges :: Touches(g, e, c, a))
    && (forall e <- edges, c, a :: Touches(g, e, c, a) ==> c in contextToU)
  }

  method GatherContext(g: Graph) returns (contextToU: map<FormId, set<FormId>>)
    ensures Gathered(g, g.edges, contextToU)
  {
    contextToU := map[];
    for i := 0 to |g.edges|
      invariant Gathered(g, g.edges[..i], contextToU)
    {
      var e := g.edges[i];
      ghost var before := contextToU;
      if e.from in g.universe && e.to !in g.universe {
        contextToU := contextToU[e.to := Around(contextToU, e.to) + {e.from}];
      } else if e.to in g.universe && e.from !in g.universe {
        contextToU := contextToU[e.from := Around(contextToU, e.from) + {e.to}];
      }
      GatherStep(g, i, before, contextToU);
    }
    assert g.edges[..|g.edges|] == g.edges;
  }

  function Around(contextToU: map<FormId, set<FormId>>, c: FormId): set<FormId> {
    if c in contextToU then contextToU[c] else {}
  }

  lemma GatherStep(g: Graph, i: nat, before: map<FormId, set<FormId>>, after: map<FormId, set<FormId>>)
    requires i < |g.edges| && Gathered(g, g.edges[..i], before)
    requires var e := g.edges[i];
      after == if e.from in g.universe && e.to !in g.universe
               then before[e.to := Around(before, e.to) + {e.from}]
               else if e.to in g.universe && e.from !in g.universe
               then before[e.from := Around(before, e.from) + {e.to}]
               else before
    ensures Gathered(g, g.edges[..i + 1], after)
  {
    var e := g.edges[i];
    assert g.edges[..i + 1] == g.edges[..i] + [e];
    forall c <- after, a ensures a in after[c] <==> exists e' <- g.edges[..i + 1] :: Touches(g, e', c, a) {
      if Touches(g, e, c, a) {
        assert e in g.edges[..i + 1];
      } else if exists e' <- g.edges[..i + 1] :: Touches(g, e', c, a) {
        var e' :| e' in g.edges[..i + 1] && Touches(g, e', c, a);
        assert e' in g.edges[..i];
      }
      if c in before && a in before[c] {
        var e' :| e' in g.edges[..i] && Touches(g, e', c, a);
        assert e' in g.edges[..i + 1];
      }
    }
  }

  ghost predicate IsRootOf(parent: map<FormId, FormId>, around: set<FormId>, r: FormId) {
    exists n <- around :: Root(parent, n) == r
  }

  /** Joins the classes of all records around one context node. */
  method JoinAround(g: Graph, dsu: DSU, around: set<FormId>)
    requires Justified(g, dsu.parent) && around <= g.universe
    requires forall a <- around, b <- around :: Chained(g, a, b)
    modifies dsu
    ensures Justified(g, dsu.parent) && Coarser(old(dsu.parent), dsu.parent) && AllTogether(dsu.parent, around)
  {
    hide Chained, Root, IsForest, Justified, Coarser, JoinedAt, IsRootOf, SameRoots, AllTogether, Together;
    ghost var first := dsu.parent;
    var found := RootsOf(g, dsu, around);
    ghost var before := dsu.parent;
    SameIsCoarser(first, before);
    CoarserSelf(before);
    var roots := Ascending(found);
    RootsAreRoots(g, before, around, roots);
    if |roots| > 0 {
      TogetherSelf(before, roots[0]);
      for i := 1 to |roots|
        invariant Justified(g, dsu.parent) && Coarser(before, dsu.parent)
        invariant forall j | 0 <= j < i :: Together(dsu.parent, roots[0], roots[j])
      {
        RootsAreChained(g, before, around, roots[0], roots[i]);
        ghost var mid := dsu.parent;
        JustifiedForest(g, mid);
        dsu.Union(roots[0], roots[i]);
        JoinedIsJustified(g, mid, dsu.parent, roots[0], roots[i]);
        JoinedIsCoarser(mid, dsu.parent, roots[0], roots[i]);
        CoarserJoin(before, mid, dsu.parent);
        forall j | 0 <= j < i ensures Together(dsu.parent, roots[0], roots[j]) {
          StayTogether(mid, dsu.parent, roots[0], roots[j]);
        }
      }
    }
    CoarserJoin(first, before, dsu.parent);
    RootsTogether(g, before, dsu.parent, around, roots);
  }

  lemma SameIsCoarser(p: map<FormId, FormId>, q: map<FormId, FormId>)
    requires SameRoots(p, q)
    ensures Coarser(p, q)
  {
    hide Root;
  }

  lemma CoarserSelf(p: map<FormId, FormId>)
    ensures Coarser(p, p)
  {
    hide Root;
  }

  lemma CoarserJoin(p: map<FormId, FormId>, q: map<FormId, FormId>, r: map<FormId, FormId>)
    requires Coarser(p, q) && Coarser(q, r)
    ensures Coarser(p, r)
  {
    hide Root;
    forall x, y | Root(p, x) == Root(p, y) ensures Root(r, x) == Root(r, y) {
      assert Root(q, x) == Root(q, y);
    }
  }

  lemma TogetherSelf(p: map<FormId, FormId>, x: FormId)
    requires x in p
    ensures Together(p, x, x)
  {}

  lemma StayTogether(before: map<FormId, FormId>, after: map<FormId, FormId>, a: FormId, b: FormId)
    requires Coarser(before, after) && Together(before, a, b)
    ensures Together(after, a, b)
  {
    hide Root;
  }

  method RootsOf(g: Graph, dsu: DSU, around: set<FormId>) returns (found: set<FormId>)
    requires Justified(g, dsu.parent) && around <= g.universe
    modifies dsu
    ensures SameRoots(old(dsu.parent), dsu.parent) && Justified(g, dsu.parent)
    ensures forall r :: r in found <==> IsRootOf(dsu.parent, around, r)
  {
    hide Chained, Root, IsForest, Justified, IsRootOf, SameRoots, Flattened;
    ghost var first := dsu.parent;
    found := {};
    var rest := around;
    SameRootsSelf(first);
    NoRoots(first, around - rest);
    while rest != {}
      invariant rest <= around && SameRoots(first, dsu.parent) && Justified(g, dsu.parent)
      invariant forall r :: r in found <==> IsRootOf(dsu.parent, around - rest, r)
      decreases rest
    {
      var n :| n in rest;
      ghost var before := dsu.parent;
      JustifiedForest(g, before);
      var r := dsu.Find(n);
      FoundMore(g, first, before, dsu.parent, around, rest, n, found);
      found := found + {r};
      rest := rest - {n};
    }
    assert around - {} == around;
  }

  lemma FoundMore(g: Graph, first: map<FormId, FormId>, before: map<FormId, FormId>, after: map<FormId, FormId>,
                  around: set<FormId>, rest: set<FormId>, n: FormId, found: set<FormId>)
    requires SameRoots(first, before) && SameRoots(before, after) && Justified(g, before) && IsForest(after)
    requires n in rest && rest <= around
    requires forall r :: r in found <==> IsRootOf(before, around - rest, r)
    ensures SameRoots(first, after) && Justified(g, after)
    ensures forall r :: r in found + {Root(before, n)} <==> IsRootOf(after, around - (rest - {n}), r)
  {
    hide Chained, Root, IsForest, Justified, IsRootOf, SameRoots;
    SameRootsJoin(first, before, after);
    SameIsJustified(g, before, after);
    MoreRoots(before, after, around - rest, n, found);
    assert around - (rest - {n}) == (around - rest) + {n};
  }

  lemma NoRoots(parent: map<FormId, FormId>, none: set<FormId>)
    requires none == {}
    ensures forall r :: !IsRootOf(parent, none, r)
  {}

  lemma SameIsJustified(g: Graph, before: map<FormId, FormId>, after: map<FormId, FormId>)
    requires Justified(g, before) && SameRoots(before, after) && IsForest(after)
    ensures Justified(g, after)
  {
    hide Chained, Root, IsForest;
    forall x {:trigger Root(after, x)} | x in g.universe ensures Root(after, x) in g.universe && Chained(g, x, Root(after, x)) {
      RootIsChained(g, before, x);
    }
  }

  lemma MoreRoots(before: map<FormId, FormId>, after: map<FormId, FormId>, seen: set<FormId>, n: FormId, found: set<FormId>)
    requires SameRoots(before, after)
    requires forall r :: r in found <==> IsRootOf(before, seen, r)
    ensures forall r :: r in found + {Root(before, n)} <==> IsRootOf(after, seen + {n}, r)
  {
    hide Root;
    forall r ensures r in found + {Root(before, n)} <==> IsRootOf(after, seen + {n}, r) {
      if IsRootOf(before, seen, r) {
        var m :| m in seen && Root(before, m) == r;
        assert m in seen + {n} && Root(after, m) == r;
      }
      if r == Root(before, n) {
        assert n in seen + {n} && Root(after, n) == r;
      }
    }
  }

  lemma RootsAreRoots(g: Graph, parent: map<FormId, FormId>, around: set<FormId>, roots: seq<FormId>)
    requires Justified(g, parent) && around <= g.universe && forall r <- roots :: IsRootOf(parent, around, r)
    ensures forall r <- roots :: r in parent && r in g.universe && Root(parent, r) == r
  {
    hide Root, IsForest, Chained, Justified;
    JustifiedForest(g, parent);
    forall r <- roots ensures r in parent && r in g.universe && Root(parent, r) == r {
      var n :| n in around && Root(parent, n) == r;
      RootFacts(parent, n);
    }
  }

  lemma RootsAreChained(g: Graph, parent: map<FormId, FormId>, around: set<FormId>, r: FormId, q: FormId)
    requires Justified(g, parent) && around <= g.universe && forall a <- around, b <- around :: Chained(g, a, b)
    requires IsRootOf(parent, around, r) && IsRootOf(parent, around, q)
    ensures Chained(g, r, q)
  {
    hide Chained, Root, IsForest, Justified;
    var a :| a in around && Root(parent, a) == r;
    var b :| b in around && Root(parent, b) == q;
    RootIsChained(g, parent, a);
    RootIsChained(g, parent, b);
    ChainedBack(g, a, r);
    ChainedJoin(g, r, a, b);
    ChainedJoin(g, r, b, q);
  }

  lemma RootsTogether(g: Graph, before: map<FormId, FormId>, after: map<FormId, FormId>, around: set<FormId>, roots: seq<FormId>)
    requires Justified(g, before) && Coarser(before, after) && around <= g.universe
    requires forall r :: r in roots <==> IsRootOf(before, around, r)
    requires forall j | 0 <= j < |roots| :: Together(after, roots[0], roots[j])
    ensures AllTogether(after, around)
  {
    hide Root, IsForest, Justified, Coarser, Chained;
    JustifiedForest(g, before);
    forall a <- around, b <- around ensures Together(after, a, b) {
      RootInClass(before, after, around, roots, a);
      RootInClass(before, after, around, roots, b);
    }
  }

  lemma RootInClass(before: map<FormId, FormId>, after: map<FormId, FormId>, around: set<FormId>, roots: seq<FormId>, a: FormId)
    requires IsForest(before) && a in before && a in around && Coarser(before, after)
    requires forall r :: r in roots <==> IsRootOf(before, around, r)
    requires forall j | 0 <= j < |roots| :: Together(after, roots[0], roots[j])
    ensures |roots| > 0 && Together(after, roots[0], a)
  {
    hide Root, IsForest;
    RootFacts(before, a);
    var r := Root(before, a);
    assert IsRootOf(before, around, r);
    var i :| 0 <= i < |roots| && roots[i] == r;
    assert Root(after, a) == Root(after, r);
  }

  // --------------------------------------------------------------- classes are chains

  lemma LinkIsTogether(g: Graph, parent: map<FormId, FormId>, contextToU: map<FormId, set<FormId>>, a: FormId, b: FormId)
    requires Gathered(g, g.edges, contextToU) && Linked(g, a, b) && IsForest(parent)
    requires EdgesTogether(g, g.edges, parent) && ContextsTogether(g, contextToU.Keys, contextToU, parent)
    ensures Together(parent, a, b)
  {
    hide Root, IsForest;
    if Direct(g, a, b) {
      var e :| e in g.edges && DirectEdge(g, e) && ((e.from == a && e.to == b) || (e.from == b && e.to == a));
      assert Together(parent, e.from, e.to);
    } else {
      var c :| ContextOf(g, c, a) && ContextOf(g, c, b) && Degree(g.contextDegree, c) <= g.hubDegree;
      assert a in contextToU[c] && b in contextToU[c];
    }
  }

  lemma {:induction false} ChainIsTogether(g: Graph, parent: map<FormId, FormId>, contextToU: map<FormId, set<FormId>>, path: seq<FormId>)
    requires Gathered(g, g.edges, contextToU) && IsForest(parent) && IsChain(g, path) && path[0] in parent
    requires EdgesTogether(g, g.edges, parent) && ContextsTogether(g, contextToU.Keys, contextToU, parent)
    ensures Together(parent, path[0], path[|path| - 1])
  {
    hide Root, Linked, Gathered, EdgesTogether, ContextsTogether, IsForest;
    if |path| > 1 {
      var shorter := path[..|path| - 1];
      forall i | 0 <= i < |shorter| - 1 ensures Linked(g, shorter[i], shorter[i + 1]) {
        assert Linked(g, path[i], path[i + 1]);
      }
      ChainIsTogether(g, parent, contextToU, shorter);
      LinkIsTogether(g, parent, contextToU, path[|path| - 2], path[|path| - 1]);
    }
  }

  lemma ClassesAreChains(g: Graph, parent: map<FormId, FormId>, contextToU: map<FormId, set<FormId>>)
    requires Gathered(g, g.edges, contextToU) && Justified(g, parent)
    requires EdgesTogether(g, g.edges, parent) && ContextsTogether(g, contextToU.Keys, contextToU, parent)
    ensures forall a <- g.universe, b <- g.universe :: Together(parent, a, b) <==> Chained(g, a, b)
  {
    hide Root, Gathered, EdgesTogether, ContextsTogether, Linked, IsForest, Justified;
    JustifiedForest(g, parent);
    forall a <- g.universe, b <- g.universe ensures Together(parent, a, b) <==> Chained(g, a, b) {
      if Together(parent, a, b) {
        RootIsChained(g, parent, a);
        RootIsChained(g, parent, b);
        ChainedBack(g, b, Root(parent, b));
        ChainedJoin(g, a, Root(parent, a), b);
      }
      if Chained(g, a, b) {
        var path :| IsChain(g, path) && path[0] == a && path[|path| - 1] == b;
        ChainIsTogether(g, parent, contextToU, path);
      }
    }
  }

  /** Records around one context node that is no hub are chained. */
  lemma AroundIsChained(g: Graph, contextToU: map<FormId, set<FormId>>, c: FormId)
    requires Gathered(g, g.edges, contextToU) && c in contextToU && Degree(g.contextDegree, c) <= g.hubDegree
    ensures contextToU[c] <= g.universe && forall a <- contextToU[c], b <- contextToU[c] :: Chained(g, a, b)
  {
    hide Chained, IsForest, Root;
    forall a <- contextToU[c] ensures a in g.universe && ContextOf(g, c, a) {
      var e :| e in g.edges && Touches(g, e, c, a);
    }
    forall a <- contextToU[c], b <- contextToU[c] ensures Chained(g, a, b) {
      assert Shared(g, a, b);
      ChainedLink(g, a, b);
    }
  }

  // ---------------------------------------------------------------------- consequences

  /** What clustering ends with: a forest whose classes are the chains. */
  ghost predicate Clustered(g: Graph, parent: map<FormId, FormId>) {
    && IsForest(parent) && parent.Keys == g.universe
    && forall x <- g.universe, y <- g.universe :: Together(parent, x, y) <==> Chained(g, x, y)
  }

  /** The root of a record is the least record of its class, so neither the partition nor
      its roots depend on anything but which records are chained. */
  lemma RootIsLeast(g: Graph, parent: map<FormId, FormId>, a: FormId)
    requires Clustered(g, parent) && a in g.universe
    ensures Root(parent, a) in g.universe && Chained(g, a, Root(parent, a))
    ensures forall b <- g.universe :: Chained(g, a, b) ==> Root(parent, a) <= b
  {
    hide Chained, Root, IsForest;
    var r := Root(parent, a);
    RootFacts(parent, a);
    assert Together(parent, a, r);
    forall b <- g.universe | Chained(g, a, b) ensures r <= b {
      assert Together(parent, a, b);
      RootFacts(parent, b);
    }
  }

  /** Neither the order of the edges nor how often one is listed matters. */
  lemma OrderDoesNotMatter(g: Graph, h: Graph, p: map<FormId, FormId>, q: map<FormId, FormId>, a: FormId)
    requires h == g.(edges := h.edges) && (forall e :: e in g.edges <==> e in h.edges) && a in g.universe
    requires Clustered(g, p) && Clustered(h, q)
    ensures Root(p, a) == Root(q, a)
  {
    hide Chained, Root, Clustered;
    RootIsLeast(g, p, a);
    RootIsLeast(h, q, a);
    SameChains(g, h, a, Root(p, a));
    SameChains(h, g, a, Root(q, a));
  }

  lemma SameChains(g: Graph, h: Graph, a: FormId, b: FormId)
    requires h == g.(edges := h.edges) && (forall e :: e in g.edges <==> e in h.edges) && Chained(g, a, b)
    ensures Chained(h, a, b)
  {
    hide Linked, IsForest, Root;
    var path :| IsChain(g, path) && path[0] == a && path[|path| - 1] == b;
    forall i | 0 <= i < |path| - 1 ensures Linked(h, path[i], path[i + 1]) {
      assert Linked(g, path[i], path[i + 1]);
      SameLink(g, h, path[i], path[i + 1]);
    }
    assert IsChain(h, path);
  }

  lemma SameLink(g: Graph, h: Graph, a: FormId, b: FormId)
    requires h == g.(edges := h.edges) && (forall e :: e in g.edges <==> e in h.edges) && Linked(g, a, b)
    ensures Linked(h, a, b)
  {
    if Direct(g, a, b) {
      var e :| e in g.edges && DirectEdge(g, e) && ((e.from == a && e.to == b) || (e.from == b && e.to == a));
      assert DirectEdge(h, e);
      assert Direct(h, a, b);
    } else {
      var c :| ContextOf(g, c, a) && ContextOf(g, c, b) && Degree(g.contextDegree, c) <= g.hubDegree;
      var e :| e in g.edges && Touches(g, e, c, a);
      var f :| f in g.edges && Touches(g, f, c, b);
      assert Touches(h, e, c, a) && Touches(h, f, c, b);
      assert ContextOf(h, c, a) && ContextOf(h, c, b);
      assert Shared(h, a, b);
    }
  }

  // ------------------------------------------------------------------------- components

  ghost predicate Inside(universe: set<FormId>, groups: seq<set<FormId>>) {
    forall i | 0 <= i < |groups| :: groups[i] != {} && groups[i] <= universe
  }

  ghost predicate InSome(groups: seq<set<FormId>>, x: FormId) {
    exists i | 0 <= i < |groups| :: x in groups[i]
  }

  ghost predicate Covers(universe: set<FormId>, groups: seq<set<FormId>>) {
    forall x <- universe :: InSome(groups, x)
  }

  ghost predicate Disjoint(groups: seq<set<FormId>>) {
    forall i, j | 0 <= i < j < |groups| :: groups[i] !! groups[j]
  }

  /** Every record is in exactly one group, and no group is empty. */
  ghost predicate IsPartition(universe: set<FormId>, groups: seq<set<FormId>>) {
    Inside(universe, groups) && Covers(universe, groups) && Disjoint(groups)
  }

  method BuildComponents(dsu: DSU) returns (groups: seq<set<FormId>>)
    requires IsForest(dsu.parent)
    modifies dsu
    ensures IsForest(dsu.parent) && SameRoots(old(dsu.parent), dsu.parent)
    ensures IsPartition(old(dsu.parent.Keys), groups) && AreClasses(old(dsu.parent), groups)
  {
    hide Root, IsForest, SameRoots, ByRoot, IsPartition, AreClasses;
    ghost var first := dsu.parent;
    var byRoot := GroupByRoot(dsu);
    var roots := Ascending(byRoot.Keys);
    groups := [];
    for i := 0 to |roots|
      invariant |groups| == i && forall j | 0 <= j < i :: groups[j] == byRoot[roots[j]]
    {
      groups := groups + [byRoot[roots[i]]];
    }
    GroupsPartition(first, byRoot, roots, groups);
    GroupsAreClasses(first, byRoot, roots, groups);
  }

  method GroupByRoot(dsu: DSU) returns (byRoot: map<FormId, set<FormId>>)
    requires IsForest(dsu.parent)
    modifies dsu
    ensures IsForest(dsu.parent) && SameRoots(old(dsu.parent), dsu.parent)
    ensures ByRoot(old(dsu.parent), old(dsu.parent.Keys), byRoot)
  {
    hide Root, IsForest, SameRoots, ByRoot, Around, Flattened;
    ghost var first := dsu.parent;
    byRoot := map[];
    var rest := dsu.parent.Keys;
    SameRootsSelf(first);
    NothingByRoot(first, first.Keys - rest);
    while rest != {}
      invariant IsForest(dsu.parent) && SameRoots(first, dsu.parent) && dsu.parent.Keys == first.Keys
      invariant rest <= first.Keys
      invariant ByRoot(first, first.Keys - rest, byRoot)
      decreases rest
    {
      var x :| x in rest;
      ghost var before := dsu.parent;
      var r := dsu.Find(x);
      GroupedMore(first, before, dsu.parent, rest, byRoot, x);
      byRoot := byRoot[r := Around(byRoot, r) + {x}];
      rest := rest - {x};
    }
    assert first.Keys - {} == first.Keys;
  }

  lemma GroupedMore(first: map<FormId, FormId>, before: map<FormId, FormId>, after: map<FormId, FormId>, rest: set<FormId>,
                    byRoot: map<FormId, set<FormId>>, x: FormId)
    requires SameRoots(first, before) && SameRoots(before, after) && x in rest && rest <= first.Keys
    requires ByRoot(first, first.Keys - rest, byRoot)
    ensures SameRoots(first, after) && after.Keys == first.Keys
    ensures var r := Root(before, x); ByRoot(first, first.Keys - (rest - {x}), byRoot[r := Around(byRoot, r) + {x}])
  {
    hide Root, SameRoots, ByRoot, Around;
    SameRootsOf(first, before, x);
    SameRootsJoin(first, before, after);
    SameKeys(first, after);
    ByRootStep(first, first.Keys - rest, byRoot, x);
    assert first.Keys - rest + {x} == first.Keys - (rest - {x});
  }

  lemma SameKeys(p: map<FormId, FormId>, q: map<FormId, FormId>)
    requires SameRoots(p, q)
    ensures p.Keys == q.Keys
  {}

  predicate InGroup(byRoot: map<FormId, set<FormId>>, r: FormId, x: FormId) {
    r in byRoot && x in byRoot[r]
  }

  ghost predicate ByRoot(parent: map<FormId, FormId>, seen: set<FormId>, byRoot: map<FormId, set<FormId>>) {
    && (forall r, x :: InGroup(byRoot, r, x) <==> x in seen && Root(parent, x) == r)
    && (forall r <- byRoot :: byRoot[r] != {})
  }

  lemma NothingByRoot(parent: map<FormId, FormId>, seen: set<FormId>)
    requires seen == {}
    ensures ByRoot(parent, seen, map[])
  {}

  lemma ByRootStep(parent: map<FormId, FormId>, seen: set<FormId>, byRoot: map<FormId, set<FormId>>, x: FormId)
    requires ByRoot(parent, seen, byRoot)
    ensures var r := Root(parent, x); ByRoot(parent, seen + {x}, byRoot[r := Around(byRoot, r) + {x}])
  {
    hide Root;
    var r := Root(parent, x);
    var after := byRoot[r := Around(byRoot, r) + {x}];
    forall q, y ensures InGroup(after, q, y) <==> y in seen + {x} && Root(parent, y) == q {
      assert InGroup(byRoot, q, y) <==> y in seen && Root(parent, y) == q;
    }
  }

  /** Two records are in one group exactly when they have one root. */
  ghost predicate AreClasses(parent: map<FormId, FormId>, groups: seq<set<FormId>>) {
    forall i, a, b | 0 <= i < |groups| && a in groups[i] && b in parent :: b in groups[i] <==> Together(parent, a, b)
  }

  lemma GroupsPartition(parent: map<FormId, FormId>, byRoot: map<FormId, set<FormId>>, roots: seq<FormId>, groups: seq<set<FormId>>)
    requires ByRoot(parent, parent.Keys, byRoot) && StrictKeys(roots) && (forall r :: r in roots <==> r in byRoot)
    requires |groups| == |roots| && forall j | 0 <= j < |groups| :: groups[j] == byRoot[roots[j]]
    ensures IsPartition(parent.Keys, groups)
  {
    hide Root;
    forall i | 0 <= i < |groups| ensures groups[i] != {} && groups[i] <= parent.Keys {
      assert roots[i] in roots;
      forall x <- groups[i] ensures x in parent.Keys {
        assert InGroup(byRoot, roots[i], x);
      }
    }
    GroupsCover(parent, byRoot, roots, groups);
    forall i, j | 0 <= i < j < |groups| ensures groups[i] !! groups[j] {
      GroupsApart(parent, byRoot, roots[i], roots[j]);
    }
  }

  lemma GroupsCover(parent: map<FormId, FormId>, byRoot: map<FormId, set<FormId>>, roots: seq<FormId>, groups: seq<set<FormId>>)
    requires ByRoot(parent, parent.Keys, byRoot) && (forall r :: r in roots <==> r in byRoot)
    requires |groups| == |roots| && forall j | 0 <= j < |groups| :: groups[j] == byRoot[roots[j]]
    ensures Covers(parent.Keys, groups)
  {
    hide Root;
    forall x <- parent.Keys ensures InSome(groups, x) {
      assert InGroup(byRoot, Root(parent, x), x);
      var i :| 0 <= i < |roots| && roots[i] == Root(parent, x);
      assert x in groups[i];
    }
  }

  lemma GroupsApart(parent: map<FormId, FormId>, byRoot: map<FormId, set<FormId>>, r: FormId, q: FormId)
    requires ByRoot(parent, parent.Keys, byRoot) && r in byRoot && q in byRoot && r != q
    ensures byRoot[r] !! byRoot[q]
  {
    hide Root;
    forall x <- byRoot[r] ensures x !in byRoot[q] {
      assert InGroup(byRoot, r, x);
      assert InGroup(byRoot, q, x) <==> x in byRoot[q];
    }
  }

  lemma GroupsAreClasses(parent: map<FormId, FormId>, byRoot: map<FormId, set<FormId>>, roots: seq<FormId>, groups: seq<set<FormId>>)
    requires ByRoot(parent, parent.Keys, byRoot) && (forall r :: r in roots <==> r in byRoot)
    requires |groups| == |roots| && forall j | 0 <= j < |groups| :: groups[j] == byRoot[roots[j]]
    ensures AreClasses(parent, groups)
  {
    hide Root;
    forall i, a, b | 0 <= i < |groups| && a in groups[i] && b in parent
      ensures b in groups[i] <==> Together(parent, a, b)
    {
      assert InGroup(byRoot, roots[i], a);
      assert InGroup(byRoot, roots[i], b) <==> b in groups[i];
    }
  }
}
