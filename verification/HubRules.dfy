/** Which records clustering joins, read off the edges and the two degree maps alone. */
module HubRules {
  import opened UnionFind

  /** Not so connected that the node must not join anything; unlisted nodes are not. */
  ghost predicate NoHub(degrees: map<FormId, nat>, limit: nat, x: FormId) {
    x in degrees ==> degrees[x] <= limit
  }

  ghost predicate Between(e: Edge, a: FormId, b: FormId) {
    (e.from == a && e.to == b) || (e.from == b && e.to == a)
  }

  /** An edge between two records, neither a hub, puts them together. */
  lemma EdgeJoins(g: Graph, parent: map<FormId, FormId>, e: Edge)
    requires Clustered(g, parent) && e in g.edges && e.from in g.universe && e.to in g.universe
    requires NoHub(g.fullDegree, g.hubDegree, e.from) && NoHub(g.fullDegree, g.hubDegree, e.to)
    ensures Root(parent, e.from) == Root(parent, e.to)
  {
    hide Root, IsForest, Chained;
    EdgeIsChain(g, e);
  }

  lemma ContextLinks(g: Graph, c: FormId, a: FormId, b: FormId, e: Edge, f: Edge)
    requires a in g.universe && b in g.universe && c !in g.universe
    requires e in g.edges && f in g.edges && Between(e, a, c) && Between(f, b, c)
    requires NoHub(g.contextDegree, g.hubDegree, c)
    ensures Linked(g, a, b)
  {
    assert Touches(g, e, c, a) && Touches(g, f, c, b);
    assert ContextOf(g, c, a) && ContextOf(g, c, b);
    assert Shared(g, a, b);
  }

  /** So does a node outside, if it is no hub and has an edge with either. */
  lemma ContextJoins(g: Graph, parent: map<FormId, FormId>, c: FormId, a: FormId, b: FormId, e: Edge, f: Edge)
    requires Clustered(g, parent) && a in g.universe && b in g.universe && c !in g.universe
    requires e in g.edges && f in g.edges && Between(e, a, c) && Between(f, b, c)
    requires NoHub(g.contextDegree, g.hubDegree, c)
    ensures Root(parent, a) == Root(parent, b)
  {
    hide Root, IsForest, Chained, Linked;
    ContextLinks(g, c, a, b, e, f);
    ChainedLink(g, a, b);
  }

  /** No edge that joins leads out of `s`. */
  ghost predicate EdgesStay(g: Graph, s: set<FormId>) {
    forall e, a, b {:trigger Between(e, a, b)} | e in g.edges && Between(e, a, b) && a in g.universe && b in g.universe
        && NoHub(g.fullDegree, g.hubDegree, a) && NoHub(g.fullDegree, g.hubDegree, b) ::
      a in s ==> b in s
  }

  /** Nor does a node outside that joins. */
  ghost predicate ContextsStay(g: Graph, s: set<FormId>) {
    forall e, f, a, b, c {:trigger Between(e, a, c), Between(f, b, c)}
      | e in g.edges && f in g.edges && Between(e, a, c) && Between(f, b, c) && a in g.universe && b in g.universe
        && c !in g.universe && NoHub(g.contextDegree, g.hubDegree, c) ::
      a in s ==> b in s
  }

  lemma LinkStaysInside(g: Graph, s: set<FormId>, a: FormId, b: FormId)
    requires EdgesStay(g, s) && ContextsStay(g, s) && Linked(g, a, b) && a in s
    ensures b in s
  {
    hide EdgesStay, ContextsStay;
    if Direct(g, a, b) {
      DirectStaysInside(g, s, a, b);
    } else {
      SharedStaysInside(g, s, a, b);
    }
  }

  lemma DirectStaysInside(g: Graph, s: set<FormId>, a: FormId, b: FormId)
    requires EdgesStay(g, s) && Direct(g, a, b) && a in s
    ensures b in s
  {
    var e :| e in g.edges && DirectEdge(g, e) && ((e.from == a && e.to == b) || (e.from == b && e.to == a));
    assert Between(e, a, b);
  }

  lemma SharedStaysInside(g: Graph, s: set<FormId>, a: FormId, b: FormId)
    requires ContextsStay(g, s) && Shared(g, a, b) && a in s
    ensures b in s
  {
    hide ContextsStay;
    var c :| ContextOf(g, c, a) && ContextOf(g, c, b) && Degree(g.contextDegree, c) <= g.hubDegree;
    var e :| e in g.edges && Touches(g, e, c, a);
    var f :| f in g.edges && Touches(g, f, c, b);
    ContextStaysInside(g, s, a, b, c, e, f);
  }

  lemma ContextStaysInside(g: Graph, s: set<FormId>, a: FormId, b: FormId, c: FormId, e: Edge, f: Edge)
    requires ContextsStay(g, s) && a in s && NoHub(g.contextDegree, g.hubDegree, c)
    requires e in g.edges && f in g.edges && Touches(g, e, c, a) && Touches(g, f, c, b)
    ensures b in s
  {
    assert Between(e, a, c) && Between(f, b, c);
  }

  lemma {:induction false} ChainStaysInside(g: Graph, s: set<FormId>, path: seq<FormId>)
    requires EdgesStay(g, s) && ContextsStay(g, s) && IsChain(g, path) && path[0] in s
    ensures path[|path| - 1] in s
  {
    hide Linked, EdgesStay, ContextsStay;
    if |path| > 1 {
      assert Linked(g, path[0], path[1]);
      LinkStaysInside(g, s, path[0], path[1]);
      forall i | 0 <= i < |path| - 2 ensures Linked(g, path[1..][i], path[1..][i + 1]) {
        assert Linked(g, path[i + 1], path[i + 2]);
      }
      ChainStaysInside(g, s, path[1..]);
    }
  }

  lemma ChainedStaysInside(g: Graph, s: set<FormId>, a: FormId, b: FormId)
    requires EdgesStay(g, s) && ContextsStay(g, s) && Chained(g, a, b) && a in s
    ensures b in s
  {
    hide Linked, EdgesStay, ContextsStay;
    var path :| IsChain(g, path) && path[0] == a && path[|path| - 1] == b;
    ChainStaysInside(g, s, path);
  }

  /** And nothing else joins records: whatever set the two rules do not lead out of, no
      class leads out of. */
  lemma ClassesAreLeast(g: Graph, parent: map<FormId, FormId>, s: set<FormId>, a: FormId, b: FormId)
    requires Clustered(g, parent) && EdgesStay(g, s) && ContextsStay(g, s) && a in g.universe && b in g.universe
    requires a in s && Root(parent, a) == Root(parent, b)
    ensures b in s
  {
    hide Root, Chained, IsForest, EdgesStay, ContextsStay;
    assert Together(parent, a, b);
    ChainedStaysInside(g, s, a, b);
  }

  // --------------------------------------------------------------------------- hubs

  lemma SameLinksChained(g: Graph, h: Graph, a: FormId, b: FormId)
    requires (forall x, y :: Linked(g, x, y) <==> Linked(h, x, y)) && Chained(g, a, b)
    ensures Chained(h, a, b)
  {
    hide Linked;
    var path :| IsChain(g, path) && path[0] == a && path[|path| - 1] == b;
    assert IsChain(h, path);
  }

  lemma SameLinksSameRoot(g: Graph, h: Graph, p: map<FormId, FormId>, q: map<FormId, FormId>, a: FormId)
    requires g.universe == h.universe && (forall x, y :: Linked(g, x, y) <==> Linked(h, x, y))
    requires Clustered(g, p) && Clustered(h, q) && a in g.universe
    ensures Root(p, a) == Root(q, a)
  {
    hide Root, Chained, Clustered;
    RootIsLeast(g, p, a);
    RootIsLeast(h, q, a);
    SameLinksChained(g, h, a, Root(p, a));
    SameLinksChained(h, g, a, Root(q, a));
  }

  /** A hub outside joins nobody: without any of its edges, everyone has the same root. */
  lemma HubContextIsIgnored(g: Graph, h: Graph, c: FormId, p: map<FormId, FormId>, q: map<FormId, FormId>, a: FormId)
    requires c !in g.universe && c in g.contextDegree && g.contextDegree[c] > g.hubDegree
    requires h == g.(edges := h.edges) && (forall e :: e in h.edges <==> e in g.edges && e.from != c && e.to != c)
    requires Clustered(g, p) && Clustered(h, q) && a in g.universe
    ensures Root(p, a) == Root(q, a)
  {
    hide Root, Clustered;
    forall x, y ensures Linked(g, x, y) <==> Linked(h, x, y) {
      WithoutHubContext(g, h, c, x, y);
    }
    SameLinksSameRoot(g, h, p, q, a);
  }

  lemma WithoutHubContext(g: Graph, h: Graph, c: FormId, a: FormId, b: FormId)
    requires c !in g.universe && c in g.contextDegree && g.contextDegree[c] > g.hubDegree
    requires h == g.(edges := h.edges) && (forall e :: e in h.edges <==> e in g.edges && e.from != c && e.to != c)
    ensures Linked(g, a, b) <==> Linked(h, a, b)
  {
    assert forall e | DirectEdge(g, e) :: e in g.edges <==> e in h.edges;
    assert Direct(g, a, b) <==> Direct(h, a, b);
    forall d, x | d != c ensures ContextOf(g, d, x) <==> ContextOf(h, d, x) {
      assert forall e :: Touches(g, e, d, x) <==> Touches(h, e, d, x);
    }
    assert Shared(g, a, b) <==> Shared(h, a, b);
  }

  /** Nor does a record that is a hub join another record by an edge of its own. */
  lemma HubRecordIsIgnored(g: Graph, h: Graph, x: FormId, p: map<FormId, FormId>, q: map<FormId, FormId>, a: FormId)
    requires x in g.universe && x in g.fullDegree && g.fullDegree[x] > g.hubDegree
    requires h == g.(edges := h.edges)
    requires forall e :: e in h.edges <==> e in g.edges && !(e.from in g.universe && e.to in g.universe && (e.from == x || e.to == x))
    requires Clustered(g, p) && Clustered(h, q) && a in g.universe
    ensures Root(p, a) == Root(q, a)
  {
    hide Root, Clustered;
    forall b, c ensures Linked(g, b, c) <==> Linked(h, b, c) {
      WithoutHubRecord(g, h, x, b, c);
    }
    SameLinksSameRoot(g, h, p, q, a);
  }

  lemma WithoutHubRecord(g: Graph, h: Graph, x: FormId, a: FormId, b: FormId)
    requires x in g.universe && x in g.fullDegree && g.fullDegree[x] > g.hubDegree
    requires h == g.(edges := h.edges)
    requires forall e :: e in h.edges <==> e in g.edges && !(e.from in g.universe && e.to in g.universe && (e.from == x || e.to == x))
    ensures Linked(g, a, b) <==> Linked(h, a, b)
  {
    assert Direct(g, a, b) <==> Direct(h, a, b) by {
      assert forall e | DirectEdge(g, e) :: e in g.edges <==> e in h.edges;
    }
    forall c, y ensures ContextOf(g, c, y) <==> ContextOf(h, c, y) {
      assert forall e :: Touches(g, e, c, y) <==> Touches(h, e, c, y);
    }
    assert Shared(g, a, b) <==> Shared(h, a, b);
  }
}
