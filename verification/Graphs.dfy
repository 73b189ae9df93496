/** Directed graphs given as adjacency lists, reachability and strong components. */
module Graphs {

  type Adjacency = map<string, seq<string>>

  ghost predicate Arc(g: Adjacency, u: string, w: string) {
    u in g && w in g[u]
  }

  ghost predicate IsPath(g: Adjacency, p: seq<string>) {
    p != [] && forall i :: 0 <= i < |p| - 1 ==> Arc(g, p[i], p[i + 1])
  }

  ghost predicate PathFromTo(g: Adjacency, p: seq<string>, u: string, w: string) {
    IsPath(g, p) && p[0] == u && p[|p| - 1] == w
  }

  /** `w` can be reached from `u` in zero or more arcs. */
  ghost predicate Reach(g: Adjacency, u: string, w: string) {
    exists p :: PathFromTo(g, p, u, w)
  }

  ghost predicate Mutual(g: Adjacency, u: string, w: string) {
    Reach(g, u, w) && Reach(g, w, u)
  }

  /** A strongly connected component: mutually reachable and maximal. */
  ghost predicate IsComponent(g: Adjacency, c: set<string>) {
    && c != {}
    && (forall u, w :: u in c && w in c ==> Mutual(g, u, w))
    && (forall u, w :: u in c && Mutual(g, u, w) ==> w in c)
  }

  /** A cycle through at least one arc. */
  ghost predicate OnCycle(g: Adjacency, u: string) {
    exists w :: Arc(g, u, w) && Reach(g, w, u)
  }

  ghost predicate Acyclic(g: Adjacency) {
    forall u :: !OnCycle(g, u)
  }

  ghost predicate Closed(g: Adjacency, c: set<string>) {
    forall u, w :: u in c && Arc(g, u, w) ==> w in c
  }

  lemma ReachSelf(g: Adjacency, u: string)
    ensures Reach(g, u, u)
  {
    assert PathFromTo(g, [u], u, u);
  }

  lemma ReachArc(g: Adjacency, u: string, w: string)
    requires Arc(g, u, w)
    ensures Reach(g, u, w)
  {
    assert PathFromTo(g, [u, w], u, w);
  }

  lemma ReachTransitive(g: Adjacency, u: string, v: string, w: string)
    requires Reach(g, u, v) && Reach(g, v, w)
    ensures Reach(g, u, w)
  {
    var p :| PathFromTo(g, p, u, v);
    var q :| PathFromTo(g, q, v, w);
    var r := p + q[1..];
    forall i | 0 <= i < |r| - 1 ensures Arc(g, r[i], r[i + 1]) {
      if i >= |p| - 1 {
        assert r[i] == q[i - (|p| - 1)] && r[i + 1] == q[i + 1 - (|p| - 1)];
      }
    }
    assert PathFromTo(g, r, u, w);
  }

  lemma MutualTransitive(g: Adjacency, u: string, v: string, w: string)
    requires Mutual(g, u, v) && Mutual(g, v, w)
    ensures Mutual(g, u, w)
  {
    ReachTransitive(g, u, v, w);
    ReachTransitive(g, w, v, u);
  }

  /** Reachability never leaves a closed set. */
  lemma {:induction false} ReachStaysInside(g: Adjacency, c: set<string>, u: string, w: string)
    requires Closed(g, c) && u in c && Reach(g, u, w)
    ensures w in c
  {
    var p :| PathFromTo(g, p, u, w);
    var i := 0;
    while i < |p| - 1
      invariant 0 <= i < |p| && p[i] in c
    {
      assert Arc(g, p[i], p[i + 1]);
      i := i + 1;
    }
  }

  /** A path that goes somewhere else starts with an arc. */
  lemma ReachFirstArc(g: Adjacency, u: string, w: string) returns (x: string)
    requires Reach(g, u, w) && u != w
    ensures Arc(g, u, x) && Reach(g, x, w)
  {
    var p :| PathFromTo(g, p, u, w);
    x := p[1];
    assert Arc(g, p[0], p[1]);
    assert IsPath(g, p[1..]) by {
      forall i | 0 <= i < |p[1..]| - 1 ensures Arc(g, p[1..][i], p[1..][i + 1]) {
        assert Arc(g, p[i + 1], p[i + 2]);
      }
    }
    assert PathFromTo(g, p[1..], x, w);
  }

  ghost predicate SameArcs(g: Adjacency, h: Adjacency) {
    forall u, w :: Arc(g, u, w) <==> Arc(h, u, w)
  }

  lemma SameArcsSameReach(g: Adjacency, h: Adjacency)
    requires SameArcs(g, h)
    ensures forall u, w :: Reach(g, u, w) <==> Reach(h, u, w)
  {
    forall u, w ensures Reach(g, u, w) <==> Reach(h, u, w) {
      if Reach(g, u, w) {
        var p :| PathFromTo(g, p, u, w);
        assert PathFromTo(h, p, u, w);
      }
      if Reach(h, u, w) {
        var p :| PathFromTo(h, p, u, w);
        assert PathFromTo(g, p, u, w);
      }
    }
  }

  lemma SameArcsSameComponents(g: Adjacency, h: Adjacency, c: set<string>)
    requires SameArcs(g, h)
    ensures IsComponent(g, c) <==> IsComponent(h, c)
  {
    SameArcsSameReach(g, h);
    assert forall u, w :: Mutual(g, u, w) <==> Mutual(h, u, w);
  }
}
