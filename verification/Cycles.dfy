/** `detectCycles`: Tarjan's strong components of the digest graph and their severity. */
module Cycles {
  import opened Ordering
  import opened Graphs
  import opened Tarjan
  import opened TarjanCall

  /** The closure `sc` with the variables it captures as fields. */
  class CycleSearch {
    const adj: Adjacency
    var index: map<string, int>
    var lowlink: map<string, int>
    var onStack: map<string, bool>
    var stk: seq<string>
    var counter: int
    var sccs: seq<seq<string>>

    ghost function State(): Search
      reads this
    {
      Search(index, stk, counter, sccs)
    }

    /** The maps agree with each other and with the stack. */
    ghost predicate MapsAgree()
      reads this
    {
      && 0 <= counter
      && lowlink.Keys == index.Keys
      && (forall u :: (u in onStack && onStack[u]) <==> u in stk)
    }

    lemma KeysAgree()
      requires MapsAgree()
      ensures lowlink.Keys == index.Keys
    {
    }

    ghost predicate Valid(gray: set<string>)
      reads this
    {
      MapsAgree() && Counted() && Inv(adj, State(), gray)
    }

    /** As many numbers were given out as there are numbered nodes. */
    ghost predicate Counted()
      reads this`index, this`counter
    {
      counter == |index|
    }

    constructor (adj: Adjacency)
      ensures this.adj == adj
      ensures Valid({}) && index == map[] && sccs == []
    {
      this.adj := adj;
      index, lowlink, onStack, stk, counter, sccs := map[], map[], map[], [], 0, [];
    }

    /** The start of a call: number `v` and push it. */
    method Open(v: string)
      requires MapsAgree() && v !in index
      modifies this
      ensures State() == Push(old(State()), v) && MapsAgree()
      ensures old(Counted()) ==> Counted()
      ensures lowlink == old(lowlink)[v := old(counter)]
    {
      index := index[v := counter];
      lowlink := lowlink[v := counter];
      counter := counter + 1;
      stk := stk + [v];
      onStack := onStack[v := true];
    }

    /** The pop loop: everything above and including `v` leaves the stack, top first. */
    method PopThrough(v: string, ghost k: nat) returns (scc: seq<string>)
      requires StackOrdered(State()) && MapsAgree() && k < |stk| && stk[k] == v
      modifies this`stk, this`onStack
      ensures stk == old(stk)[..k] && MapsAgree()
      ensures multiset(scc) == multiset(old(stk)[k..])
    {
      scc := [];
      while true
        invariant k < |stk| <= |old(stk)| && stk == old(stk)[..|stk|]
        invariant multiset(scc) == multiset(old(stk)[|stk|..])
        invariant MapsAgree()
        decreases |stk|
      {
        var w := stk[|stk| - 1];
        PopTop(old(stk), |stk|);
        assert w !in stk[..|stk| - 1];
        stk := stk[..|stk| - 1];
        onStack := onStack[w := false];
        scc := scc + [w];
        if w == v {
          break;
        }
      }
    }

    /** The end of a call: pop and report the component when `v` is its root. */
    method Finish(v: string, ghost gray: set<string>, ghost s: Search)
      requires Valid(gray + {v}) && v !in gray && v in index && v in lowlink
      requires StackOrdered(s) && (forall y :: y in gray ==> y in s.stk)
      requires Exploring(adj, s, State(), v, |Successors(adj, v)|, lowlink[v])
      modifies this`stk, this`onStack, this`sccs
      ensures Valid(gray) && v in lowlink && CallResult(adj, s, State(), v, lowlink[v])
    {
      hide Exploring, CallResult, Grew, Root, Lists, Inv, StackOrdered, Counted;
      ghost var t := State();
      InvBasics(adj, t, gray + {v});
      if lowlink[v] == index[v] {
        EndsAsRoot(adj, s, t, gray, v, lowlink[v]);
        var scc := PopThrough(v, |s.stk|);
        if |scc| > 1 {
          StringLePreorder();
          var sorted := Sort(scc, StringLe);
          sccs := sccs + [sorted];
          FinishEmit(adj, s, t, gray, v, scc, sorted);
          assert State() == Emit(t, |s.stk|, sorted);
        } else {
          FinishEmit(adj, s, t, gray, v, scc, scc);
          assert State() == Emit(t, |s.stk|, scc);
        }
      } else {
        FinishRetire(adj, s, t, gray, v, lowlink[v]);
      }
    }

    /** One turn of the loop over the successors of `v`. */
    method Visit(v: string, i: nat, ghost gray: set<string>, ghost nodes: set<string>, ghost s: Search)
      requires Closed(adj, nodes) && v in nodes && index.Keys <= nodes
      requires Valid(gray + {v}) && v in index && v in lowlink && StackOrdered(s)
      requires forall y :: y in gray ==> Reach(adj, y, v)
      requires i < |Successors(adj, v)| && Exploring(adj, s, State(), v, i, lowlink[v])
      modifies this
      ensures Valid(gray + {v}) && old(index).Keys <= index.Keys <= nodes && v in lowlink
      ensures Exploring(adj, s, State(), v, i + 1, lowlink[v])
      ensures Kept(old(lowlink) - {v}, lowlink)
      decreases nodes - index.Keys, 2
    {
      hide Inv, Exploring, CallResult, Grew, Reach, StackOrdered, Closed, Counted;
      ghost var t := State();
      ghost var low := lowlink[v];
      var w := Successors(adj, v)[i];
      if w !in index {
        EnterSuccessor(adj, s, t, gray, nodes, v, i, low);
        StrongConnect(w, gray + {v}, nodes);
        LeaveSuccessor(adj, s, t, State(), gray, v, i, low, lowlink[w]);
        if lowlink[w] < lowlink[v] {
          lowlink := lowlink[v := lowlink[w]];
        }
      } else {
        SeenStep(adj, s, t, gray, v, i, low);
        if w in onStack && onStack[w] {
          if index[w] < lowlink[v] {
            lowlink := lowlink[v := index[w]];
          }
        }
      }
    }

    method StrongConnect(v: string, ghost gray: set<string>, ghost nodes: set<string>)
      requires Closed(adj, nodes) && v in nodes && index.Keys <= nodes
      requires Valid(gray) && v !in index
      requires forall y :: y in gray ==> Reach(adj, y, v)
      modifies this
      ensures Valid(gray) && index.Keys <= nodes
      ensures v in lowlink && CallResult(adj, old(State()), State(), v, lowlink[v])
      ensures Kept(old(lowlink), lowlink)
      decreases nodes - index.Keys, 1
    {
      hide Inv, Exploring, CallResult, Grew, Reach, StackOrdered, Closed, Counted, MapsAgree, Kept;
      ghost var s := State();
      InvBasics(adj, s, gray);
      KeysAgree();
      Open(v);
      PushKeepsInv(adj, s, gray, v);
      StartExploring(adj, s, v);
      KeptAdd(old(lowlink), v, old(counter));

      var i := 0;
      while i < |Successors(adj, v)|
        invariant 0 <= i <= |Successors(adj, v)|
        invariant Valid(gray + {v}) && index.Keys <= nodes && v in index && v in lowlink
        invariant s.index.Keys + {v} <= index.Keys
        invariant Exploring(adj, s, State(), v, i, lowlink[v])
        invariant Kept(old(lowlink), lowlink)
      {
        FewerLeft(nodes, s.index.Keys, index.Keys, v);
        ghost var lows := lowlink;
        Visit(v, i, gray, nodes, s);
        KeptStep(old(lowlink), lows, lowlink, v);
        i := i + 1;
      }
      Finish(v, gray, s);
    }

    /** The outer loop over the sorted nodes. Every node gets its number in exactly one call:
        afterwards the counter, raised once per call, equals the number of nodes. */
    method Run(nodeList: seq<string>)
      requires Closed(adj, Elements(nodeList)) && Valid({}) && index == map[]
      modifies this
      ensures Valid({}) && stk == []
      ensures index.Keys == Elements(nodeList) && counter == |Elements(nodeList)|
    {
      hide Inv, CallResult, Closed, MapsAgree, Counted;
      ghost var nodes := Elements(nodeList);
      for k := 0 to |nodeList|
        invariant Valid({}) && index.Keys <= nodes
        invariant forall j :: 0 <= j < k ==> nodeList[j] in index
      {
        if nodeList[k] !in index {
          ghost var before := State();
          StrongConnect(nodeList[k], {}, nodes);
          ResultGrows(adj, before, State(), nodeList[k], lowlink[nodeList[k]]);
        }
      }
      NothingLeft(adj, State());
      AllNumbered(nodeList);
    }

    lemma AllNumbered(nodeList: seq<string>)
      requires Counted() && index.Keys <= Elements(nodeList)
      requires forall j :: 0 <= j < |nodeList| ==> nodeList[j] in index
      ensures index.Keys == Elements(nodeList) && counter == |Elements(nodeList)|
    {
      assert index.Keys == Elements(nodeList);
      assert |index| == |index.Keys|;
    }
  }

  /** The entries of `m` are unchanged in `n`. */
  ghost predicate Kept(m: map<string, int>, n: map<string, int>) {
    forall u :: u in m ==> u in n && n[u] == m[u]
  }

  lemma KeptAdd(m: map<string, int>, v: string, low: int)
    requires v !in m
    ensures Kept(m, m[v := low])
  {
  }

  lemma KeptStep(m: map<string, int>, n: map<string, int>, r: map<string, int>, v: string)
    requires v !in m && Kept(m, n) && Kept(n - {v}, r)
    ensures Kept(m, r)
  {
    forall u | u in m ensures u in r && r[u] == m[u] {
      assert u in n - {v};
    }
  }

  lemma FewerLeft(nodes: set<string>, before: set<string>, after: set<string>, v: string)
    requires before + {v} <= after && v in nodes && v !in before
    ensures nodes - after < nodes - before
  {
    assert v in nodes - before && v !in nodes - after;
  }

  lemma ResultGrows(g: Adjacency, s: Search, t: Search, v: string, low: int)
    requires CallResult(g, s, t, v, low)
    ensures s.index.Keys <= t.index.Keys && v in t.index
  {
  }

  /** With no call active the stack is empty: a stacked node would need an active anchor. */
  lemma NothingLeft(g: Adjacency, s: Search)
    requires Inv(g, s, {})
    ensures s.stk == []
  {
    hide Accounted, ReachesAbove, FinishedExplored, PoppedClosed, Reach;
    var first := if s.stk == [] then "" else s.stk[0];
    assert first in s.stk ==> HasAnchor(g, s, {}, first);
  }

  lemma InvBasics(g: Adjacency, s: Search, gray: set<string>)
    requires Inv(g, s, gray)
    ensures StackOrdered(s) && (forall y :: y in gray ==> y in s.stk && y in s.index)
  {
    hide Accounted, Anchored, ReachesAbove, FinishedExplored, PoppedClosed;
    forall y | y in gray ensures y in s.index { var i :| 0 <= i < |s.stk| && s.stk[i] == y; }
  }

  lemma FinishEmit(g: Adjacency, s: Search, t: Search, gray: set<string>, v: string, scc: seq<string>, c: seq<string>)
    requires v in t.index && Exploring(g, s, t, v, |Successors(g, v)|, t.index[v]) && StackOrdered(s)
    requires |s.stk| < |t.stk| && Root(g, t, gray, |s.stk|)
    requires multiset(scc) == multiset(t.stk[|s.stk|..])
    requires multiset(c) == multiset(scc) && (|scc| > 1 ==> SortedBy(c, StringLe))
    ensures Inv(g, Emit(t, |s.stk|, c), gray) && CallResult(g, s, Emit(t, |s.stk|, c), v, t.index[v])
  {
    assert |multiset(scc)| == |scc| && |multiset(c)| == |c|;
    SplitStack(t, |s.stk|);
    PermutationKeeps(t.stk[|s.stk|..], c);
    assert Grew(Push(s, v), t);
    hide Root, Exploring, Inv, CallResult, Grew;
    EmitKeepsInv(g, t, gray, |s.stk|, c);
    EmitResult(g, s, t, v, c);
  }

  lemma FinishRetire(g: Adjacency, s: Search, t: Search, gray: set<string>, v: string, low: int)
    requires Inv(g, t, gray + {v}) && v !in gray && v in t.index && StackOrdered(s)
    requires Exploring(g, s, t, v, |Successors(g, v)|, low) && low != t.index[v]
    ensures Inv(g, t, gray) && CallResult(g, s, t, v, low)
  {
    assert StackOrdered(t);
    hide Exploring, CallResult, StackOrdered, Inv;
    RetireResult(g, s, t, v, low);
    var y := EndsPointingBack(g, s, t, v, low);
    RetireKeepsInv(g, t, gray, v, y);
  }

  lemma EnterSuccessor(g: Adjacency, s: Search, t: Search, gray: set<string>, nodes: set<string>, v: string, i: nat,
      low: int)
    requires Exploring(g, s, t, v, i, low) && i < |Successors(g, v)|
    requires Closed(g, nodes) && v in nodes
    requires forall y :: y in gray ==> Reach(g, y, v)
    ensures Successors(g, v)[i] in nodes
    ensures forall y :: y in gray + {v} ==> Reach(g, y, Successors(g, v)[i])
  {
    hide Reach, Exploring;
    var w := Successors(g, v)[i];
    assert Arc(g, v, w);
    ReachArc(g, v, w);
    forall y | y in gray ensures Reach(g, y, w) { ReachTransitive(g, y, v, w); }
  }

  lemma LeaveSuccessor(g: Adjacency, s: Search, t: Search, r: Search, gray: set<string>, v: string, i: nat, low: int,
      lowW: int)
    requires StackOrdered(s) && Inv(g, t, gray + {v}) && Exploring(g, s, t, v, i, low) && i < |Successors(g, v)|
    requires Successors(g, v)[i] !in t.index && CallResult(g, t, r, Successors(g, v)[i], lowW)
    ensures Exploring(g, s, r, v, i + 1, if lowW < low then lowW else low)
    ensures t.index.Keys <= r.index.Keys && Successors(g, v)[i] in r.index
  {
    assert StackOrdered(t);
    assert Grew(t, r);
    hide Exploring, Inv, StackOrdered;
    NestedSuccessor(g, s, t, r, v, i, low, lowW);
  }

  lemma SeenStep(g: Adjacency, s: Search, t: Search, gray: set<string>, v: string, i: nat, low: int)
    requires Inv(g, t, gray + {v}) && Exploring(g, s, t, v, i, low) && i < |Successors(g, v)|
    requires Successors(g, v)[i] in t.index
    ensures var w := Successors(g, v)[i];
      Exploring(g, s, t, v, i + 1, if w in t.stk && t.index[w] < low then t.index[w] else low)
  {
    var w := Successors(g, v)[i];
    assert StackOrdered(t);
    hide Exploring, Inv, StackOrdered;
    SeenSuccessor(g, s, t, v, i, low, if w in t.stk && t.index[w] < low then t.index[w] else low);
  }

  lemma PopTop(s: seq<string>, n: nat)
    requires 0 < n <= |s|
    ensures multiset(s[n - 1..]) == multiset(s[n..]) + multiset{s[n - 1]}
    ensures forall u :: u in s[..n] <==> u in s[..n - 1] || u == s[n - 1]
  {
    assert s[n - 1..] == [s[n - 1]] + s[n..];
    assert s[..n] == s[..n - 1] + [s[n - 1]];
  }

  datatype DigestEdge = DigestEdge(from: string, to: string, weight: nat)

  datatype Severity = High | Medium

  /** One "cycle" finding; `size` is the parameter "n". */
  datatype CycleFinding = CycleFinding(severity: Severity, size: nat, modules: seq<string>)

  function AddArc(g: Adjacency, e: DigestEdge): Adjacency {
    if e.from == e.to then g else g[e.from := Successors(g, e.from) + [e.to]]
  }

  /** The adjacency lists of an edge list, self-loops excluded. */
  function GraphOf(edges: seq<DigestEdge>): Adjacency {
    if edges == [] then map[] else AddArc(GraphOf(edges[..|edges| - 1]), edges[|edges| - 1])
  }

  /** The nodes of the self-loop-free graph. */
  ghost function Nodes(edges: seq<DigestEdge>): set<string> {
    (set i | 0 <= i < |edges| && edges[i].from != edges[i].to :: edges[i].from) +
    (set i | 0 <= i < |edges| && edges[i].from != edges[i].to :: edges[i].to)
  }

  ghost predicate Linked(edges: seq<DigestEdge>, u: string, w: string) {
    u != w && exists i :: 0 <= i < |edges| && edges[i].from == u && edges[i].to == w
  }

  /** The arcs of the graph are the linked pairs. */
  lemma {:induction false} GraphOfArcs(edges: seq<DigestEdge>, u: string, w: string)
    ensures Arc(GraphOf(edges), u, w) <==> Linked(edges, u, w)
  {
    if edges != [] {
      var n := |edges| - 1;
      GraphOfArcs(edges[..n], u, w);
      assert edges == edges[..n] + [edges[n]];
      assert Linked(edges, u, w) <==> Linked(edges[..n], u, w) || (u != w && edges[n].from == u && edges[n].to == w);
    }
  }

  lemma NodesClosed(edges: seq<DigestEdge>)
    ensures Closed(GraphOf(edges), Nodes(edges))
  {
    forall u, w | u in Nodes(edges) && Arc(GraphOf(edges), u, w) ensures w in Nodes(edges) {
      GraphOfArcs(edges, u, w);
    }
  }

  method BuildAdjacency(edges: seq<DigestEdge>) returns (adj: Adjacency, allNodes: set<string>)
    ensures adj == GraphOf(edges) && allNodes == Nodes(edges)
  {
    adj, allNodes := map[], {};
    for i := 0 to |edges|
      invariant adj == GraphOf(edges[..i]) && allNodes == Nodes(edges[..i])
    {
      var e := edges[i];
      NodesStep(edges, i);
      assert edges[..i + 1][..i] == edges[..i];
      if e.from != e.to {
        adj := adj[e.from := Successors(adj, e.from) + [e.to]];
        allNodes := allNodes + {e.from, e.to};
      }
    }
    assert edges[..|edges|] == edges;
  }

  lemma NodesStep(edges: seq<DigestEdge>, i: nat)
    requires i < |edges|
    ensures Nodes(edges[..i + 1]) == Nodes(edges[..i]) +
      (if edges[i].from != edges[i].to then {edges[i].from, edges[i].to} else {})
  {
    assert edges[..i + 1] == edges[..i] + [edges[i]];
    NodesConcat(edges[..i], edges[i]);
  }

  lemma NodesConcat(es: seq<DigestEdge>, e: DigestEdge)
    ensures Nodes(es + [e]) == Nodes(es) + (if e.from != e.to then {e.from, e.to} else {})
  {
    var a := es + [e];
    assert forall i :: 0 <= i < |es| ==> a[i] == es[i];
    assert a[|es|] == e;
    forall x | x in Nodes(es) ensures x in Nodes(a) {
      var i :| 0 <= i < |es| && es[i].from != es[i].to && (x == es[i].from || x == es[i].to);
      assert a[i] == es[i];
    }
    if e.from != e.to {
      assert a[|es|].from in Nodes(a) && a[|es|].to in Nodes(a);
    }
  }
}
