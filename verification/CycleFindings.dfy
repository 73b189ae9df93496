/** The findings of `detectCycles` and the `blocker.cycles` count that `Score` derives from them. */
module CycleFindings {
  import opened Ordering
  import opened Graphs
  import opened Tarjan
  import opened Cycles

  /** The lists are the components of size two or more: each one once, sorted, none missing. */
  ghost predicate ExactComponents(g: Adjacency, lists: seq<seq<string>>) {
    && (forall i :: 0 <= i < |lists| ==> Reported(g, lists[i]))
    && (forall i, j, u :: 0 <= i < j < |lists| && u in lists[i] ==> u !in lists[j])
    && (forall c :: IsComponent(g, c) && |c| >= 2 ==> exists i :: 0 <= i < |lists| && Elements(lists[i]) == c)
  }

  lemma ComponentsMeetEqual(g: Adjacency, c: set<string>, d: set<string>, u: string)
    requires IsComponent(g, c) && IsComponent(g, d) && u in c && u in d
    ensures c == d
  {
    hide Mutual;
    forall w ensures w in c <==> w in d {
      assert w in c ==> Mutual(g, u, w);
      assert w in d ==> Mutual(g, u, w);
    }
  }

  lemma TwoMembers(c: set<string>) returns (u: string, w: string)
    requires |c| >= 2
    ensures u in c && w in c && u != w
  {
    u :| u in c;
    assert |c - {u}| >= 1;
    w :| w in c - {u};
  }

  lemma MemberIsNode(edges: seq<DigestEdge>, u: string, w: string)
    requires Reach(GraphOf(edges), u, w) && u != w
    ensures u in Nodes(edges)
  {
    var x := ReachFirstArc(GraphOf(edges), u, w);
    GraphOfArcs(edges, u, x);
  }

  lemma FoundInSearch(edges: seq<DigestEdge>, s: Search, c: set<string>) returns (i: nat)
    requires Inv(GraphOf(edges), s, {}) && s.stk == [] && s.index.Keys == Nodes(edges)
    requires IsComponent(GraphOf(edges), c) && |c| >= 2
    ensures i < |s.sccs| && Elements(s.sccs[i]) == c
  {
    hide Reach, StackOrdered, Anchored, ReachesAbove, FinishedExplored, PoppedClosed, Nodes, GraphOf;
    var g := GraphOf(edges);
    var u, w := TwoMembers(c);
    assert Mutual(g, u, w);
    MemberIsNode(edges, u, w);
    assert Popped(s, u) && !Alone(g, u);
    i :| 0 <= i < |s.sccs| && u in s.sccs[i];
    assert Reported(g, s.sccs[i]);
    assert u in Elements(s.sccs[i]);
    ComponentsMeetEqual(g, Elements(s.sccs[i]), c, u);
  }

  lemma SearchIsExact(edges: seq<DigestEdge>, s: Search)
    requires Inv(GraphOf(edges), s, {}) && s.stk == [] && s.index.Keys == Nodes(edges)
    ensures ExactComponents(GraphOf(edges), s.sccs)
  {
    assert Accounted(GraphOf(edges), s);
    hide IsComponent, Inv, Nodes, GraphOf, Reported, Alone, Popped;
    forall c | IsComponent(GraphOf(edges), c) && |c| >= 2
      ensures exists i :: 0 <= i < |s.sccs| && Elements(s.sccs[i]) == c
    {
      var i := FoundInSearch(edges, s, c);
    }
  }

  ghost predicate TouchesDomain(modules: seq<string>, domain: set<string>) {
    exists m :: m in modules && m in domain
  }

  ghost predicate FindingOf(f: CycleFinding, c: seq<string>, domain: set<string>) {
    && f.modules == c
    && f.size == |c|
    && f.severity == if |c| >= 3 || TouchesDomain(c, domain) then High else Medium
  }

  function Modules(findings: seq<CycleFinding>): seq<seq<string>> {
    seq(|findings|, i requires 0 <= i < |findings| => findings[i].modules)
  }

  /** The severity loop for one component. */
  method MakeFinding(c: seq<string>, domain: set<string>) returns (f: CycleFinding)
    ensures FindingOf(f, c, domain)
  {
    var hasDomain := false;
    var i := 0;
    while i < |c|
      invariant 0 <= i <= |c| && !hasDomain
      invariant forall j :: 0 <= j < i ==> c[j] !in domain
    {
      if c[i] in domain {
        hasDomain := true;
        break;
      }
      i := i + 1;
    }
    assert hasDomain <==> TouchesDomain(c, domain);
    f := CycleFinding(if hasDomain || |c| >= 3 then High else Medium, |c|, c);
  }

  method MakeFindings(sccs: seq<seq<string>>, domain: set<string>) returns (findings: seq<CycleFinding>)
    ensures Modules(findings) == sccs
    ensures forall i :: 0 <= i < |findings| ==> FindingOf(findings[i], findings[i].modules, domain)
  {
    findings := [];
    for i := 0 to |sccs|
      invariant Modules(findings) == sccs[..i]
      invariant forall j :: 0 <= j < |findings| ==> FindingOf(findings[j], findings[j].modules, domain)
    {
      var f := MakeFinding(sccs[i], domain);
      findings := findings + [f];
    }
    assert sccs[..|sccs|] == sccs;
  }

  /** The findings are exactly the strong components of size two or more, each with its severity. */
  ghost predicate ReportOf(edges: seq<DigestEdge>, domain: set<string>, findings: seq<CycleFinding>) {
    && ExactComponents(GraphOf(edges), Modules(findings))
    && forall i :: 0 <= i < |findings| ==> FindingOf(findings[i], findings[i].modules, domain)
  }

  /** The whole of `detectCycles`: exactly the strong components of size two or more of the
      self-loop-free graph, each sorted and reported once with its severity. */
  method DetectCycles(edges: seq<DigestEdge>, domain: set<string>) returns (findings: seq<CycleFinding>)
    ensures ReportOf(edges, domain, findings)
  {
    hide Inv, ExactComponents, Nodes, GraphOf;
    var adj, allNodes := BuildAdjacency(edges);
    NodesClosed(edges);
    var nodeList := SortedKeys(allNodes);
    var search := new CycleSearch(adj);
    search.Run(nodeList);
    SearchIsExact(edges, search.State());
    findings := MakeFindings(search.sccs, domain);
  }

  lemma NoSelfArc(edges: seq<DigestEdge>, u: string)
    ensures !Arc(GraphOf(edges), u, u)
  {
    GraphOfArcs(edges, u, u);
  }

  /** The component of a node of the graph. */
  ghost function ComponentOf(edges: seq<DigestEdge>, u: string): set<string> {
    set x | x in Nodes(edges) && Mutual(GraphOf(edges), u, x)
  }

  lemma ComponentOfIsComponent(edges: seq<DigestEdge>, u: string)
    requires u in Nodes(edges)
    ensures u in ComponentOf(edges, u) && IsComponent(GraphOf(edges), ComponentOf(edges, u))
  {
    hide Reach, Nodes, GraphOf;
    var g := GraphOf(edges);
    ReachSelf(g, u);
    var c := ComponentOf(edges, u);
    forall x, y | x in c && y in c ensures Mutual(g, x, y) { MutualTransitive(g, x, u, y); }
    forall x, y | x in c && Mutual(g, x, y) ensures y in c {
      MutualTransitive(g, u, x, y);
      if y != x {
        MemberIsNode(edges, y, x);
      }
    }
  }

  /** There is nothing to report exactly when the graph has no cycle. */
  lemma NoFindingsIffAcyclic(edges: seq<DigestEdge>, lists: seq<seq<string>>)
    requires ExactComponents(GraphOf(edges), lists)
    ensures lists == [] <==> Acyclic(GraphOf(edges))
  {
    hide Reach, Nodes, GraphOf;
    var g := GraphOf(edges);
    if lists != [] {
      var c := Elements(lists[0]);
      assert Reported(g, lists[0]);
      NoDuplicatesCard(lists[0]);
      var u, w := TwoMembers(c);
      assert Mutual(g, u, w);
      var x := ReachFirstArc(g, u, w);
      ReachTransitive(g, x, w, u);
      assert OnCycle(g, u);
    }
    if !Acyclic(g) {
      var u :| OnCycle(g, u);
      CycleGivesComponent(edges, u);
    }
  }

  lemma CycleGivesComponent(edges: seq<DigestEdge>, u: string)
    requires OnCycle(GraphOf(edges), u)
    ensures IsComponent(GraphOf(edges), ComponentOf(edges, u)) && |ComponentOf(edges, u)| >= 2
  {
    hide Reach, Nodes, GraphOf;
    var g := GraphOf(edges);
    var w :| Arc(g, u, w) && Reach(g, w, u);
    NoSelfArc(edges, u);
    ReachArc(g, u, w);
    MemberIsNode(edges, u, w);
    MemberIsNode(edges, w, u);
    ComponentOfIsComponent(edges, u);
    assert {u, w} <= ComponentOf(edges, u);
    assert |{u, w}| == 2;
    SubsetCard({u, w}, ComponentOf(edges, u));
  }

  /** Components that count towards `blocker.cycles`. */
  ghost predicate Counts(c: set<string>, domain: set<string>) {
    |c| >= 3 || (|c| == 2 && c * domain != {})
  }

  ghost function HighComponents(edges: seq<DigestEdge>, domain: set<string>): set<set<string>> {
    set u | u in Nodes(edges) && Counts(ComponentOf(edges, u), domain) :: ComponentOf(edges, u)
  }

  function HighCount(findings: seq<CycleFinding>): nat {
    if findings == [] then 0
    else HighCount(findings[..|findings| - 1]) + if findings[|findings| - 1].severity == High then 1 else 0
  }

  /** The counting loop of `Score`. */
  method CountHigh(findings: seq<CycleFinding>) returns (n: nat)
    ensures n == HighCount(findings)
  {
    n := 0;
    for i := 0 to |findings|
      invariant n == HighCount(findings[..i])
    {
      assert findings[..i + 1][..i] == findings[..i];
      if findings[i].severity == High {
        n := n + 1;
      }
    }
    assert findings[..|findings|] == findings;
  }

  ghost function HighSets(findings: seq<CycleFinding>): set<set<string>> {
    set i | 0 <= i < |findings| && findings[i].severity == High :: Elements(findings[i].modules)
  }

  ghost predicate DisjointModules(findings: seq<CycleFinding>) {
    && (forall i :: 0 <= i < |findings| ==> findings[i].modules != [])
    && (forall i, j, u :: 0 <= i < j < |findings| && u in findings[i].modules ==> u !in findings[j].modules)
  }

  lemma {:induction false} HighCountIsCard(findings: seq<CycleFinding>)
    requires DisjointModules(findings)
    ensures HighCount(findings) == |HighSets(findings)|
  {
    if findings != [] {
      var n := |findings| - 1;
      var rest := findings[..n];
      assert findings == rest + [findings[n]];
      HighCountIsCard(rest);
      HighSetsStep(rest, findings[n]);
    }
  }

  lemma HighSetsStep(rest: seq<CycleFinding>, f: CycleFinding)
    requires DisjointModules(rest + [f])
    ensures |HighSets(rest + [f])| == |HighSets(rest)| + if f.severity == High then 1 else 0
  {
    var all := rest + [f];
    assert forall i :: 0 <= i < |rest| ==> all[i] == rest[i];
    assert all[|rest|] == f;
    var e := Elements(f.modules);
    assert e !in HighSets(rest) by {
      assert f.modules[0] in e;
      assert forall i :: 0 <= i < |rest| ==> f.modules[0] !in all[i].modules;
    }
    forall c | c in HighSets(rest) ensures c in HighSets(all) {
      var i :| 0 <= i < |rest| && rest[i].severity == High && Elements(rest[i].modules) == c;
      assert all[i].severity == High;
    }
    if f.severity == High {
      assert all[|rest|].severity == High;
      assert HighSets(all) == HighSets(rest) + {e};
    } else {
      assert HighSets(all) == HighSets(rest);
    }
  }

  lemma ReportDisjoint(edges: seq<DigestEdge>, domain: set<string>, findings: seq<CycleFinding>)
    requires ReportOf(edges, domain, findings)
    ensures DisjointModules(findings) && NoDuplicates(findings)
    ensures forall i :: 0 <= i < |findings| ==> Reported(GraphOf(edges), findings[i].modules)
  {
    hide GraphOf, IsComponent, FindingOf;
    assert forall i :: 0 <= i < |findings| ==> Modules(findings)[i] == findings[i].modules;
    assert forall i :: 0 <= i < |findings| ==> Reported(GraphOf(edges), Modules(findings)[i]);
    forall i, j | 0 <= i < j < |findings| ensures findings[i] != findings[j] {
      assert findings[i].modules[0] in Modules(findings)[i];
    }
  }

  /** `blocker.cycles` counts the components with three members or a domain module. */
  lemma HighCountMeaning(edges: seq<DigestEdge>, domain: set<string>, findings: seq<CycleFinding>)
    requires ReportOf(edges, domain, findings)
    ensures HighCount(findings) == |HighComponents(edges, domain)|
  {
    hide Nodes, GraphOf, Mutual, Counts, FindingOf, IsComponent;
    ReportDisjoint(edges, domain, findings);
    HighCountIsCard(findings);
    forall c ensures c in HighSets(findings) <==> c in HighComponents(edges, domain) {
      if c in HighSets(findings) {
        var i :| 0 <= i < |findings| && findings[i].severity == High && Elements(findings[i].modules) == c;
        HighSetIsComponent(edges, domain, findings, i);
      }
      if c in HighComponents(edges, domain) {
        var u :| u in Nodes(edges) && Counts(ComponentOf(edges, u), domain) && ComponentOf(edges, u) == c;
        ComponentIsHighSet(edges, domain, findings, u);
      }
    }
    assert HighSets(findings) == HighComponents(edges, domain);
  }

  lemma HighIffCounts(f: CycleFinding, domain: set<string>, g: Adjacency)
    requires FindingOf(f, f.modules, domain) && Reported(g, f.modules)
    ensures f.severity == High <==> Counts(Elements(f.modules), domain)
  {
    hide IsComponent;
    NoDuplicatesCard(f.modules);
    var c := Elements(f.modules);
    if TouchesDomain(f.modules, domain) {
      var m :| m in f.modules && m in domain;
      assert m in c * domain;
    }
    if c * domain != {} {
      var m :| m in c * domain;
      assert m in f.modules;
    }
  }

  lemma HighSetIsComponent(edges: seq<DigestEdge>, domain: set<string>, findings: seq<CycleFinding>, i: nat)
    requires ExactComponents(GraphOf(edges), Modules(findings)) && i < |findings|
    requires FindingOf(findings[i], findings[i].modules, domain) && findings[i].severity == High
    ensures Elements(findings[i].modules) in HighComponents(edges, domain)
  {
    hide Nodes, GraphOf, Reach, Counts;
    var g := GraphOf(edges);
    var c := Elements(findings[i].modules);
    assert Modules(findings)[i] == findings[i].modules && Reported(g, Modules(findings)[i]);
    HighIffCounts(findings[i], domain, g);
    NoDuplicatesCard(findings[i].modules);
    var u, w := TwoMembers(c);
    assert Mutual(g, u, w);
    MemberIsNode(edges, u, w);
    ComponentOfIsComponent(edges, u);
    ComponentsMeetEqual(g, c, ComponentOf(edges, u), u);
  }

  lemma ComponentIsHighSet(edges: seq<DigestEdge>, domain: set<string>, findings: seq<CycleFinding>, u: string)
    requires ReportOf(edges, domain, findings) && u in Nodes(edges)
    requires Counts(ComponentOf(edges, u), domain)
    ensures ComponentOf(edges, u) in HighSets(findings)
  {
    hide Nodes, GraphOf, Mutual, IsComponent, FindingOf;
    var g := GraphOf(edges);
    ComponentOfIsComponent(edges, u);
    var c := ComponentOf(edges, u);
    assert |c| >= 2;
    var lists := Modules(findings);
    var i :| 0 <= i < |lists| && Elements(lists[i]) == c;
    assert Reported(g, lists[i]);
    HighIffCounts(findings[i], domain, g);
  }

  ghost predicate SameLinks(es: seq<DigestEdge>, fs: seq<DigestEdge>) {
    forall u, w :: Linked(es, u, w) <==> Linked(fs, u, w)
  }

  lemma LinkedGivesNodes(edges: seq<DigestEdge>, u: string)
    ensures u in Nodes(edges) <==> exists w :: Linked(edges, u, w) || Linked(edges, w, u)
  {
    if u in Nodes(edges) {
      var i :| 0 <= i < |edges| && edges[i].from != edges[i].to && (edges[i].from == u || edges[i].to == u);
      if edges[i].from == u {
        assert Linked(edges, u, edges[i].to);
      } else {
        assert Linked(edges, edges[i].from, u);
      }
    }
  }

  lemma SameLinksSameNodes(es: seq<DigestEdge>, fs: seq<DigestEdge>)
    requires SameLinks(es, fs)
    ensures Nodes(es) == Nodes(fs)
  {
    hide Nodes, Linked;
    forall u ensures u in Nodes(es) <==> u in Nodes(fs) {
      LinkedGivesNodes(es, u);
      LinkedGivesNodes(fs, u);
    }
  }

  lemma SameLinksSameArcs(es: seq<DigestEdge>, fs: seq<DigestEdge>)
    requires SameLinks(es, fs)
    ensures SameArcs(GraphOf(es), GraphOf(fs))
  {
    hide Linked;
    forall u, w ensures Arc(GraphOf(es), u, w) <==> Arc(GraphOf(fs), u, w) {
      GraphOfArcs(es, u, w);
      GraphOfArcs(fs, u, w);
    }
  }

  /** What a finding says: how many members there are, and high severity from three on or with a domain
      module among them. */
  lemma FindingSays(edges: seq<DigestEdge>, domain: set<string>, findings: seq<CycleFinding>, i: nat)
    requires ReportOf(edges, domain, findings) && i < |findings|
    ensures findings[i].size == |findings[i].modules| == |Elements(findings[i].modules)| >= 2
    ensures findings[i].severity == High <==>
      |findings[i].modules| >= 3 || exists m :: m in findings[i].modules && m in domain
  {
    ReportDisjoint(edges, domain, findings);
    assert Reported(GraphOf(edges), findings[i].modules);
    NoDuplicatesCard(findings[i].modules);
    hide GraphOf, IsComponent, ExactComponents;
  }

  lemma FindingAppears(es: seq<DigestEdge>, fs: seq<DigestEdge>, domain: set<string>, a: seq<CycleFinding>,
      b: seq<CycleFinding>, f: CycleFinding)
    requires SameLinks(es, fs) && ReportOf(es, domain, a) && ReportOf(fs, domain, b) && f in a
    ensures f in b
  {
    ReportDisjoint(es, domain, a);
    ReportDisjoint(fs, domain, b);
    SameLinksSameArcs(es, fs);
    hide SameLinks, GraphOf, IsComponent, StringLe, SameArcs;
    var c := Elements(f.modules);
    assert Reported(GraphOf(es), f.modules);
    NoDuplicatesCard(f.modules);
    SameArcsSameComponents(GraphOf(es), GraphOf(fs), c);
    var j :| 0 <= j < |Modules(b)| && Elements(Modules(b)[j]) == c;
    assert Reported(GraphOf(fs), b[j].modules);
    SameElementsSameMultiset(f.modules, b[j].modules);
    SortedListingUnique(f.modules, b[j].modules);
    assert b[j] == f;
  }

  /** The findings themselves are stable: two edge lists with the same links give the same findings, with
      the same module lists and severities. */
  lemma FindingsStable(es: seq<DigestEdge>, fs: seq<DigestEdge>, domain: set<string>, a: seq<CycleFinding>,
      b: seq<CycleFinding>)
    requires SameLinks(es, fs) && ReportOf(es, domain, a) && ReportOf(fs, domain, b)
    ensures multiset(a) == multiset(b)
  {
    hide SameLinks, ReportOf;
    ReportDisjoint(es, domain, a);
    ReportDisjoint(fs, domain, b);
    forall f ensures f in a <==> f in b {
      if f in a { FindingAppears(es, fs, domain, a, b, f); }
      if f in b {
        assert SameLinks(fs, es) by { SameLinksBack(es, fs); }
        FindingAppears(fs, es, domain, b, a, f);
      }
    }
    assert Elements(a) == Elements(b);
    SameElementsSameMultiset(a, b);
  }

  lemma SameLinksBack(es: seq<DigestEdge>, fs: seq<DigestEdge>)
    requires SameLinks(es, fs)
    ensures SameLinks(fs, es)
  {
  }

  /** The count depends only on which modules are linked: permuting or repeating edges, or
      changing weights, leaves it as it is. */
  lemma HighComponentsStable(es: seq<DigestEdge>, fs: seq<DigestEdge>, domain: set<string>)
    requires SameLinks(es, fs)
    ensures HighComponents(es, domain) == HighComponents(fs, domain)
  {
    hide Nodes, Linked, Reach, Counts;
    SameLinksSameNodes(es, fs);
    SameLinksSameArcs(es, fs);
    SameArcsSameReach(GraphOf(es), GraphOf(fs));
    forall u ensures ComponentOf(es, u) == ComponentOf(fs, u) {
      assert forall x :: Mutual(GraphOf(es), u, x) <==> Mutual(GraphOf(fs), u, x);
    }
    forall c ensures c in HighComponents(es, domain) <==> c in HighComponents(fs, domain) {
      if c in HighComponents(es, domain) {
        var u :| u in Nodes(es) && Counts(ComponentOf(es, u), domain) && ComponentOf(es, u) == c;
        assert ComponentOf(fs, u) == c;
      }
      if c in HighComponents(fs, domain) {
        var u :| u in Nodes(fs) && Counts(ComponentOf(fs, u), domain) && ComponentOf(fs, u) == c;
        assert ComponentOf(es, u) == c;
      }
    }
  }

  /** A permutation of the edges, with repetitions allowed, has the same links. */
  lemma SameEdgesSameLinks(es: seq<DigestEdge>, fs: seq<DigestEdge>)
    requires forall e :: e in es <==> e in fs
    ensures SameLinks(es, fs)
  {
    forall u, w ensures Linked(es, u, w) <==> Linked(fs, u, w) {
      if Linked(es, u, w) {
        var i :| 0 <= i < |es| && es[i].from == u && es[i].to == w;
        assert es[i] in fs;
      }
      if Linked(fs, u, w) {
        var i :| 0 <= i < |fs| && fs[i].from == u && fs[i].to == w;
        assert fs[i] in es;
      }
    }
  }
}
