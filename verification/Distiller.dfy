/** `Distill`: the digest of graph, classification, clusters and module cards, with the top-K cut. */
module Distiller {
  import opened Ordering
  import opened Cycles
  import opened Digests
  import opened Clusterer
  import opened Wrappers

  datatype Classification = Classification(domain: seq<string>, infra: seq<string>, tests: seq<string>,
      structuralFallback: bool)

  datatype ClusteringResult = ClusteringResult(clusters: seq<Cluster>, lowConfidence: bool)

  datatype Blueprint = Blueprint(name: string, file: string, urlPrefix: string)

  datatype SummaryCards = SummaryCards(cards: seq<Card>, blueprints: seq<Blueprint>, technologies: seq<string>,
      framework: string)

  datatype Aggregate = Aggregate(modules: nat, loc: nat, functions: nat, classes: nat, state: nat, routes: nat)

  datatype EntryPoints = EntryPoints(hasRoutes: bool, totalRoutes: nat, blueprints: nat, singleBlueprint: bool)

  datatype Digest = Digest(
    technologies: seq<string>, framework: string,
    nodes: seq<string>, edges: seq<DigestEdge>,
    clusters: seq<Cluster>, noServiceBoundaries: bool, lowConfidence: bool,
    cards: seq<RichCard>, aggregate: Option<Aggregate>, totalModules: nat, sampledModules: nat,
    blueprints: seq<Blueprint>, entryPoints: EntryPoints,
    domain: seq<string>, infra: seq<string>, tests: seq<string>, domainEmpty: bool,
    hubs: seq<Hub>)

  const DEFAULT_TOP_K: nat := 250

  // ---------------------------------------------------------------- graph part

  function Endpoints(edges: seq<DigestEdge>): set<string> {
    (set e | e in edges :: e.from) + (set e | e in edges :: e.to)
  }

  predicate EdgeLe(a: DigestEdge, b: DigestEdge) {
    if a.from != b.from then StringLe(a.from, b.from) else StringLe(a.to, b.to)
  }

  lemma EdgeLePreorder()
    ensures TotalPreorder(EdgeLe)
  {
    hide StringLe;
    forall a, b ensures EdgeLe(a, b) || EdgeLe(b, a) { StringLeTotal(a.from, b.from); StringLeTotal(a.to, b.to); }
    forall a, b, c | EdgeLe(a, b) && EdgeLe(b, c) ensures EdgeLe(a, c) { EdgeLeTransitive(a, b, c); }
  }

  lemma EdgeLeTransitive(a: DigestEdge, b: DigestEdge, c: DigestEdge)
    requires EdgeLe(a, b) && EdgeLe(b, c)
    ensures EdgeLe(a, c)
  {
    hide StringLe;
    if a.from == b.from && b.from == c.from {
      StringLeTransitive(a.to, b.to, c.to);
    } else if a.from != b.from && b.from != c.from {
      StringLeTransitive(a.from, b.from, c.from);
      if a.from == c.from {
        StringLeAntisymmetric(a.from, b.from);
      }
    }
  }

  /** Fan-in and fan-out of every name, the empty one included. */
  ghost predicate FansOf(edges: seq<DigestEdge>, fanIn: map<string, nat>, fanOut: map<string, nat>) {
    && (forall k :: At(fanIn, k) == Wrap(WeightInto(edges, k)))
    && (forall k :: At(fanOut, k) == Wrap(WeightOutOf(edges, k)))
  }

  lemma FansStep(edges: seq<DigestEdge>, i: nat, fanIn: map<string, nat>, fanOut: map<string, nat>)
    requires i < |edges| && FansOf(edges[..i], fanIn, fanOut)
    ensures FansOf(edges[..i + 1], AddTo(fanIn, edges[i].to, edges[i].weight),
      AddTo(fanOut, edges[i].from, edges[i].weight))
  {
    var e := edges[i];
    assert edges[..i + 1][..i] == edges[..i];
    hide Wrap;
    forall k ensures At(AddTo(fanIn, e.to, e.weight), k) == Wrap(WeightInto(edges[..i + 1], k)) {
      assert At(fanIn, k) == Wrap(WeightInto(edges[..i], k));
      WrapAdd(WeightInto(edges[..i], e.to), e.weight);
    }
    forall k ensures At(AddTo(fanOut, e.from, e.weight), k) == Wrap(WeightOutOf(edges[..i + 1], k)) {
      assert At(fanOut, k) == Wrap(WeightOutOf(edges[..i], k));
      WrapAdd(WeightOutOf(edges[..i], e.from), e.weight);
    }
  }

  method ReadGraph(edges: seq<DigestEdge>)
    returns (nodes: seq<string>, sorted: seq<DigestEdge>, fanIn: map<string, nat>, fanOut: map<string, nat>)
    ensures SortedBy(nodes, StringLe) && NoDuplicates(nodes) && Elements(nodes) == Endpoints(edges)
    ensures SortedBy(sorted, EdgeLe) && multiset(sorted) == multiset(edges)
    ensures FansOf(edges, fanIn, fanOut)
  {
    hide FansOf, AddTo, StringLe;
    var nodeSet := {};
    fanIn, fanOut := map[], map[];
    NoFans();
    assert edges[..0] == [];
    for i := 0 to |edges|
      invariant nodeSet == Endpoints(edges[..i])
      invariant FansOf(edges[..i], fanIn, fanOut)
    {
      var e := edges[i];
      FansStep(edges, i, fanIn, fanOut);
      EndpointsStep(edges, i);
      nodeSet := nodeSet + {e.from, e.to};
      fanOut := AddTo(fanOut, e.from, e.weight);
      fanIn := AddTo(fanIn, e.to, e.weight);
    }
    assert edges[..|edges|] == edges;
    nodes := SortedKeys(nodeSet);
    EdgeLePreorder();
    sorted := Sort(edges, EdgeLe);
  }

  lemma NoFans()
    ensures FansOf([], map[], map[])
  {
  }

  lemma EndpointsStep(edges: seq<DigestEdge>, i: nat)
    requires i < |edges|
    ensures Endpoints(edges[..i + 1]) == Endpoints(edges[..i]) + {edges[i].from, edges[i].to}
  {
    assert edges[..i + 1] == edges[..i] + [edges[i]];
  }

  // ---------------------------------------------------------------- ranking the cards

  /** Weighted degree, added as uint32. */
  function Degree(edges: seq<DigestEdge>, c: Card): nat {
    Wrap(Wrap(WeightInto(edges, c.name)) + Wrap(WeightOutOf(edges, c.name)))
  }

  predicate CardLe(fanIn: map<string, nat>, fanOut: map<string, nat>, a: Card, b: Card) {
    var da, db := Wrap(At(fanIn, a.name) + At(fanOut, a.name)), Wrap(At(fanIn, b.name) + At(fanOut, b.name));
    if da != db then da > db else StringLe(a.name, b.name)
  }

  /** Larger weighted degree first, equal ones by name. */
  predicate RanksBefore(edges: seq<DigestEdge>, a: Card, b: Card) {
    if Degree(edges, a) != Degree(edges, b) then Degree(edges, a) > Degree(edges, b) else StringLe(a.name, b.name)
  }

  ghost predicate Ranked(edges: seq<DigestEdge>, cards: seq<Card>) {
    forall i, j :: 0 <= i < j < |cards| ==> RanksBefore(edges, cards[i], cards[j])
  }

  lemma CardLePreorder(fanIn: map<string, nat>, fanOut: map<string, nat>)
    ensures TotalPreorder((a: Card, b: Card) => CardLe(fanIn, fanOut, a, b))
  {
    hide StringLe, Wrap;
    var le := (a: Card, b: Card) => CardLe(fanIn, fanOut, a, b);
    forall a, b ensures le(a, b) || le(b, a) { StringLeTotal(a.name, b.name); }
    forall a, b, c | le(a, b) && le(b, c) ensures le(a, c) {
      if StringLe(a.name, b.name) && StringLe(b.name, c.name) {
        StringLeTransitive(a.name, b.name, c.name);
      }
    }
  }

  method RankCards(edges: seq<DigestEdge>, fanIn: map<string, nat>, fanOut: map<string, nat>, cards: seq<Card>)
    returns (r: seq<Card>)
    requires FansOf(edges, fanIn, fanOut)
    ensures multiset(r) == multiset(cards) && Ranked(edges, r)
  {
    CardLePreorder(fanIn, fanOut);
    hide StringLe, Wrap;
    r := Sort(cards, (a: Card, b: Card) => CardLe(fanIn, fanOut, a, b));
    forall i, j | 0 <= i < j < |r| ensures RanksBefore(edges, r[i], r[j]) {
      assert CardLe(fanIn, fanOut, r[i], r[j]);
    }
  }

  method BuildCards(edges: seq<DigestEdge>, fanIn: map<string, nat>, fanOut: map<string, nat>, cards: seq<Card>)
    returns (r: seq<RichCard>)
    requires FansOf(edges, fanIn, fanOut)
    ensures r == AllRich(edges, cards)
  {
    hide Wrap, IsSharedStateHub;
    r := [];
    for i := 0 to |cards|
      invariant |r| == i && forall k :: 0 <= k < i ==> r[k] == Rich(edges, cards[k])
    {
      var c := cards[i];
      var fi := At(fanIn, c.name);
      r := r + [RichCard(c, fi, At(fanOut, c.name), IsSharedStateHub(c, fi))];
    }
  }

  // ---------------------------------------------------------------- the aggregate card

  function Sum(f: Card -> nat, cards: seq<Card>): nat {
    if cards == [] then 0 else Sum(f, cards[..|cards| - 1]) + f(cards[|cards| - 1])
  }

  function FunctionCount(c: Card): nat { |c.functions| }
  function ClassCount(c: Card): nat { |c.classes| }
  function StateCount(c: Card): nat { |c.state| }
  function RouteCount(c: Card): nat { |c.routes| }
  function LocCount(c: Card): nat { c.loc }

  ghost predicate Totals(a: Aggregate, cards: seq<Card>) {
    && a.modules == |cards| && a.loc == Wrap(Sum(LocCount, cards))
    && a.functions == Sum(FunctionCount, cards) && a.classes == Sum(ClassCount, cards)
    && a.state == Sum(StateCount, cards) && a.routes == Sum(RouteCount, cards)
  }

  method AggregateCards(overflow: seq<Card>) returns (a: Aggregate)
    ensures Totals(a, overflow)
  {
    a := Aggregate(0, 0, 0, 0, 0, 0);
    assert Wrap(0) == 0;
    for i := 0 to |overflow|
      invariant Totals(a, overflow[..i])
    {
      var c := overflow[i];
      assert overflow[..i + 1][..i] == overflow[..i];
      WrapAdd(Sum(LocCount, overflow[..i]), c.loc);
      a := Aggregate(a.modules + 1, Wrap(a.loc + c.loc), a.functions + |c.functions|, a.classes + |c.classes|,
                     a.state + |c.state|, a.routes + |c.routes|);
    }
    assert overflow[..|overflow|] == overflow;
  }

  // ---------------------------------------------------------------- hubs

  predicate HubLe(a: Hub, b: Hub) {
    if a.fanIn != b.fanIn then a.fanIn > b.fanIn else StringLe(a.name, b.name)
  }

  lemma HubLePreorder()
    ensures TotalPreorder(HubLe)
  {
    hide StringLe;
    forall a, b ensures HubLe(a, b) || HubLe(b, a) { StringLeTotal(a.name, b.name); }
    forall a, b, c | HubLe(a, b) && HubLe(b, c) ensures HubLe(a, c) {
      if StringLe(a.name, b.name) && StringLe(b.name, c.name) {
        StringLeTransitive(a.name, b.name, c.name);
      }
    }
  }

  method CollectHubs(edges: seq<DigestEdge>, fanIn: map<string, nat>, fanOut: map<string, nat>, cards: seq<RichCard>,
      overflow: seq<Card>)
    returns (hubs: seq<Hub>)
    requires FansOf(edges, fanIn, fanOut)
    ensures SortedBy(hubs, HubLe)
    ensures multiset(hubs) == multiset(HubsAmong(cards) + HubsAmong(AllRich(edges, overflow)))
  {
    hide StringLe, HubsAmong, AllRich, FansOf;
    var found := SampledHubs(cards);
    var more := OverflowHubs(edges, fanIn, fanOut, overflow);
    HubLePreorder();
    hubs := Sort(found + more, HubLe);
  }

  method SampledHubs(cards: seq<RichCard>) returns (found: seq<Hub>)
    ensures found == HubsAmong(cards)
  {
    found := [];
    for i := 0 to |cards|
      invariant found == HubsAmong(cards[..i])
    {
      assert cards[..i + 1][..i] == cards[..i];
      if cards[i].isHub {
        found := found + [Hub(cards[i].card.name, cards[i].card.state, cards[i].fanIn)];
      }
    }
    assert cards[..|cards|] == cards;
  }

  method OverflowHubs(edges: seq<DigestEdge>, fanIn: map<string, nat>, fanOut: map<string, nat>, overflow: seq<Card>)
    returns (found: seq<Hub>)
    requires FansOf(edges, fanIn, fanOut)
    ensures found == HubsAmong(AllRich(edges, overflow))
  {
    hide Wrap, IsSharedStateHub;
    found := [];
    ghost var rich := AllRich(edges, overflow);
    for i := 0 to |overflow|
      invariant found == HubsAmong(rich[..i])
    {
      assert rich[..i + 1][..i] == rich[..i];
      var c := overflow[i];
      if IsSharedStateHub(c, At(fanIn, c.name)) {
        found := found + [Hub(c.name, c.state, At(fanIn, c.name))];
      }
    }
    assert rich[..|overflow|] == rich;
  }

  // ---------------------------------------------------------------- routes

  function RouteKey(r: Route): string {
    r.verb + "\0" + r.path + "\0" + r.handler
  }

  function KeysOf(routes: seq<Route>): set<string> {
    set i | 0 <= i < |routes| :: RouteKey(routes[i])
  }

  /** The distinct route keys of all cards. */
  function RouteKeys(cards: seq<Card>): set<string> {
    if cards == [] then {} else RouteKeys(cards[..|cards| - 1]) + KeysOf(cards[|cards| - 1].routes)
  }

  method AddRouteKeys(keys: set<string>, routes: seq<Route>) returns (r: set<string>)
    ensures r == keys + KeysOf(routes)
  {
    r := keys;
    for i := 0 to |routes|
      invariant r == keys + KeysOf(routes[..i])
    {
      KeysOfStep(routes, i);
      r := r + {RouteKey(routes[i])};
    }
    assert routes[..|routes|] == routes;
  }

  lemma KeysOfStep(routes: seq<Route>, i: nat)
    requires i < |routes|
    ensures KeysOf(routes[..i + 1]) == KeysOf(routes[..i]) + {RouteKey(routes[i])}
  {
    hide RouteKey;
    var a, b := routes[..i + 1], routes[..i];
    assert forall k :: 0 <= k < i ==> a[k] == b[k];
    assert a[i] == routes[i];
    forall x | x in KeysOf(b) ensures x in KeysOf(a) {
      var k :| 0 <= k < i && RouteKey(b[k]) == x;
      assert RouteKey(a[k]) == x;
    }
  }

  method CollectRouteKeys(keys: set<string>, cards: seq<Card>) returns (r: set<string>)
    ensures r == keys + RouteKeys(cards)
  {
    hide KeysOf;
    r := keys;
    for i := 0 to |cards|
      invariant r == keys + RouteKeys(cards[..i])
    {
      assert cards[..i + 1][..i] == cards[..i];
      r := AddRouteKeys(r, cards[i].routes);
    }
    assert cards[..|cards|] == cards;
  }

  lemma {:induction false} RouteKeysConcat(a: seq<Card>, b: seq<Card>)
    ensures RouteKeys(a + b) == RouteKeys(a) + RouteKeys(b)
  {
    hide KeysOf;
    if b == [] {
      assert a + b == a;
    } else {
      var n := |b| - 1;
      RouteKeysConcat(a, b[..n]);
      assert (a + b)[..|a + b| - 1] == a + b[..n];
    }
  }

  method CountRoutes(cards: seq<RichCard>, overflow: seq<Card>) returns (n: nat)
    ensures n == |RouteKeys(Plain(cards) + overflow)|
  {
    hide RouteKeys;
    var keys := CollectRouteKeys({}, Plain(cards));
    keys := CollectRouteKeys(keys, overflow);
    RouteKeysConcat(Plain(cards), overflow);
    n := |keys|;
  }

  /** The cards without their figures. */
  function Plain(cards: seq<RichCard>): seq<Card> {
    seq(|cards|, i requires 0 <= i < |cards| => cards[i].card)
  }

  // ---------------------------------------------------------------- clusters and classification

  ghost predicate SameClusters(a: seq<Cluster>, b: seq<Cluster>) {
    |a| == |b| && forall i :: 0 <= i < |a| ==>
      a[i].name == b[i].name && SortedBy(a[i].modules, StringLe) && multiset(a[i].modules) == multiset(b[i].modules)
  }

  method SortClusters(clusters: seq<Cluster>) returns (r: seq<Cluster>)
    ensures SameClusters(r, clusters)
  {
    hide StringLe;
    r := [];
    for i := 0 to |clusters|
      invariant |r| == i && forall k :: 0 <= k < i ==>
        r[k].name == clusters[k].name && SortedBy(r[k].modules, StringLe) &&
          multiset(r[k].modules) == multiset(clusters[k].modules)
    {
      StringLePreorder();
      var modules := Sort(clusters[i].modules, StringLe);
      r := r + [Cluster(clusters[i].name, modules)];
    }
  }

  // ---------------------------------------------------------------- the whole

  /** How many cards are kept in full. */
  function KeptCount(topK: int, cards: nat): nat {
    var k := if topK <= 0 then DEFAULT_TOP_K else topK;
    if cards > k then k else cards
  }

  function CardsIn(data: Option<SummaryCards>): seq<Card> {
    if data.Some? then data.value.cards else []
  }

  /** What the digest says about the cards, for the order in which the sort left them. */
  ghost predicate CardsDistilled(edges: seq<DigestEdge>, cards: seq<Card>, topK: int, order: seq<Card>, d: Digest) {
    var k := KeptCount(topK, |cards|);
    && |order| == |cards| && multiset(order) == multiset(cards) && Ranked(edges, order)
    && d.cards == AllRich(edges, order[..k])
    && d.totalModules == |cards| && d.sampledModules == k
    && (d.aggregate.Some? <==> k < |cards|)
    && (d.aggregate.Some? ==> Totals(d.aggregate.value, order[k..]))
    && SortedBy(d.hubs, HubLe) && multiset(d.hubs) == multiset(HubsAmong(AllRich(edges, order)))
    && d.entryPoints.totalRoutes == |RouteKeys(order)|
  }

  ghost predicate ClustersDistilled(clusters: Option<ClusteringResult>, d: Digest) {
    && d.noServiceBoundaries == (clusters.None? || clusters.value.clusters == [])
    && d.lowConfidence == (clusters.Some? && clusters.value.lowConfidence)
    && SameClusters(d.clusters, if clusters.Some? then clusters.value.clusters else [])
  }

  ghost predicate Listing(a: seq<string>, b: seq<string>) {
    SortedBy(a, StringLe) && multiset(a) == multiset(b)
  }

  ghost predicate ClassesDistilled(cls: Option<Classification>, d: Digest) {
    && Listing(d.domain, if cls.Some? then cls.value.domain else [])
    && Listing(d.infra, if cls.Some? then cls.value.infra else [])
    && Listing(d.tests, if cls.Some? then cls.value.tests else [])
    && d.domainEmpty == (d.domain == [])
  }

  method Distill(edges: seq<DigestEdge>, cls: Option<Classification>, clusters: Option<ClusteringResult>,
      data: Option<SummaryCards>, topK: int)
    returns (d: Digest, ghost order: seq<Card>)
    ensures SortedBy(d.nodes, StringLe) && NoDuplicates(d.nodes) && Elements(d.nodes) == Endpoints(edges)
    ensures SortedBy(d.edges, EdgeLe) && multiset(d.edges) == multiset(edges)
    ensures ClustersDistilled(clusters, d)
    ensures ClassesDistilled(cls, d)
    ensures CardsDistilled(edges, CardsIn(data), topK, order, d)
    ensures d.technologies == (if data.Some? then data.value.technologies else []) &&
      d.framework == (if data.Some? then data.value.framework else "")
    ensures d.blueprints == if data.Some? then data.value.blueprints else []
    ensures var b := |d.blueprints|;
      d.entryPoints == EntryPoints(d.entryPoints.totalRoutes > 0, d.entryPoints.totalRoutes, b, b == 1)
  {
    hide Ranked, Totals, HubsAmong, AllRich, RouteKeys, FansOf, StringLe, SameClusters;
    var nodes, sorted, fanIn, fanOut := ReadGraph(edges);
    var digestClusters := SortClusters(if clusters.Some? then clusters.value.clusters else []);
    var domain := SortNames(if cls.Some? then cls.value.domain else []);
    var infra := SortNames(if cls.Some? then cls.value.infra else []);
    var tests := SortNames(if cls.Some? then cls.value.tests else []);
    var allCards := RankCards(edges, fanIn, fanOut, CardsIn(data));
    order := allCards;
    var cards, aggregate, hubs, totalRoutes := CutCards(edges, fanIn, fanOut, allCards, topK);
    var blueprints := if data.Some? then data.value.blueprints else [];
    var b := |blueprints|;
    d := Digest(
      if data.Some? then data.value.technologies else [], if data.Some? then data.value.framework else "",
      nodes, sorted, digestClusters,
      if clusters.Some? then clusters.value.clusters == [] else true, clusters.Some? && clusters.value.lowConfidence,
      cards, aggregate, |allCards|, |cards|,
      blueprints, EntryPoints(totalRoutes > 0, totalRoutes, b, b == 1),
      domain, infra, tests, |domain| == 0, hubs);
    SameSize(order, CardsIn(data));
    AllRichSize(edges, order[..KeptCount(topK, |order|)]);
  }

  method SortNames(names: seq<string>) returns (r: seq<string>)
    ensures Listing(r, names)
  {
    hide StringLe;
    StringLePreorder();
    r := Sort(names, StringLe);
  }

  lemma SameSize(a: seq<Card>, b: seq<Card>)
    requires multiset(a) == multiset(b)
    ensures |a| == |b|
  {
    assert |multiset(a)| == |a| && |multiset(b)| == |b|;
  }

  lemma AllRichSize(edges: seq<DigestEdge>, cards: seq<Card>)
    ensures |AllRich(edges, cards)| == |cards|
  {
  }

  /** The cut itself: full cards for the front, one aggregate for the rest, hubs and routes of both. */
  method CutCards(edges: seq<DigestEdge>, fanIn: map<string, nat>, fanOut: map<string, nat>, all: seq<Card>, topK: int)
    returns (cards: seq<RichCard>, aggregate: Option<Aggregate>, hubs: seq<Hub>, routes: nat)
    requires FansOf(edges, fanIn, fanOut)
    ensures var k := KeptCount(topK, |all|);
      && cards == AllRich(edges, all[..k])
      && (aggregate.Some? <==> k < |all|) && (aggregate.Some? ==> Totals(aggregate.value, all[k..]))
    ensures SortedBy(hubs, HubLe) && multiset(hubs) == multiset(HubsAmong(AllRich(edges, all)))
    ensures routes == |RouteKeys(all)|
  {
    hide Totals, HubsAmong, RouteKeys, FansOf, StringLe, Rich;
    var k := if topK <= 0 then DEFAULT_TOP_K else topK;
    var sampled, overflow := all, [];
    if |all| > k {
      sampled, overflow := all[..k], all[k..];
    }
    ghost var cut := KeptCount(topK, |all|);
    assert sampled == all[..cut] && overflow == all[cut..];
    assert all == sampled + overflow;
    cards := BuildCards(edges, fanIn, fanOut, sampled);
    aggregate := None;
    if |overflow| > 0 {
      var agg := AggregateCards(overflow);
      aggregate := Some(agg);
    }
    hubs := CollectHubs(edges, fanIn, fanOut, cards, overflow);
    AllRichConcat(edges, sampled, overflow);
    HubsAmongConcat(cards, AllRich(edges, overflow));
    PlainRich(edges, sampled);
    routes := CountRoutes(cards, overflow);
  }

  lemma PlainRich(edges: seq<DigestEdge>, cards: seq<Card>)
    ensures Plain(AllRich(edges, cards)) == cards
  {
  }
}
