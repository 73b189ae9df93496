/** `Score`: five penalties, the score band, the structural findings and the typed blockers. */
module Scorer {
  import opened Ordering
  import opened Text
  import opened Cycles
  import opened CycleFindings
  import opened Digests
  import opened Distiller
  import opened Penalties
  import opened Wrappers

  const GOD_FUNCTIONS: nat := 20

  /** One line of the breakdown. */
  datatype Signal = Signal(name: string, penalty: int, detail: string, modules: seq<string>)

  datatype Band = Good | MediumBand | Bad

  datatype Finding = Finding(kind: string, severity: string, title: string, params: map<string, string>,
      modules: seq<string>)

  /** A blocker and, where it has one, its count parameter. */
  datatype Blocker = Blocker(key: string, count: Option<nat>)

  datatype MigrabilityScore = MigrabilityScore(
    value: int, breakdown: seq<Signal>, band: Band, findings: seq<Finding>, blockers: seq<Blocker>)

  // ---------------------------------------------------------------- the inputs of the penalties

  function Gods(cards: seq<RichCard>): seq<string> {
    if cards == [] then []
    else
      var c := cards[|cards| - 1];
      Gods(cards[..|cards| - 1]) + if |c.card.functions| >= GOD_FUNCTIONS && c.isHub then [c.card.name] else []
  }

  /** The worst hub's share, with the denominator added as uint32; `None` stands for the infinite
      quotient of a denominator that wrapped to zero. */
  function HubRatio(fanIn: nat, nodes: nat): (r: Option<real>)
    ensures r.Some? ==> 0.0 <= r.value
  {
    var n := if nodes == 0 then 1 else nodes;
    var denominator := Wrap(Wrap(n) + fanIn);
    if denominator == 0 then None
    else
      QuotientNonNegative(fanIn as real, denominator as real);
      Some(fanIn as real / denominator as real)
  }

  lemma QuotientNonNegative(a: real, b: real)
    requires 0.0 <= a && 0.0 < b
    ensures 0.0 <= a / b
  {
    var q := a / b;
    assert q * b == a;
    if q < 0.0 {
      ProductNegative(q, b);
    }
  }

  lemma ProductNegative(q: real, b: real)
    requires q < 0.0 && 0.0 < b
    ensures q * b < 0.0
  {
  }

  function DomainRatio(d: Digest): real
    requires |d.domain| + |d.infra| > 0
  {
    |d.domain| as real / (|d.domain| + |d.infra|) as real
  }

  function DomainPenalty(d: Digest): (p: int)
    ensures 0 <= p <= 40
  {
    if d.domainEmpty then 40
    else if |d.domain| + |d.infra| > 0 then DomainPresencePenalty(DomainRatio(d))
    else 0
  }

  function ClusterPenalty(n: nat): (p: int)
    ensures 0 <= p <= 25
  {
    if n == 0 then 25 else if n == 1 then 15 else if n == 2 then 5 else 0
  }

  function HubPenalty(d: Digest): (p: int)
    ensures 0 <= p <= 20
  {
    if d.hubs == [] then 0
    else
      var r := HubRatio(d.hubs[0].fanIn, |d.nodes|);
      if r.None? then 20 else HubSeverityPenalty(r.value)
  }

  function GodPenalty(count: nat): (p: int)
    ensures 0 <= p <= 10
  {
    if count * 5 > 10 then 10 else count * 5
  }

  function RoutingPenalty(e: EntryPoints): (p: int)
    ensures 0 <= p <= 5
  {
    if e.singleBlueprint && e.hasRoutes then 5 else 0
  }

  /** A share in percent as `%.0f` prints it: nearest, ties to even. */
  function Percent(r: real): nat
    requires 0.0 <= r
  {
    var x := r * 100.0;
    var f := x.Floor;
    if x - f as real < 0.5 || (x - f as real == 0.5 && f % 2 == 0) then f else f + 1
  }

  const FAN_IN_MARK := " fan-in="

  const DASH := " \U{2014} "

  /** What follows the module name and the mark in the hub detail. */
  function HubTail(fanIn: nat, ratio: Option<real>): string {
    Itoa(fanIn) + DASH +
    if ratio.None? then "severe shared-state hub (concentrates +Inf% of incoming coupling)"
    else if ratio.value >= 0.5
    then "severe shared-state hub (concentrates " + Itoa(Percent(ratio.value)) + "% of incoming coupling)"
    else if ratio.value >= 0.3 then "moderate shared-state hub"
    else "shared-state hub present"
  }

  function HubDetail(d: Digest): string {
    if d.hubs == [] then "no shared-state hubs"
    else d.hubs[0].name + FAN_IN_MARK + HubTail(d.hubs[0].fanIn, HubRatio(d.hubs[0].fanIn, |d.nodes|))
  }

  /** Names separated by single spaces, as `%v` prints a slice between brackets. */
  function Spaced(names: seq<string>): string {
    if names == [] then "" else if |names| == 1 then names[0] else names[0] + " " + Spaced(names[1..])
  }

  function GodPrefix(n: nat): string {
    Itoa(n) + " god-module(s): "
  }

  function GodTail(): string {
    " (\U{2265}" + Itoa(GOD_FUNCTIONS) + " functions + shared state)"
  }

  function GodDetail(gods: seq<string>): string {
    if gods == [] then "no god-modules detected"
    else GodPrefix(|gods|) + "[" + Spaced(gods) + "]" + GodTail()
  }

  function DomainDetail(d: Digest): string {
    if d.domainEmpty then "no domain modules detected" + DASH + "automatic decomposition is structurally blocked"
    else if |d.domain| + |d.infra| == 0 then ""
    else
      var r := DomainRatio(d);
      "domain ratio " + Itoa(Percent(r)) + "%" +
      if r < 0.15 then DASH + "very few domain modules relative to infrastructure"
      else if r < 0.30 then DASH + "low domain-to-infra ratio"
      else ""
  }

  function ClusterDetail(n: nat): string {
    if n == 0 then "no service boundaries detected" + DASH + "monolith cannot be decomposed as-is"
    else if n == 1 then "single cluster" + DASH + "one-service result does not decompose the monolith"
    else if n == 2 then "two clusters" + DASH + "limited decomposition scope"
    else Itoa(n) + " clusters detected"
  }

  function RoutingDetail(e: EntryPoints): string {
    if e.singleBlueprint && e.hasRoutes
    then "all " + Itoa(e.totalRoutes) + " routes in a single blueprint" + DASH + "no per-domain routing separation"
    else if e.hasRoutes then Itoa(e.totalRoutes) + " routes across " + Itoa(e.blueprints) + " blueprints"
    else "no HTTP routes detected"
  }

  function HubNames(hubs: seq<Hub>): seq<string> {
    seq(|hubs|, i requires 0 <= i < |hubs| => hubs[i].name)
  }

  // ---------------------------------------------------------------- blockers

  function HighHubs(hubs: seq<Hub>): nat {
    if hubs == [] then 0 else HighHubs(hubs[..|hubs| - 1]) + if hubs[|hubs| - 1].fanIn >= 10 then 1 else 0
  }

  /** The blockers in their fixed order; each appears exactly under its condition. */
  function Blockers(domainEmpty: bool, noClusters: bool, highHubs: nat, gods: nat, highCycles: nat): seq<Blocker> {
    (if domainEmpty then [Blocker("blocker.no_domain_layer", None)] else []) +
    (if noClusters then [Blocker("blocker.no_service_boundaries", None)] else []) +
    (if highHubs > 0 then [Blocker("blocker.shared_state", Some(highHubs))] else []) +
    (if gods > 0 then [Blocker("blocker.god_modules", Some(gods))] else []) +
    (if highCycles > 0 then [Blocker("blocker.cycles", Some(highCycles))] else [])
  }

  function BandOf(value: int): Band {
    if value >= 70 then Good else if value >= 40 then MediumBand else Bad
  }

  // ---------------------------------------------------------------- the method

  method FindGods(cards: seq<RichCard>) returns (gods: seq<string>)
    ensures gods == Gods(cards)
  {
    gods := [];
    for i := 0 to |cards|
      invariant gods == Gods(cards[..i])
    {
      assert cards[..i + 1][..i] == cards[..i];
      if |cards[i].card.functions| >= GOD_FUNCTIONS && cards[i].isHub {
        gods := gods + [cards[i].card.name];
      }
    }
    assert cards[..|cards|] == cards;
  }

  function HubFinding(h: Hub): Finding {
    Finding("shared_state", if h.fanIn >= 10 then "high" else if h.fanIn >= 5 then "medium" else "low",
      "finding.shared_state.hub",
      map["module" := h.name, "state_count" := Itoa(|h.state|), "fan_in" := Itoa(h.fanIn)], [h.name])
  }

  /** The position of the first card of a module; the number of cards when there is none. */
  function FirstCard(cards: seq<RichCard>, name: string): (k: nat)
    ensures k <= |cards|
    ensures k < |cards| ==> cards[k].card.name == name
    ensures forall j :: 0 <= j < k ==> cards[j].card.name != name
  {
    if cards == [] || cards[0].card.name == name then 0 else 1 + FirstCard(cards[1..], name)
  }

  /** The figures are those of the first card that has the module's name. */
  function GodFinding(cards: seq<RichCard>, name: string): Finding {
    var k := FirstCard(cards, name);
    var functions := if k < |cards| then |cards[k].card.functions| else 0;
    var fanIn := if k < |cards| then cards[k].fanIn else 0;
    Finding("god_module", "high", "finding.god_module",
      map["module" := name, "fn_count" := Itoa(functions), "fan_in" := Itoa(fanIn)], [name])
  }

  const NO_DOMAIN_FINDING := Finding("topology", "medium", "finding.topology.no_domain_layer", map[], [])

  function CycleEntry(c: CycleFinding): Finding {
    Finding("cycle", if c.severity == High then "high" else "medium",
      "finding.cycle", map["n" := Itoa(c.size)], c.modules)
  }

  function HubFindings(hubs: seq<Hub>): seq<Finding> {
    seq(|hubs|, i requires 0 <= i < |hubs| => HubFinding(hubs[i]))
  }

  function GodFindings(cards: seq<RichCard>, gods: seq<string>): seq<Finding> {
    seq(|gods|, i requires 0 <= i < |gods| => GodFinding(cards, gods[i]))
  }

  function CycleEntries(cycles: seq<CycleFinding>): seq<Finding> {
    seq(|cycles|, i requires 0 <= i < |cycles| => CycleEntry(cycles[i]))
  }

  /** The findings of a digest whose graph has the given cycles. */
  function AllFindings(d: Digest, cycles: seq<CycleFinding>): seq<Finding> {
    HubFindings(d.hubs) + GodFindings(d.cards, Gods(d.cards)) + (if d.domainEmpty then [NO_DOMAIN_FINDING] else []) +
      CycleEntries(cycles)
  }

  method FindHubs(hubs: seq<Hub>) returns (findings: seq<Finding>, high: nat)
    ensures findings == HubFindings(hubs)
    ensures high == HighHubs(hubs)
  {
    findings, high := [], 0;
    for i := 0 to |hubs|
      invariant findings == HubFindings(hubs[..i])
      invariant high == HighHubs(hubs[..i])
    {
      assert hubs[..i + 1][..i] == hubs[..i];
      var f := HubFinding(hubs[i]);
      assert HubFindings(hubs[..i + 1]) == HubFindings(hubs[..i]) + [f];
      if f.severity == "high" {
        high := high + 1;
      }
      findings := findings + [f];
    }
    assert hubs[..|hubs|] == hubs;
  }

  /** The running total: every signal takes its penalty off and records it. */
  method Penalise(d: Digest, gods: seq<string>) returns (total: int, signals: seq<Signal>)
    requires gods == Gods(d.cards)
    ensures SignalsOf(d, signals) && total == 100 - PenaltySum(signals)
  {
    hide DomainPenalty, ClusterPenalty, HubPenalty, GodPenalty, RoutingPenalty;
    hide DomainDetail, ClusterDetail, HubDetail, GodDetail, RoutingDetail, HubNames, Gods;
    total, signals := 100, [];
    var p := DomainPenalty(d);
    total, signals := total - p, signals + [Signal("domain_presence", p, DomainDetail(d), [])];
    p := ClusterPenalty(|d.clusters|);
    total, signals := total - p, signals + [Signal("cluster_count", p, ClusterDetail(|d.clusters|), [])];
    p := HubPenalty(d);
    total, signals := total - p, signals + [Signal("hub_severity", p, HubDetail(d), HubNames(d.hubs))];
    p := GodPenalty(|gods|);
    total, signals := total - p, signals + [Signal("god_modules", p, GodDetail(gods), gods)];
    p := RoutingPenalty(d.entryPoints);
    total, signals := total - p, signals + [Signal("routing_layout", p, RoutingDetail(d.entryPoints), [])];
    FiveSum(signals);
  }

  function PenaltySum(signals: seq<Signal>): int {
    if signals == [] then 0 else PenaltySum(signals[..|signals| - 1]) + signals[|signals| - 1].penalty
  }

  lemma FiveSum(s: seq<Signal>)
    requires |s| == 5
    ensures PenaltySum(s) == s[0].penalty + s[1].penalty + s[2].penalty + s[3].penalty + s[4].penalty
  {
    assert s[..4][..3] == s[..3] && s[..3][..2] == s[..2] && s[..2][..1] == s[..1] && s[..1][..0] == [];
    assert PenaltySum(s[..1]) == s[0].penalty;
    assert PenaltySum(s[..2]) == s[0].penalty + s[1].penalty;
    assert PenaltySum(s[..3]) == s[0].penalty + s[1].penalty + s[2].penalty;
  }

  ghost predicate SignalsOf(d: Digest, signals: seq<Signal>) {
    && |signals| == 5
    && signals[0] == Signal("domain_presence", DomainPenalty(d), DomainDetail(d), [])
    && signals[1] == Signal("cluster_count", ClusterPenalty(|d.clusters|), ClusterDetail(|d.clusters|), [])
    && signals[2] == Signal("hub_severity", HubPenalty(d), HubDetail(d), HubNames(d.hubs))
    && signals[3] == Signal("god_modules", GodPenalty(|Gods(d.cards)|), GodDetail(Gods(d.cards)), Gods(d.cards))
    && signals[4] == Signal("routing_layout", RoutingPenalty(d.entryPoints), RoutingDetail(d.entryPoints), [])
  }

  /** The penalties never exceed 100 together, so the clamp at zero never changes the total. */
  lemma PenaltiesBounded(d: Digest, signals: seq<Signal>)
    requires SignalsOf(d, signals)
    ensures 0 <= PenaltySum(signals) <= 100
    ensures forall i :: 0 <= i < |signals| ==> signals[i].penalty >= 0
  {
    hide DomainDetail, ClusterDetail, HubDetail, GodDetail, RoutingDetail, HubNames, Gods;
    FiveSum(signals);
  }

  /** `Score`. The value is exactly 100 minus the five penalties; the cycle blocker counts the strong
      components of the graph with three members or a domain module, and the cycle findings are exactly
      the components of two members or more. */
  method Score(d: Digest) returns (s: MigrabilityScore)
    ensures SignalsOf(d, s.breakdown)
    ensures s.value == 100 - PenaltySum(s.breakdown) && 0 <= s.value <= 100
    ensures s.band == BandOf(s.value)
    ensures s.blockers == Blockers(d.domainEmpty, d.clusters == [], HighHubs(d.hubs), |Gods(d.cards)|,
      |HighComponents(d.edges, Elements(d.domain))|)
    ensures exists cycles :: ReportOf(d.edges, Elements(d.domain), cycles) && s.findings == AllFindings(d, cycles)
  {
    hide SignalsOf, PenaltySum, Gods, HighHubs, Blockers, ReportOf, HighCount, HighComponents, HubFinding, BandOf;
    var gods := FindGods(d.cards);
    var total, signals := Penalise(d, gods);
    PenaltiesBounded(d, signals);
    if total < 0 {
      total := 0;
    }
    var hubFindings, highHubs := FindHubs(d.hubs);
    var domainSet := set m | m in d.domain;
    assert domainSet == Elements(d.domain);
    var cycles := DetectCycles(d.edges, domainSet);
    var highCycles := CountHigh(cycles);
    HighCountMeaning(d.edges, domainSet, cycles);
    var findings := OtherFindings(hubFindings, d.cards, gods, d.domainEmpty, cycles);
    assert findings == AllFindings(d, cycles);
    s := MigrabilityScore(total, signals, BandOf(total), findings,
      Blockers(d.domainEmpty, d.clusters == [], highHubs, |gods|, highCycles));
  }

  /** The cycle blocker of a digest is that of the graph it was made from: sorting the edges does not
      change it. */
  lemma CycleCountOfGraph(edges: seq<DigestEdge>, sorted: seq<DigestEdge>, domain: set<string>)
    requires multiset(sorted) == multiset(edges)
    ensures HighComponents(sorted, domain) == HighComponents(edges, domain)
  {
    hide HighComponents, SameLinks;
    PermutationKeeps(sorted, edges);
    SameEdgesSameLinks(sorted, edges);
    HighComponentsStable(sorted, edges, domain);
  }

  /** God-module, topology and cycle findings, after the hub findings. */
  method OtherFindings(start: seq<Finding>, cards: seq<RichCard>, gods: seq<string>, domainEmpty: bool,
      cycles: seq<CycleFinding>)
    returns (r: seq<Finding>)
    ensures r == start + GodFindings(cards, gods) + (if domainEmpty then [NO_DOMAIN_FINDING] else []) +
      CycleEntries(cycles)
  {
    r := start;
    for i := 0 to |gods|
      invariant r == start + GodFindings(cards, gods[..i])
    {
      var f := DescribeGod(cards, gods[i]);
      assert GodFindings(cards, gods[..i + 1]) == GodFindings(cards, gods[..i]) + [f];
      r := r + [f];
    }
    assert gods[..|gods|] == gods;
    if domainEmpty {
      r := r + [NO_DOMAIN_FINDING];
    }
    var base := r;
    for i := 0 to |cycles|
      invariant r == base + CycleEntries(cycles[..i])
    {
      assert CycleEntries(cycles[..i + 1]) == CycleEntries(cycles[..i]) + [CycleEntry(cycles[i])];
      r := r + [CycleEntry(cycles[i])];
    }
    assert cycles[..|cycles|] == cycles;
  }

  /** The look-up of a god-module's card. */
  method DescribeGod(cards: seq<RichCard>, name: string) returns (f: Finding)
    ensures f == GodFinding(cards, name)
  {
    var functions, fanIn := 0, 0;
    var i := 0;
    while i < |cards|
      invariant 0 <= i <= |cards| && functions == 0 && fanIn == 0
      invariant forall j :: 0 <= j < i ==> cards[j].card.name != name
    {
      if cards[i].card.name == name {
        functions, fanIn := |cards[i].card.functions|, cards[i].fanIn;
        break;
      }
      i := i + 1;
    }
    assert i == FirstCard(cards, name);
    f := Finding("god_module", "high", "finding.god_module",
      map["module" := name, "fn_count" := Itoa(functions), "fan_in" := Itoa(fanIn)], [name]);
  }

  lemma {:induction false} GodOrigin(cards: seq<RichCard>, name: string) returns (k: nat)
    requires name in Gods(cards)
    ensures k < |cards| && cards[k].card.name == name && cards[k].isHub && |cards[k].card.functions| >= GOD_FUNCTIONS
  {
    var n := |cards| - 1;
    if name in Gods(cards[..n]) {
      k := GodOrigin(cards[..n], name);
    } else {
      k := n;
    }
  }

  /** When card names are distinct, the figures printed for a god-module are those of the card that made
      it one. */
  lemma GodFindingOfItsCard(cards: seq<RichCard>, name: string) returns (k: nat)
    requires name in Gods(cards) && forall i, j :: 0 <= i < j < |cards| ==> cards[i].card.name != cards[j].card.name
    ensures k < |cards| && cards[k].card.name == name && cards[k].isHub && |cards[k].card.functions| >= GOD_FUNCTIONS
    ensures GodFinding(cards, name).params ==
      map["module" := name, "fn_count" := Itoa(|cards[k].card.functions|), "fan_in" := Itoa(cards[k].fanIn)]
  {
    hide Itoa, Gods;
    k := GodOrigin(cards, name);
    assert k == FirstCard(cards, name);
  }
}
