/** The coherence guardrail and the stages behind it: digest, score, plan and approval agree when it
    fires. */
module Guardrail {
  import opened Ordering
  import opened Wrappers
  import opened Cycles
  import opened CycleFindings
  import opened Clusterer
  import opened Distiller
  import opened Scorer
  import opened Services
  import opened Plans
  import opened ActionPlan
  import opened DetailText
  import opened Lifecycle
  import opened LifecycleSafety

  // ---------------------------------------------------------------- the domain sub-graph

  function DomainEdges(edges: seq<DigestEdge>, domain: seq<string>): seq<DigestEdge> {
    if edges == [] then []
    else
      var e := edges[|edges| - 1];
      DomainEdges(edges[..|edges| - 1], domain) + if e.from in domain && e.to in domain then [e] else []
  }

  method DomainSubgraph(edges: seq<DigestEdge>, domain: seq<string>) returns (r: seq<DigestEdge>)
    ensures r == DomainEdges(edges, domain)
  {
    var names := set m | m in domain;
    r := [];
    for i := 0 to |edges|
      invariant r == DomainEdges(edges[..i], domain)
    {
      assert edges[..i + 1][..i] == edges[..i];
      if edges[i].from in names && edges[i].to in names {
        r := r + [edges[i]];
      }
    }
    assert edges[..|edges|] == edges;
  }

  /** Exactly the edges with both ends in the domain remain. */
  lemma {:induction false} DomainEdgesMembers(edges: seq<DigestEdge>, domain: seq<string>, e: DigestEdge)
    ensures e in DomainEdges(edges, domain) <==> e in edges && e.from in domain && e.to in domain
  {
    if edges != [] {
      var n := |edges| - 1;
      DomainEdgesMembers(edges[..n], domain, e);
      assert edges == edges[..n] + [edges[n]];
    }
  }

  // ---------------------------------------------------------------- coherence

  /** The last cluster that lists a module, or -1. */
  function ClusterOf(clusters: seq<Cluster>, m: string): (i: int)
    ensures -1 <= i < |clusters|
    ensures i >= 0 ==> m in clusters[i].modules
    ensures forall j :: i < j < |clusters| ==> m !in clusters[j].modules
  {
    if clusters == [] then -1
    else if m in clusters[|clusters| - 1].modules then |clusters| - 1
    else ClusterOf(clusters[..|clusters| - 1], m)
  }

  /** Some edge connects two modules that are assigned to cluster `i`. */
  ghost predicate HasInternal(edges: seq<DigestEdge>, clusters: seq<Cluster>, i: nat) {
    exists k :: 0 <= k < |edges| && ClusterOf(clusters, edges[k].from) == i && ClusterOf(clusters, edges[k].to) == i
  }

  function Trues(flags: seq<bool>): nat {
    if flags == [] then 0 else Trues(flags[..|flags| - 1]) + if flags[|flags| - 1] then 1 else 0
  }

  ghost predicate Flags(edges: seq<DigestEdge>, clusters: seq<Cluster>, flags: seq<bool>) {
    |flags| == |clusters| && forall i :: 0 <= i < |flags| ==> (flags[i] <==> HasInternal(edges, clusters, i))
  }

  /** The clusters with an internal edge. */
  ghost function Coherent(edges: seq<DigestEdge>, clusters: seq<Cluster>): set<nat> {
    set i: nat | i < |clusters| && HasInternal(edges, clusters, i)
  }

  /** Strictly fewer than half of the clusters have an internal edge. */
  ghost predicate Incoherent(edges: seq<DigestEdge>, clusters: seq<Cluster>) {
    clusters != [] && 2 * |Coherent(edges, clusters)| < |clusters|
  }

  method AssignModules(clusters: seq<Cluster>) returns (r: map<string, nat>)
    ensures forall m :: (if m in r then r[m] else -1) == ClusterOf(clusters, m)
  {
    r := map[];
    for i := 0 to |clusters|
      invariant forall m :: (if m in r then r[m] else -1) == ClusterOf(clusters[..i], m)
    {
      assert clusters[..i + 1][..i] == clusters[..i];
      var before := r;
      for j := 0 to |clusters[i].modules|
        invariant forall m ::
          (if m in r then r[m] else -1) ==
          if m in clusters[i].modules[..j] then i else if m in before then before[m] else -1
      {
        r := r[clusters[i].modules[j] := i];
        assert clusters[i].modules[..j + 1] == clusters[i].modules[..j] + [clusters[i].modules[j]];
      }
      assert clusters[i].modules[..|clusters[i].modules|] == clusters[i].modules;
    }
    assert clusters[..|clusters|] == clusters;
  }

  lemma FlagsStep(edges: seq<DigestEdge>, e: DigestEdge, clusters: seq<Cluster>, flags: seq<bool>)
    requires Flags(edges, clusters, flags)
    ensures var i := ClusterOf(clusters, e.from);
      Flags(edges + [e], clusters,
        if 0 <= i < |flags| && i == ClusterOf(clusters, e.to) then flags[i := true] else flags)
  {
    hide ClusterOf;
    var all := edges + [e];
    assert all[|edges|] == e && forall k :: 0 <= k < |edges| ==> all[k] == edges[k];
    forall i: nat ensures HasInternal(all, clusters, i) <==>
      HasInternal(edges, clusters, i) || (ClusterOf(clusters, e.from) == i && ClusterOf(clusters, e.to) == i)
    {
      if HasInternal(edges, clusters, i) {
        var k :| 0 <= k < |edges| && ClusterOf(clusters, edges[k].from) == i && ClusterOf(clusters, edges[k].to) == i;
        assert all[k] == edges[k];
      }
      if HasInternal(all, clusters, i) {
        var k :| 0 <= k < |all| && ClusterOf(clusters, all[k].from) == i && ClusterOf(clusters, all[k].to) == i;
        if k < |edges| {
          assert edges[k] == all[k];
        }
      }
    }
    hide HasInternal;
  }

  method MarkInternal(edges: seq<DigestEdge>, clusters: seq<Cluster>) returns (flags: seq<bool>)
    ensures Flags(edges, clusters, flags)
  {
    var clusterOf := AssignModules(clusters);
    hide ClusterOf, Flags;
    flags := seq(|clusters|, i => false);
    NoFlags(clusters, flags);
    assert edges[..0] == [];
    for k := 0 to |edges|
      invariant |flags| == |clusters| && Flags(edges[..k], clusters, flags)
    {
      var e := edges[k];
      assert edges[..k + 1] == edges[..k] + [e];
      FlagsStep(edges[..k], e, clusters, flags);
      if e.from in clusterOf && e.to in clusterOf && clusterOf[e.from] == clusterOf[e.to] {
        flags := flags[clusterOf[e.from] := true];
      }
    }
    assert edges[..|edges|] == edges;
  }

  lemma NoFlags(clusters: seq<Cluster>, flags: seq<bool>)
    requires flags == seq(|clusters|, i => false)
    ensures Flags([], clusters, flags)
  {
  }

  lemma {:induction false} TruesCount(flags: seq<bool>)
    ensures Trues(flags) == |set i: nat | i < |flags| && flags[i]|
  {
    if flags != [] {
      var n := |flags| - 1;
      var front := flags[..n];
      TruesCount(front);
      var a := set i: nat | i < |front| && front[i];
      var b := set i: nat | i < |flags| && flags[i];
      assert b == if flags[n] then a + {n} else a;
    }
  }

  /** `IsIncoherentFallback`. */
  method IsIncoherentFallback(edges: seq<DigestEdge>, clusters: seq<Cluster>) returns (r: bool)
    ensures r <==> Incoherent(edges, clusters)
  {
    hide HasInternal, Trues;
    if |clusters| == 0 {
      return false;
    }
    var flags := MarkInternal(edges, clusters);
    var coherent := CountTrue(flags);
    TruesCount(flags);
    assert (set i: nat | i < |flags| && flags[i]) == Coherent(edges, clusters);
    r := coherent * 2 < |clusters|;
  }

  method CountTrue(flags: seq<bool>) returns (n: nat)
    ensures n == Trues(flags)
  {
    n := 0;
    for i := 0 to |flags|
      invariant n == Trues(flags[..i])
    {
      assert flags[..i + 1][..i] == flags[..i];
      if flags[i] {
        n := n + 1;
      }
    }
    assert flags[..|flags|] == flags;
  }

  ghost predicate DisjointClusters(clusters: seq<Cluster>) {
    forall i, j, m :: 0 <= i < j < |clusters| && m in clusters[i].modules ==> m !in clusters[j].modules
  }

  /** For disjoint clusters, being assigned to a cluster is being listed in it, so coherence counts the
      clusters that contain both ends of some edge. */
  lemma InternalMeansInside(edges: seq<DigestEdge>, clusters: seq<Cluster>, i: nat)
    requires DisjointClusters(clusters) && i < |clusters|
    ensures HasInternal(edges, clusters, i) <==>
      exists k :: 0 <= k < |edges| && edges[k].from in clusters[i].modules && edges[k].to in clusters[i].modules
  {
    hide ClusterOf;
    forall m ensures ClusterOf(clusters, m) == i <==> m in clusters[i].modules {
      var j := ClusterOf(clusters, m);
      assert m in clusters[i].modules ==> j >= i;
    }
  }

  /** The incoherent clusterings are those in which more clusters lack an internal edge than have one. */
  lemma IncoherentMeansMostLack(edges: seq<DigestEdge>, clusters: seq<Cluster>)
    ensures Incoherent(edges, clusters) <==>
      |set i: nat | i < |clusters| && !HasInternal(edges, clusters, i)| >
        |set i: nat | i < |clusters| && HasInternal(edges, clusters, i)|
  {
    hide HasInternal;
    Partition(edges, clusters, |clusters|);
    assert (set i: nat | i < |clusters| && HasInternal(edges, clusters, i)) == Coherent(edges, clusters);
  }

  lemma {:induction false} Partition(edges: seq<DigestEdge>, clusters: seq<Cluster>, n: nat)
    ensures |set i: nat | i < n && HasInternal(edges, clusters, i)| +
      |set i: nat | i < n && !HasInternal(edges, clusters, i)| == n
  {
    hide HasInternal;
    var with := set i: nat | i < n && HasInternal(edges, clusters, i);
    var without := set i: nat | i < n && !HasInternal(edges, clusters, i);
    if n == 0 {
      assert with == {} && without == {};
    } else {
      Partition(edges, clusters, n - 1);
      var with' := set i: nat | i < n - 1 && HasInternal(edges, clusters, i);
      var without' := set i: nat | i < n - 1 && !HasInternal(edges, clusters, i);
      if HasInternal(edges, clusters, n - 1) {
        assert with == with' + {n - 1} && without == without';
      } else {
        assert with == with' && without == without' + {n - 1};
      }
    }
  }

  /** The service of a module is named after the cluster that the coherence test assigns it to. */
  lemma {:induction false} ServiceOfItsCluster(clusters: seq<Cluster>, m: string)
    ensures var i := ClusterOf(clusters, m);
      ServiceOf(clusters, m) == if i < 0 then "" else ServiceName(clusters[i].name)
  {
    hide ServiceName;
    if clusters != [] && m !in clusters[|clusters| - 1].modules {
      ServiceOfItsCluster(clusters[..|clusters| - 1], m);
    }
  }

  // ---------------------------------------------------------------- the guardrail

  /** The classification and the clustering that the stages share by pointer. */
  class Stage {
    var cls: Classification
    var result: ClusteringResult

    constructor (cls: Classification, result: ClusteringResult)
      ensures this.cls == cls && this.result == result
    {
      this.cls := cls;
      this.result := result;
    }

    /** `ApplyCoherenceGuardrail`: fires exactly on an incoherent fallback, and then clears domain and
        clusters; a fallback is always low confidence. */
    method ApplyCoherenceGuardrail(domainGraph: seq<DigestEdge>) returns (fired: bool)
      modifies this
      ensures fired <==> old(cls).structuralFallback && Incoherent(domainGraph, old(result).clusters)
      ensures result.lowConfidence == (old(result).lowConfidence || old(cls).structuralFallback)
      ensures fired ==> result.clusters == [] && cls == old(cls).(domain := [])
      ensures !fired ==> result.clusters == old(result).clusters && cls == old(cls)
    {
      hide Incoherent;
      if cls.structuralFallback {
        result := result.(lowConfidence := true);
      }
      fired := false;
      if cls.structuralFallback && result.lowConfidence {
        var incoherent := IsIncoherentFallback(domainGraph, result.clusters);
        if incoherent {
          result := result.(clusters := []);
          cls := cls.(domain := []);
          fired := true;
        }
      }
    }
  }

  // ---------------------------------------------------------------- the plan

  /** The plan is refused at approval, and once it is written for a migration in DESIGNING, no sequence of
      events brings that migration to GENERATING, READY or PUSHED. */
  ghost predicate DeadEnd(plan: Plan) {
    && (forall m: Migration, saved :: m.plan == Some(plan) ==>
          AfterApprove(m, true, saved) == m && AnswerApprove(m, true, saved) in {InvalidTransition, NoBoundaries})
    && (forall r: Repository, id, evs :: Visible(r, id) && r[id].phase == Designing ==>
          PhaseOf(Replay(PortContract, Next(PortContract, r, PlanWritten(id, plan)), evs), id) !in
            {Generating, Ready, Pushed})
  }

  lemma NoBoundariesDeadEnd(plan: Plan)
    requires plan.noServiceBoundaries
    ensures DeadEnd(plan)
  {
    forall r: Repository, id, evs | Visible(r, id) && r[id].phase == Designing
      ensures PhaseOf(Replay(PortContract, Next(PortContract, r, PlanWritten(id, plan)), evs), id) !in
        {Generating, Ready, Pushed}
    {
      BlockedPlanNeverGenerates(Next(PortContract, r, PlanWritten(id, plan)), evs, id);
    }
  }

  /** What digest and score say when there is neither domain nor boundary. */
  ghost predicate NothingReported(d: Digest, s: MigrabilityScore) {
    && d.domainEmpty && d.domain == [] && d.noServiceBoundaries && d.clusters == []
    && s.value <= 35 && s.band == Bad
    && Blocker("blocker.no_domain_layer", None) in s.blockers
    && Blocker("blocker.no_service_boundaries", None) in s.blockers
  }

  lemma NothingScores(d: Digest, s: MigrabilityScore)
    requires d.domainEmpty && d.clusters == [] && SignalsOf(d, s.breakdown) && s.value == 100 - PenaltySum(s.breakdown)
    ensures s.value <= 35 && BandOf(s.value) == Bad
  {
    hide DomainDetail, ClusterDetail, HubDetail, GodDetail, RoutingDetail, HubNames, Gods;
    FiveSum(s.breakdown);
  }

  lemma NothingBlocks(highHubs: nat, gods: nat, cycles: nat)
    ensures Blocker("blocker.no_domain_layer", None) in Blockers(true, true, highHubs, gods, cycles)
    ensures Blocker("blocker.no_service_boundaries", None) in Blockers(true, true, highHubs, gods, cycles)
  {
    var b := Blockers(true, true, highHubs, gods, cycles);
    assert b[0] == Blocker("blocker.no_domain_layer", None) && b[1] == Blocker("blocker.no_service_boundaries", None);
  }

  lemma EmptyListing(a: seq<string>)
    requires Listing(a, [])
    ensures a == []
  {
    assert |multiset(a)| == |a|;
  }

  /** Loading the module cards may fail, and then there is no digest; deriving the contracts needs a
      workspace, which may not be had. */
  datatype Load = LoadFailed | Loaded(data: Option<SummaryCards>)

  datatype Derivation = NoWorkspace | Derived(contracts: seq<Contract>)

  datatype Report = Report(digest: Digest, score: MigrabilityScore)

  datatype RunResult = Planned(plan: Plan) | PrefixRefused | WorkspaceRefused

  /** Digest and score of one run. */
  method ReportOn(edges: seq<DigestEdge>, cls: Classification, result: ClusteringResult, data: Option<SummaryCards>,
      topK: int)
    returns (r: Report)
    ensures SignalsOf(r.digest, r.score.breakdown) && r.score.value == 100 - PenaltySum(r.score.breakdown)
    ensures |r.digest.clusters| == |result.clusters|
    ensures cls.domain == [] && result.clusters == [] ==> NothingReported(r.digest, r.score)
  {
    hide SignalsOf, PenaltySum, HighComponents, HighHubs, Gods, CardsDistilled, BandOf, Blockers;
    hide Listing, AllFindings, ReportOf, EdgeLe, StringLe;
    ghost var order;
    var d;
    d, order := Distill(edges, Some(cls), Some(result), data, topK);
    var s := Score(d);
    r := Report(d, s);
    if cls.domain == [] && result.clusters == [] {
      EmptyListing(d.domain);
      NothingScores(d, s);
      NothingBlocks(HighHubs(d.hubs), |Gods(d.cards)|, |HighComponents(d.edges, Elements(d.domain))|);
    }
  }

  /** Stages 4, 6 and 7: from clusters to the plan. */
  method MakePlan(clusters: seq<Cluster>, edges: seq<DigestEdge>, lowConfidence: bool,
      allocate: string -> (bool, string), derived: Derivation)
    returns (r: RunResult)
    ensures r.Planned? <==>
      (forall i :: 0 <= i < |clusters| ==> allocate(ServiceName(clusters[i].name)).0) &&
        (clusters == [] || derived.Derived?)
    ensures r.Planned? ==> r.plan.lowConfidence == lowConfidence
    ensures r.Planned? ==> PlanExplained(clusters, edges, if derived.Derived? then derived.contracts else [], r.plan)
    ensures r.Planned? ==> |r.plan.services| == |clusters| && forall i :: 0 <= i < |clusters| ==>
      r.plan.services[i].prefix == allocate(ServiceName(clusters[i].name)).1
  {
    hide CandidateOf, PlanExplained, ContractKeys, Augmented, AllCouplings, StringLe, KeyLe, PlanCouplingLe,
      ServiceName;
    var outcome := Characterize(clusters, edges, allocate);
    if outcome.AllocationFailed? {
      return PrefixRefused;
    }
    var candidates := outcome.candidates;
    if |candidates| == 0 {
      var none := AssemblePlan([], [], [], lowConfidence);
      NothingExplained(edges, if derived.Derived? then derived.contracts else [], lowConfidence);
      return Planned(none);
    }
    if derived.NoWorkspace? {
      return WorkspaceRefused;
    }
    var keys := CollectForeignKeys(derived.contracts);
    var couplings := GatherCouplings(candidates);
    var final := AugmentDataDeps(candidates, keys);
    var plan := AssemblePlan(final, keys, couplings, lowConfidence);
    AssembledExplained(clusters, edges, candidates, derived.contracts, keys, final, couplings, lowConfidence);
    PrefixesKept(candidates, keys, final, couplings, lowConfidence);
    assert final != [] by { AugmentedCount(candidates, keys, final); }
    r := Planned(plan);
  }

  lemma AugmentedCount(candidates: seq<Candidate>, keys: seq<ForeignKey>, r: seq<Candidate>)
    requires Augmented(candidates, keys, r)
    ensures |r| == |candidates|
  {
  }

  /** Stages 3 to 7 of the pipeline after clustering: guardrail, digest, score, characterisation, plan.
      The plan says what clusters, domain edges and contracts say. When the guardrail fires all stages
      agree, the plan is refused at approval, and the migration never gets past it. */
  method RunStages(edges: seq<DigestEdge>, stage: Stage, load: Load, topK: int, allocate: string -> (bool, string),
      derived: Derivation)
    returns (fired: bool, report: Option<Report>, r: RunResult)
    modifies stage
    ensures fired <==>
      old(stage.cls).structuralFallback &&
      Incoherent(DomainEdges(edges, old(stage.cls).domain), old(stage.result).clusters)
    ensures stage.result.clusters == if fired then [] else old(stage.result).clusters
    ensures report.Some? <==> load.Loaded?
    ensures report.Some? ==> SignalsOf(report.value.digest, report.value.score.breakdown)
    ensures report.Some? ==> report.value.score.value == 100 - PenaltySum(report.value.score.breakdown)
    ensures r.Planned? <==>
      && (forall i :: 0 <= i < |stage.result.clusters| ==> allocate(ServiceName(stage.result.clusters[i].name)).0)
      && (stage.result.clusters == [] || derived.Derived?)
    ensures r.Planned? ==> PlanExplained(stage.result.clusters, DomainEdges(edges, old(stage.cls).domain),
      if derived.Derived? then derived.contracts else [], r.plan)
    ensures fired && report.Some? ==> NothingReported(report.value.digest, report.value.score)
    ensures fired ==> r.Planned? && r.plan.services == [] && r.plan.noServiceBoundaries && DeadEnd(r.plan)
  {
    hide SignalsOf, PenaltySum, Incoherent, NothingReported, DeadEnd, ServiceName, ServiceExplained,
      CouplingsExplained, DomainEdges;
    var domainGraph := DomainSubgraph(edges, stage.cls.domain);
    fired := stage.ApplyCoherenceGuardrail(domainGraph);
    report := None;
    if load.Loaded? {
      var made := ReportOn(edges, stage.cls, stage.result, load.data, topK);
      report := Some(made);
    }
    r := MakePlan(stage.result.clusters, domainGraph, stage.result.lowConfidence, allocate, derived);
    if fired {
      NoBoundariesDeadEnd(r.plan);
    }
  }

  /** The roadmap of a run in which the guardrail fired: whatever order the sort leaves, the first step is
      to extract a domain, and every prerequisite comes before the step that waits for it. */
  lemma FiredRoadmapOrdered(d: Digest, s: MigrabilityScore, infra: seq<string>, ranked: seq<Entry>,
      actions: seq<ActionItem>)
    requires d.domainEmpty && d.clusters == [] && SignalsOf(d, s.breakdown)
    requires PlanOf(s.breakdown, infra, ranked, actions)
    ensures LinksBackward(actions)
    ensures actions != [] && actions[0].kind == ExtractDomain && actions[0].impact == 40
  {
    hide DomainDetail, ClusterDetail, HubDetail, GodDetail, RoutingDetail, HubNames, Gods, HubPenalty, LinksBackward;
    hide Entries, Link, ModuleList, ParseHubModule, ParseGodModules;
    ScoredPrerequisitesIff(d, s.breakdown);
    CostlierFirst(s.breakdown, infra, ranked, actions);
    hide PrerequisitesCostMore;
    CostliestFirst(s.breakdown, infra, ranked);
  }

  lemma CostliestFirst(signals: seq<Signal>, infra: seq<string>, ranked: seq<Entry>)
    requires multiset(ranked) == multiset(Entries(signals, infra)) && SortedBy(ranked, ImpactLe)
    requires |signals| > 0 && signals[0].name == "domain_presence" && signals[0].penalty == 40
    requires forall i :: 1 <= i < |signals| ==> signals[i].penalty < 40
    ensures ranked != [] && ranked[0].item.kind == ExtractDomain && ranked[0].item.impact == 40
  {
    hide Entries;
    PermutationKeeps(ranked, Entries(signals, infra));
    ActiveSignalHasEntry(signals, infra, 0);
    var e :| e in Entries(signals, infra) && e.signal == signals[0].name && e.item.impact == signals[0].penalty;
    var k :| 0 <= k < |ranked| && ranked[k] == e;
    assert k > 0 ==> ImpactLe(ranked[0], ranked[k]);
    EntryOrigin(signals, infra, ranked[0]);
    var i :| 0 <= i < |signals| && signals[i].name == ranked[0].signal && signals[i].penalty == ranked[0].item.impact;
    assert i == 0;
  }
}
