/** Stage 7 of the decomposition pipeline: the restructure plan assembled from candidates, foreign keys
    and couplings. */
module Plans {
  import opened Ordering
  import opened Cycles
  import opened Clusterer
  import opened Services
  import opened Text

  datatype ProposedService = ProposedService(
    name: string, prefix: string, resources: seq<string>, deps: seq<string>, foreignKeys: seq<ForeignKey>)

  datatype Plan = Plan(
    services: seq<ProposedService>, couplings: seq<Coupling>, lowConfidence: bool, noServiceBoundaries: bool,
    explanation: string)

  const NO_BOUNDARIES := "No service boundaries were found."

  /** The foreign keys of one owner, in order. */
  function OwnedKeys(keys: seq<ForeignKey>, owner: string): seq<ForeignKey> {
    if keys == [] then []
    else OwnedKeys(keys[..|keys| - 1], owner) + if keys[|keys| - 1].owner == owner then [keys[|keys| - 1]] else []
  }

  function Proposed(c: Candidate, keys: seq<ForeignKey>): ProposedService {
    ProposedService(c.name, c.prefix, c.resources, c.deps, OwnedKeys(keys, c.name))
  }

  function AssembledPlan(candidates: seq<Candidate>, keys: seq<ForeignKey>, couplings: seq<Coupling>,
      lowConfidence: bool): Plan
  {
    if candidates == [] then Plan([], [], lowConfidence, true, NO_BOUNDARIES)
    else
      Plan(seq(|candidates|, i requires 0 <= i < |candidates| => Proposed(candidates[i], keys)), couplings,
        lowConfidence, false, "")
  }

  /** The index of the foreign keys by owner. */
  method IndexKeys(keys: seq<ForeignKey>) returns (byOwner: map<string, seq<ForeignKey>>)
    ensures forall n :: (if n in byOwner then byOwner[n] else []) == OwnedKeys(keys, n)
  {
    byOwner := map[];
    for i := 0 to |keys|
      invariant forall n :: (if n in byOwner then byOwner[n] else []) == OwnedKeys(keys[..i], n)
    {
      assert keys[..i + 1][..i] == keys[..i];
      var fk := keys[i];
      byOwner := byOwner[fk.owner := (if fk.owner in byOwner then byOwner[fk.owner] else []) + [fk]];
    }
    assert keys[..|keys|] == keys;
  }

  method AssemblePlan(candidates: seq<Candidate>, keys: seq<ForeignKey>, couplings: seq<Coupling>, lowConfidence: bool)
    returns (p: Plan)
    ensures p == AssembledPlan(candidates, keys, couplings, lowConfidence)
  {
    if |candidates| == 0 {
      return Plan([], [], lowConfidence, true, NO_BOUNDARIES);
    }
    var byOwner := IndexKeys(keys);
    hide OwnedKeys;
    var services := [];
    for i := 0 to |candidates|
      invariant |services| == i && forall k :: 0 <= k < i ==> services[k] == Proposed(candidates[k], keys)
    {
      var c := candidates[i];
      var own := if c.name in byOwner then byOwner[c.name] else [];
      services := services + [ProposedService(c.name, c.prefix, c.resources, c.deps, own)];
    }
    p := Plan(services, couplings, lowConfidence, false, "");
  }

  // ---------------------------------------------------------------- couplings of all services

  function AllCouplings(candidates: seq<Candidate>): seq<Coupling> {
    if candidates == [] then []
    else AllCouplings(candidates[..|candidates| - 1]) + candidates[|candidates| - 1].couplings
  }

  predicate PlanCouplingLe(a: Coupling, b: Coupling) {
    StringLe(a.from + "." + a.source + "\U{2192}" + a.to, b.from + "." + b.source + "\U{2192}" + b.to)
  }

  lemma PlanCouplingLePreorder()
    ensures TotalPreorder(PlanCouplingLe)
  {
    hide StringLe;
    forall a, b ensures PlanCouplingLe(a, b) || PlanCouplingLe(b, a) {
      StringLeTotal(a.from + "." + a.source + "\U{2192}" + a.to, b.from + "." + b.source + "\U{2192}" + b.to);
    }
    forall a, b, c | PlanCouplingLe(a, b) && PlanCouplingLe(b, c) ensures PlanCouplingLe(a, c) {
      StringLeTransitive(a.from + "." + a.source + "\U{2192}" + a.to, b.from + "." + b.source + "\U{2192}" + b.to,
        c.from + "." + c.source + "\U{2192}" + c.to);
    }
  }

  /** The coupling part of `analyzeDataOwnership`. */
  method GatherCouplings(candidates: seq<Candidate>) returns (r: seq<Coupling>)
    ensures multiset(r) == multiset(AllCouplings(candidates)) && SortedBy(r, PlanCouplingLe)
  {
    var found := [];
    for i := 0 to |candidates|
      invariant found == AllCouplings(candidates[..i])
    {
      assert candidates[..i + 1][..i] == candidates[..i];
      found := found + candidates[i].couplings;
    }
    assert candidates[..|candidates|] == candidates;
    PlanCouplingLePreorder();
    hide PlanCouplingLe;
    r := Sort(found, PlanCouplingLe);
  }

  lemma {:induction false} AllCouplingsMembers(candidates: seq<Candidate>, x: Coupling)
    ensures x in AllCouplings(candidates) <==> exists i :: 0 <= i < |candidates| && x in candidates[i].couplings
  {
    if candidates != [] {
      var n := |candidates| - 1;
      AllCouplingsMembers(candidates[..n], x);
      if i :| 0 <= i < n && x in candidates[..n][i].couplings {
        assert x in candidates[i].couplings;
      }
      if i :| 0 <= i < n && x in candidates[i].couplings {
        assert x in candidates[..n][i].couplings;
      }
    }
  }

  // ---------------------------------------------------------------- what the plan says

  lemma {:induction false} OwnedKeysMembers(keys: seq<ForeignKey>, owner: string, k: ForeignKey)
    ensures k in OwnedKeys(keys, owner) <==> k in keys && k.owner == owner
  {
    if keys != [] {
      var n := |keys| - 1;
      OwnedKeysMembers(keys[..n], owner, k);
      assert keys == keys[..n] + [keys[n]];
    }
  }

  /** No later cluster gives a service of the same name. */
  ghost predicate LastNamed(clusters: seq<Cluster>, i: nat) {
    i < |clusters| && forall j :: i < j < |clusters| ==> ServiceName(clusters[j].name) != ServiceName(clusters[i].name)
  }

  /** What one proposed service says, in terms of clusters, edges and contracts only: its dependencies are
      the services that its model modules or its foreign-key fields lead into, and its foreign keys are
      those its contracts declare, and it owns the model modules of its cluster. */
  ghost predicate ServiceExplained(clusters: seq<Cluster>, edges: seq<DigestEdge>, contracts: seq<Contract>, i: nat,
      p: ProposedService)
    requires i < |clusters|
  {
    && p.name == ServiceName(clusters[i].name)
    && (forall t :: t in p.deps <==>
          ModelEdge(clusters, edges, p.name, t) ||
            (LastNamed(clusters, i) && t != "" && RefersTo(contracts, p.name, t)))
    && (forall k :: k in p.foreignKeys <==> Declared(contracts, k) && k.owner == p.name)
    && SortedBy(p.deps, StringLe) && NoDuplicates(p.deps) && p.name !in p.deps
    && SortedBy(p.resources, StringLe)
    && (forall m :: m in p.resources <==> m in clusters[i].modules && HasSuffix(m, ".models"))
  }

  /** Every coupling the plan lists is that of some edge leaving a service by another than a model module,
      and every such edge is listed. */
  ghost predicate CouplingsExplained(clusters: seq<Cluster>, edges: seq<DigestEdge>, couplings: seq<Coupling>) {
    forall x :: x in couplings <==>
      exists i :: 0 <= i < |clusters| && x.from == ServiceName(clusters[i].name) && OtherEdge(clusters, edges, x)
  }

  ghost predicate OtherEdge(clusters: seq<Cluster>, edges: seq<DigestEdge>, x: Coupling) {
    exists i :: 0 <= i < |edges| && Crosses(clusters, edges[i], x.from, x.to) && !IsModel(edges[i].from) &&
      edges[i].from == x.source
  }

  lemma LastNamedIsLast(clusters: seq<Cluster>, edges: seq<DigestEdge>, candidates: seq<Candidate>, i: nat)
    requires Candidates(clusters, edges, candidates) && i < |clusters|
    ensures IsLast(candidates, i) <==> LastNamed(clusters, i)
  {
    hide ServiceName;
    assert forall j :: 0 <= j < |clusters| ==> CandidateOf(clusters, edges, clusters[j], candidates[j]);
    hide CandidateOf;
    assert forall j :: 0 <= j < |clusters| ==>
      candidates[j].name == ServiceName(clusters[j].name) by { NamesMatch(clusters, edges, candidates); }
  }

  lemma NamesMatch(clusters: seq<Cluster>, edges: seq<DigestEdge>, candidates: seq<Candidate>)
    requires Candidates(clusters, edges, candidates)
    ensures forall j :: 0 <= j < |clusters| ==> candidates[j].name == ServiceName(clusters[j].name)
  {
    hide ServiceName, SortedBy, NoDuplicates, DepsExact, CouplingsExact;
  }

  /** One candidate for every cluster. */
  ghost predicate Candidates(clusters: seq<Cluster>, edges: seq<DigestEdge>, candidates: seq<Candidate>) {
    |candidates| == |clusters| && forall i :: 0 <= i < |clusters| ==>
      CandidateOf(clusters, edges, clusters[i], candidates[i])
  }

  lemma ResourcesExplained(clusters: seq<Cluster>, edges: seq<DigestEdge>, c: Cluster, k: Candidate)
    requires CandidateOf(clusters, edges, c, k)
    ensures SortedBy(k.resources, StringLe)
    ensures forall m :: m in k.resources <==> m in c.modules && HasSuffix(m, ".models")
  {
    hide HasSuffix, StringLe, Models, DepsExact, CouplingsExact;
    PermutationKeeps(k.resources, Models(c.modules));
    forall m ensures m in Models(c.modules) <==> m in c.modules && HasSuffix(m, ".models") {
      ModelsMembers(c.modules, m);
    }
  }

  lemma ProposedExplained(
    clusters: seq<Cluster>, edges: seq<DigestEdge>, candidates: seq<Candidate>,
    contracts: seq<Contract>, keys: seq<ForeignKey>, r: seq<Candidate>, i: nat)
    requires Candidates(clusters, edges, candidates) && i < |clusters|
    requires multiset(keys) == multiset(ContractKeys(contracts))
    requires Augmented(candidates, keys, r) && SortedBy(r[i].deps, StringLe)
    ensures ServiceExplained(clusters, edges, contracts, i, Proposed(r[i], keys))
  {
    hide ContractKeys, ModelEdge, RefersTo, Declared, OwnedKeys, IsLast, LastNamed, StringLe, Added;
    var p := Proposed(r[i], keys);
    NamesMatch(clusters, edges, candidates);
    LastNamedIsLast(clusters, edges, candidates, i);
    assert CandidateOf(clusters, edges, clusters[i], candidates[i]);
    ResourcesExplained(clusters, edges, clusters[i], candidates[i]);
    hide CandidateOf;
    forall t ensures t in p.deps <==>
      ModelEdge(clusters, edges, p.name, t) || (LastNamed(clusters, i) && t != "" && RefersTo(contracts, p.name, t))
    {
      DependencyMeaning(clusters, edges, candidates, contracts, keys, r, i, t);
    }
    forall k ensures k in p.foreignKeys <==> Declared(contracts, k) && k.owner == p.name {
      OwnedKeysMembers(keys, p.name, k);
      PermutationKeeps(keys, ContractKeys(contracts));
      ContractKeysMembers(contracts, k);
    }
    NoSelfDependency(clusters, edges, candidates, contracts, keys, r, i);
  }

  lemma GatheredExplained(clusters: seq<Cluster>, edges: seq<DigestEdge>, candidates: seq<Candidate>,
      couplings: seq<Coupling>)
    requires Candidates(clusters, edges, candidates) && multiset(couplings) == multiset(AllCouplings(candidates))
    ensures CouplingsExplained(clusters, edges, couplings)
  {
    hide AllCouplings, ServiceName, CandidateOf, OtherEdge;
    PermutationKeeps(couplings, AllCouplings(candidates));
    forall x ensures x in couplings <==>
      exists i :: 0 <= i < |clusters| && x.from == ServiceName(clusters[i].name) && OtherEdge(clusters, edges, x)
    {
      AllCouplingsMembers(candidates, x);
      forall i | 0 <= i < |clusters| ensures x in candidates[i].couplings <==>
        x.from == ServiceName(clusters[i].name) && OtherEdge(clusters, edges, x)
      {
        CouplingOfCandidate(clusters, edges, clusters[i], candidates[i], x);
      }
    }
  }

  lemma CouplingOfCandidate(clusters: seq<Cluster>, edges: seq<DigestEdge>, c: Cluster, k: Candidate, x: Coupling)
    requires CandidateOf(clusters, edges, c, k)
    ensures x in k.couplings <==> x.from == ServiceName(c.name) && OtherEdge(clusters, edges, x)
  {
    hide ServiceName, DepsExact, SortedBy, NoDuplicates, Crosses, IsModel;
    assert x in k.couplings <==> x in Elements(k.couplings);
  }

  /** What a plan says as a whole; the flag is set exactly when nothing is proposed. */
  ghost predicate PlanExplained(clusters: seq<Cluster>, edges: seq<DigestEdge>, contracts: seq<Contract>, plan: Plan) {
    && (plan.noServiceBoundaries <==> clusters == [])
    && |plan.services| == |clusters|
    && (forall i :: 0 <= i < |clusters| ==> ServiceExplained(clusters, edges, contracts, i, plan.services[i]))
    && CouplingsExplained(clusters, edges, plan.couplings)
  }

  /** Stages 4, 6 and 7 together: candidates of the clusters, foreign keys of the contracts, augmented
      dependencies and gathered couplings make a plan that says what clusters, edges and contracts say. */
  lemma AssembledExplained(
    clusters: seq<Cluster>, edges: seq<DigestEdge>, candidates: seq<Candidate>, contracts: seq<Contract>,
    keys: seq<ForeignKey>, r: seq<Candidate>, couplings: seq<Coupling>, lowConfidence: bool)
    requires Candidates(clusters, edges, candidates) && candidates != []
    requires multiset(keys) == multiset(ContractKeys(contracts)) &&
      multiset(couplings) == multiset(AllCouplings(candidates))
    requires Augmented(candidates, keys, r) && forall i :: 0 <= i < |r| ==> SortedBy(r[i].deps, StringLe)
    ensures PlanExplained(clusters, edges, contracts, AssembledPlan(r, keys, couplings, lowConfidence))
  {
    hide ServiceExplained, CouplingsExplained, Candidates, ContractKeys, AllCouplings, StringLe, Added, NoDuplicates,
      Proposed;
    assert |candidates| == |clusters| by { SameCount(clusters, edges, candidates); }
    forall i | 0 <= i < |clusters| ensures ServiceExplained(clusters, edges, contracts, i, Proposed(r[i], keys)) {
      ProposedExplained(clusters, edges, candidates, contracts, keys, r, i);
    }
    GatheredExplained(clusters, edges, candidates, couplings);
  }

  lemma PrefixesKept(
    candidates: seq<Candidate>, keys: seq<ForeignKey>, r: seq<Candidate>, couplings: seq<Coupling>, lowConfidence: bool)
    requires Augmented(candidates, keys, r)
    ensures var p := AssembledPlan(r, keys, couplings, lowConfidence);
      |p.services| == |candidates| && forall i :: 0 <= i < |candidates| ==> p.services[i].prefix == candidates[i].prefix
  {
    hide OwnedKeys, Added, NoDuplicates;
  }

  lemma SameCount(clusters: seq<Cluster>, edges: seq<DigestEdge>, candidates: seq<Candidate>)
    requires Candidates(clusters, edges, candidates)
    ensures |candidates| == |clusters|
  {
  }

  lemma NothingExplained(edges: seq<DigestEdge>, contracts: seq<Contract>, lowConfidence: bool)
    ensures PlanExplained([], edges, contracts, AssembledPlan([], [], [], lowConfidence))
  {
  }
}
