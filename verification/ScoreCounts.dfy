/** The score in terms of what the digest counts: each penalty by the numbers that decide it. */
module ScoreCounts {
  import opened Ordering
  import opened Cycles
  import opened CycleFindings
  import opened Digests
  import opened Distiller
  import opened Penalties
  import opened Scorer
  import opened HubShares
  import opened Text
  import opened Wrappers

  // ---------------------------------------------------------------- domain presence

  lemma ShareAtMost(a: nat, n: nat, x: real)
    requires n > 0
    ensures a as real / n as real <= x <==> a as real <= x * n as real
  {
    QuotientLess(a as real, n as real, x);
    var q := a as real / n as real;
    assert q * n as real == a as real;
  }

  /** The penalty for a thin domain: at least k exactly when the domain modules are at most the k-th
      threshold's share of domain and infrastructure. */
  lemma DomainByCounts(d: Digest, signals: seq<Signal>, k: int)
    requires SignalsOf(d, signals) && 1 <= k <= 40
    ensures signals[0].name == "domain_presence"
    ensures d.domainEmpty ==> signals[0].penalty == 40
    ensures !d.domainEmpty && |d.domain| + |d.infra| == 0 ==> signals[0].penalty == 0
    ensures !d.domainEmpty && |d.domain| + |d.infra| > 0 ==>
      (signals[0].penalty >= k <==> |d.domain| as real <= DomainThreshold(k) * (|d.domain| + |d.infra|) as real)
  {
    hide DomainDetail, ClusterDetail, HubDetail, GodDetail, RoutingDetail, HubNames, Gods;
    hide ClusterPenalty, HubPenalty, GodPenalty, RoutingPenalty, DomainPresencePenalty, DomainThreshold;
    var n := |d.domain| + |d.infra|;
    if !d.domainEmpty && n > 0 {
      DomainLevel(|d.domain| as real / n as real, k);
      ShareAtMost(|d.domain|, n, DomainThreshold(k));
    }
  }

  // ---------------------------------------------------------------- the other four penalties

  /** The penalty for few clusters, by their number. */
  lemma ClustersByCount(d: Digest, signals: seq<Signal>)
    requires SignalsOf(d, signals)
    ensures signals[1].name == "cluster_count"
    ensures d.clusters == [] <==> signals[1].penalty == 25
    ensures |d.clusters| == 1 <==> signals[1].penalty == 15
    ensures |d.clusters| == 2 <==> signals[1].penalty == 5
    ensures |d.clusters| >= 3 <==> signals[1].penalty == 0
  {
    hide DomainDetail, ClusterDetail, HubDetail, GodDetail, RoutingDetail, HubNames, Gods;
    hide DomainPenalty, HubPenalty, GodPenalty, RoutingPenalty;
  }

  lemma ShareAtLeast(f: nat, n: nat, x: real)
    requires n > 0
    ensures f as real / n as real >= x <==> f as real >= x * n as real
  {
    QuotientLess(f as real, n as real, x);
  }

  /** The penalty for the worst hub: none without hubs, and, as long as nothing wraps around, at least k
      exactly when the first hub's fan-in is at least the k-th threshold's share of fan-in and nodes. */
  lemma HubByCounts(d: Digest, signals: seq<Signal>, k: int)
    requires SignalsOf(d, signals) && 1 <= k <= 20
    ensures signals[2].name == "hub_severity"
    ensures d.hubs == [] ==> signals[2].penalty == 0
    ensures d.hubs != [] && 0 < |d.nodes| && |d.nodes| + d.hubs[0].fanIn < U32 ==>
      (signals[2].penalty >= k <==> d.hubs[0].fanIn as real >= HubThreshold(k) * (|d.nodes| + d.hubs[0].fanIn) as real)
  {
    hide DomainDetail, ClusterDetail, HubDetail, GodDetail, RoutingDetail, HubNames, Gods;
    hide DomainPenalty, ClusterPenalty, GodPenalty, RoutingPenalty, HubSeverityPenalty, HubRatio, HubThreshold;
    if d.hubs != [] && 0 < |d.nodes| && |d.nodes| + d.hubs[0].fanIn < U32 {
      var f, n := d.hubs[0].fanIn, |d.nodes| + d.hubs[0].fanIn;
      PlainShare(f, |d.nodes|);
      QuotientNonNegative(f as real, n as real);
      HubLevel(f as real / n as real, k);
      ShareAtLeast(f, n, HubThreshold(k));
    }
  }

  /** The positions of the god-modules: twenty functions or more, and a shared-state hub. */
  ghost function GodPlaces(cards: seq<RichCard>): (r: set<nat>)
    ensures forall i :: i in r ==> i < |cards|
  {
    set i: nat | i < |cards| && |cards[i].card.functions| >= 20 && cards[i].isHub
  }

  lemma {:induction false} GodsCounted(cards: seq<RichCard>)
    ensures |Gods(cards)| == |GodPlaces(cards)|
  {
    if cards != [] {
      var n := |cards| - 1;
      GodsCounted(cards[..n]);
      PlacesStep(cards);
      hide GodPlaces;
    } else {
      assert GodPlaces(cards) == {};
    }
  }

  lemma PlacesStep(cards: seq<RichCard>)
    requires cards != []
    ensures var n := |cards| - 1;
      var before := GodPlaces(cards[..n]);
      && n !in before
      && GodPlaces(cards) == before + if |cards[n].card.functions| >= 20 && cards[n].isHub then {n} else {}
  {
    var n := |cards| - 1;
    var front := cards[..n];
    assert forall i: nat :: i < n ==> front[i] == cards[i];
  }

  lemma {:induction false} GodsNamed(cards: seq<RichCard>, name: string)
    ensures name in Gods(cards) <==> exists i: nat :: i in GodPlaces(cards) && cards[i].card.name == name
  {
    if cards != [] {
      var n := |cards| - 1;
      var front := cards[..n];
      GodsNamed(front, name);
      PlacesStep(cards);
      if i: nat :| i in GodPlaces(front) && front[i].card.name == name {
        assert i in GodPlaces(cards) && cards[i] == front[i];
      }
      if i: nat :| i in GodPlaces(cards) && cards[i].card.name == name {
        assert i < n ==> i in GodPlaces(front) && front[i] == cards[i];
      }
    }
  }

  /** The penalty for god-modules, five each up to ten, and the signal names them. */
  lemma GodsByCount(d: Digest, signals: seq<Signal>)
    requires SignalsOf(d, signals)
    ensures signals[3].name == "god_modules"
    ensures var n := |GodPlaces(d.cards)|; signals[3].penalty == if n == 0 then 0 else if n == 1 then 5 else 10
    ensures forall name :: name in signals[3].modules <==>
      exists i: nat :: i in GodPlaces(d.cards) && d.cards[i].card.name == name
  {
    hide DomainDetail, ClusterDetail, HubDetail, GodDetail, RoutingDetail, HubNames;
    hide DomainPenalty, ClusterPenalty, HubPenalty, RoutingPenalty, GodPlaces, Gods;
    GodsCounted(d.cards);
    forall name ensures name in Gods(d.cards) <==>
      exists i: nat :: i in GodPlaces(d.cards) && d.cards[i].card.name == name
    {
      GodsNamed(d.cards, name);
    }
  }

  /** The penalty for routing: five exactly when there are routes and one blueprint for all of them. */
  lemma RoutingByCount(d: Digest, signals: seq<Signal>)
    requires SignalsOf(d, signals)
    ensures signals[4].name == "routing_layout"
    ensures signals[4].penalty == if d.entryPoints.singleBlueprint && d.entryPoints.hasRoutes then 5 else 0
  {
    hide DomainDetail, ClusterDetail, HubDetail, GodDetail, RoutingDetail, HubNames, Gods;
    hide DomainPenalty, ClusterPenalty, HubPenalty, GodPenalty;
  }

  // ---------------------------------------------------------------- getting better

  /** The digest with the last infrastructure module turned into a domain module. */
  function MoreDomain(d: Digest): Digest
    requires d.infra != []
  {
    var m := d.infra[|d.infra| - 1];
    d.(domain := d.domain + [m], infra := d.infra[..|d.infra| - 1], domainEmpty := false)
  }

  lemma ShareGrows(a: nat, n: nat)
    requires n > 0
    ensures a as real / n as real <= (a + 1) as real / n as real
  {
    QuotientLess((a + 1) as real, n as real, a as real / n as real);
    assert a as real / n as real * n as real == a as real;
  }

  lemma MoreDomainPenalty(d: Digest)
    requires d.infra != []
    ensures DomainPenalty(MoreDomain(d)) <= DomainPenalty(d)
  {
    if !d.domainEmpty {
      var n := |d.domain| + |d.infra|;
      ShareGrows(|d.domain|, n);
      hide DomainPresencePenalty;
      DomainMonotone(|d.domain| as real / n as real, (|d.domain| + 1) as real / n as real);
    }
  }

  /** Turning an infrastructure module into a domain module never lowers the value. */
  lemma MoreDomainNeverHurts(d: Digest, s: MigrabilityScore, t: MigrabilityScore)
    requires d.infra != []
    requires SignalsOf(d, s.breakdown) && s.value == 100 - PenaltySum(s.breakdown)
    requires SignalsOf(MoreDomain(d), t.breakdown) && t.value == 100 - PenaltySum(t.breakdown)
    ensures s.value <= t.value
  {
    MoreDomainPenalty(d);
    FiveSum(s.breakdown);
    FiveSum(t.breakdown);
    hide DomainDetail, ClusterDetail, HubDetail, GodDetail, RoutingDetail, HubNames, Gods, DomainPenalty, PenaltySum;
    hide ClusterPenalty, GodPenalty, RoutingPenalty, HubRatio, HubSeverityPenalty;
    assert HubPenalty(MoreDomain(d)) == HubPenalty(d);
  }

  // ---------------------------------------------------------------- findings, blockers, band

  lemma {:induction false} HighHubsCounted(hubs: seq<Hub>)
    ensures HighHubs(hubs) == |set i: nat | i < |hubs| && hubs[i].fanIn >= 10|
  {
    var all := set i: nat | i < |hubs| && hubs[i].fanIn >= 10;
    if hubs != [] {
      var n := |hubs| - 1;
      var front := hubs[..n];
      HighHubsCounted(front);
      var before := set i: nat | i < |front| && front[i].fanIn >= 10;
      assert all == before + if hubs[n].fanIn >= 10 then {n} else {};
    } else {
      assert all == {};
    }
  }

  /** The blockers of a score are exactly these. */
  lemma BlockersSay(domainEmpty: bool, noClusters: bool, highHubs: nat, gods: nat, cycles: nat)
    ensures var b := Blockers(domainEmpty, noClusters, highHubs, gods, cycles);
      forall x :: x in b <==>
        || (x == Blocker("blocker.no_domain_layer", None) && domainEmpty)
        || (x == Blocker("blocker.no_service_boundaries", None) && noClusters)
        || (x == Blocker("blocker.shared_state", Some(highHubs)) && highHubs > 0)
        || (x == Blocker("blocker.god_modules", Some(gods)) && gods > 0)
        || (x == Blocker("blocker.cycles", Some(cycles)) && cycles > 0)
  {
  }

  /** A hub finding is high from a fan-in of ten on, medium from five. */
  lemma HubSeverity(h: Hub)
    ensures HubFinding(h).severity == "high" <==> h.fanIn >= 10
    ensures HubFinding(h).severity == "medium" <==> 5 <= h.fanIn < 10
    ensures HubFinding(h).severity == "low" <==> h.fanIn < 5
    ensures HubFinding(h).kind == "shared_state" && HubFinding(h).modules == [h.name]
  {
  }

  /** What the other findings say. */
  lemma FindingTexts(cards: seq<RichCard>, name: string, c: CycleFinding)
    ensures GodFinding(cards, name).kind == "god_module" && GodFinding(cards, name).severity == "high"
    ensures GodFinding(cards, name).modules == [name]
    ensures CycleEntry(c).kind == "cycle" && CycleEntry(c).modules == c.modules
    ensures CycleEntry(c).severity == "high" <==> c.severity == High
    ensures CycleEntry(c).severity == "medium" <==> c.severity == Medium
    ensures "n" in CycleEntry(c).params && CycleEntry(c).params["n"] == Itoa(c.size)
    ensures NO_DOMAIN_FINDING.kind == "topology" && NO_DOMAIN_FINDING.severity == "medium"
  {
    hide Itoa, FirstCard;
  }

  /** The band: good from 70 on, bad below 40. */
  lemma BandSays(value: int)
    ensures BandOf(value) == Good <==> value >= 70
    ensures BandOf(value) == Bad <==> value < 40
  {
  }
}
