/** The restructuring roadmap: structural problems and the numbered action plan derived from the
    score signals. */
module ActionPlan {
  import opened Ordering
  import opened Text
  import opened Scorer
  import opened DetailText
  import opened Distiller
  import opened Wrappers

  datatype Kind = ExtractDomain | DecoupleState | SplitGodModule | DefineBoundaries | AddRouting

  datatype ActionItem = ActionItem(kind: Kind, subject: string, blocking: bool, impact: int, order: nat, dependsOn: nat)

  /** An item together with the signal it came from. */
  datatype Entry = Entry(item: ActionItem, signal: string)

  /** `formatModuleList`. */
  function ModuleList(modules: seq<string>, max: nat): string {
    if modules == [] then "(infra modules)"
    else Join(if |modules| > max then modules[..max] else modules, ", ")
  }

  /** `signalToActionItem`; unknown signals have no item. */
  function ItemFor(sig: Signal, infra: seq<string>): Option<ActionItem> {
    if sig.name == "domain_presence" then Some(ActionItem(ExtractDomain, ModuleList(infra, 5), true, 0, 0, 0))
    else if sig.name == "hub_severity" then Some(ActionItem(DecoupleState, ParseHubModule(sig.detail), true, 0, 0, 0))
    else if sig.name == "god_modules" then
      var subject := Join(ParseGodModules(sig.detail), ", ");
      Some(ActionItem(SplitGodModule, if subject == "" then sig.detail else subject, false, 0, 0, 0))
    else if sig.name == "cluster_count" then Some(ActionItem(DefineBoundaries, sig.detail, true, 0, 0, 0))
    else if sig.name == "routing_layout" then Some(ActionItem(AddRouting, sig.detail, false, 0, 0, 0))
    else None
  }

  /** The entries of the active signals, in signal order. */
  function Entries(signals: seq<Signal>, infra: seq<string>): seq<Entry> {
    if signals == [] then []
    else
      var sig := signals[|signals| - 1];
      var rest := Entries(signals[..|signals| - 1], infra);
      var m := ItemFor(sig, infra);
      if sig.penalty <= 0 || m.None? then rest else rest + [Entry(m.value.(impact := sig.penalty), sig.name)]
  }

  predicate ImpactLe(a: Entry, b: Entry) { a.item.impact >= b.item.impact }

  lemma ImpactLePreorder()
    ensures TotalPreorder(ImpactLe)
  {
  }

  /** The last step, counted from 1, that came from a signal; 0 when there is none. */
  function StepOf(entries: seq<Entry>, signal: string): (k: nat)
    ensures k <= |entries|
    ensures k > 0 ==> entries[k - 1].signal == signal
    ensures k == 0 <==> forall i :: 0 <= i < |entries| ==> entries[i].signal != signal
  {
    if entries == [] then 0
    else if entries[|entries| - 1].signal == signal then |entries|
    else StepOf(entries[..|entries| - 1], signal)
  }

  /** The signal whose step a step waits for. */
  function Prerequisite(signal: string): string {
    if signal == "cluster_count" then "domain_presence" else if signal == "routing_layout" then "cluster_count" else ""
  }

  function Link(entries: seq<Entry>, signal: string): nat {
    if Prerequisite(signal) == "" then 0 else StepOf(entries, Prerequisite(signal))
  }

  /** The plan is the ranked entries, numbered and linked. */
  ghost predicate PlanOf(signals: seq<Signal>, infra: seq<string>, ranked: seq<Entry>, plan: seq<ActionItem>) {
    && multiset(ranked) == multiset(Entries(signals, infra)) && SortedBy(ranked, ImpactLe)
    && |plan| == |ranked|
    && forall i :: 0 <= i < |plan| ==>
      plan[i] == ranked[i].item.(order := i + 1, dependsOn := Link(ranked, ranked[i].signal))
  }

  /** `buildActionPlan`; `ranked` is the order in which the sort left the entries. */
  method BuildActionPlan(signals: seq<Signal>, infra: seq<string>)
    returns (plan: seq<ActionItem>, ghost ranked: seq<Entry>)
    ensures PlanOf(signals, infra, ranked, plan)
  {
    hide Entries, Link;
    var entries := CollectEntries(signals, infra);
    ImpactLePreorder();
    var sorted := Sort(entries, ImpactLe);
    ranked := sorted;
    plan := LinkSteps(sorted);
  }

  method CollectEntries(signals: seq<Signal>, infra: seq<string>) returns (entries: seq<Entry>)
    ensures entries == Entries(signals, infra)
  {
    hide ItemFor;
    entries := [];
    for i := 0 to |signals|
      invariant entries == Entries(signals[..i], infra)
    {
      assert signals[..i + 1][..i] == signals[..i];
      if signals[i].penalty > 0 {
        var m := ItemFor(signals[i], infra);
        if m.Some? {
          entries := entries + [Entry(m.value.(impact := signals[i].penalty), signals[i].name)];
        }
      }
    }
    assert signals[..|signals|] == signals;
  }

  method LinkSteps(entries: seq<Entry>) returns (plan: seq<ActionItem>)
    ensures |plan| == |entries|
    ensures forall i :: 0 <= i < |plan| ==>
      plan[i] == entries[i].item.(order := i + 1, dependsOn := Link(entries, entries[i].signal))
  {
    hide StepOf, Link;
    var orderOf := NumberSteps(entries);
    plan := [];
    for i := 0 to |entries|
      invariant |plan| == i
      invariant forall k :: 0 <= k < i ==>
        plan[k] == entries[k].item.(order := k + 1, dependsOn := Link(entries, entries[k].signal))
    {
      var link := FindLink(orderOf, entries, entries[i].signal);
      plan := plan + [entries[i].item.(order := i + 1, dependsOn := link)];
    }
  }

  method FindLink(orderOf: map<string, nat>, ghost entries: seq<Entry>, signal: string) returns (link: nat)
    requires forall x :: (if x in orderOf then orderOf[x] else 0) == StepOf(entries, x)
    ensures link == Link(entries, signal)
  {
    hide StepOf;
    link := 0;
    if signal == "cluster_count" {
      link := if "domain_presence" in orderOf then orderOf["domain_presence"] else 0;
    } else if signal == "routing_layout" {
      link := if "cluster_count" in orderOf then orderOf["cluster_count"] else 0;
    }
  }

  method NumberSteps(entries: seq<Entry>) returns (orderOf: map<string, nat>)
    ensures forall x :: (if x in orderOf then orderOf[x] else 0) == StepOf(entries, x)
  {
    orderOf := map[];
    for i := 0 to |entries|
      invariant forall x :: (if x in orderOf then orderOf[x] else 0) == StepOf(entries[..i], x)
    {
      assert entries[..i + 1][..i] == entries[..i];
      orderOf := orderOf[entries[i].signal := i + 1];
    }
    assert entries[..|entries|] == entries;
  }

  // ---------------------------------------------------------------- properties of every plan

  /** Steps are numbered from 1 by non-increasing impact, and every impact is positive. */
  lemma PlanRanked(signals: seq<Signal>, infra: seq<string>, ranked: seq<Entry>, plan: seq<ActionItem>)
    requires PlanOf(signals, infra, ranked, plan)
    ensures forall i :: 0 <= i < |plan| ==> plan[i].order == i + 1 && plan[i].impact > 0
    ensures forall i, j :: 0 <= i < j < |plan| ==> plan[i].impact >= plan[j].impact
  {
    hide Link;
    PermutationKeeps(ranked, Entries(signals, infra));
    forall i | 0 <= i < |plan| ensures plan[i].impact > 0 {
      assert ranked[i] in Entries(signals, infra);
      EntryOrigin(signals, infra, ranked[i]);
    }
    hide Entries;
    assert forall i, j :: 0 <= i < j < |ranked| ==> ImpactLe(ranked[i], ranked[j]);
  }

  function KindFor(signal: string): Kind {
    if signal == "domain_presence" then ExtractDomain
    else if signal == "hub_severity" then DecoupleState
    else if signal == "god_modules" then SplitGodModule
    else if signal == "cluster_count" then DefineBoundaries
    else AddRouting
  }

  predicate Known(signal: string) {
    signal in {"domain_presence", "hub_severity", "god_modules", "cluster_count", "routing_layout"}
  }

  lemma {:induction false} EntryOrigin(signals: seq<Signal>, infra: seq<string>, e: Entry)
    requires e in Entries(signals, infra)
    ensures e.item.impact > 0 && Known(e.signal) && e.item.kind == KindFor(e.signal)
    ensures exists i :: 0 <= i < |signals| && signals[i].name == e.signal && signals[i].penalty == e.item.impact
  {
    var n := |signals| - 1;
    if e in Entries(signals[..n], infra) {
      EntryOrigin(signals[..n], infra, e);
      var i :| 0 <= i < n && signals[..n][i].name == e.signal && signals[..n][i].penalty == e.item.impact;
      assert signals[i] == signals[..n][i];
    }
  }

  /** How deep a kind sits in the chain of prerequisites. */
  function Depth(k: Kind): nat {
    match k case DefineBoundaries => 1 case AddRouting => 2 case _ => 0
  }

  /** Links are sound: a link is 0 or the number of an existing step of the prerequisite kind, which
      sits strictly lower in the chain; so following links always ends and never comes back. */
  lemma LinksSound(signals: seq<Signal>, infra: seq<string>, ranked: seq<Entry>, plan: seq<ActionItem>, i: nat)
    requires PlanOf(signals, infra, ranked, plan) && i < |plan|
    ensures plan[i].dependsOn <= |plan|
    ensures plan[i].dependsOn > 0 ==>
      var target := plan[plan[i].dependsOn - 1];
      && target.order == plan[i].dependsOn
      && Depth(target.kind) + 1 == Depth(plan[i].kind)
    ensures Depth(plan[i].kind) == 0 ==> plan[i].dependsOn == 0
    ensures plan[i].kind == DefineBoundaries && plan[i].dependsOn == 0 ==> forall j :: 0 <= j < |plan| ==>
      plan[j].kind != ExtractDomain
    ensures plan[i].kind == AddRouting && plan[i].dependsOn == 0 ==> forall j :: 0 <= j < |plan| ==>
      plan[j].kind != DefineBoundaries
  {
    hide Entries, StepOf, Link, SortedBy;
    RankedKinds(signals, infra, ranked);
    LinkTarget(ranked, ranked[i].signal);
  }

  lemma RankedKinds(signals: seq<Signal>, infra: seq<string>, ranked: seq<Entry>)
    requires multiset(ranked) == multiset(Entries(signals, infra))
    ensures forall j :: 0 <= j < |ranked| ==>
      Known(ranked[j].signal) && ranked[j].item.kind == KindFor(ranked[j].signal)
  {
    hide Entries, Known, KindFor;
    PermutationKeeps(ranked, Entries(signals, infra));
    forall j | 0 <= j < |ranked| ensures Known(ranked[j].signal) && ranked[j].item.kind == KindFor(ranked[j].signal) {
      assert ranked[j] in Entries(signals, infra);
      EntryOrigin(signals, infra, ranked[j]);
    }
  }

  lemma LinkTarget(ranked: seq<Entry>, signal: string)
    ensures Link(ranked, signal) <= |ranked|
    ensures Link(ranked, signal) > 0 ==>
      Prerequisite(signal) != "" && ranked[Link(ranked, signal) - 1].signal == Prerequisite(signal)
    ensures Link(ranked, signal) == 0 && Prerequisite(signal) != "" ==> forall j :: 0 <= j < |ranked| ==>
      ranked[j].signal != Prerequisite(signal)
  {
  }

  /** `path` goes from step to step along the links. */
  ghost predicate FollowsLinks(plan: seq<ActionItem>, path: seq<nat>) {
    && (forall i :: 0 <= i < |path| ==> 1 <= path[i] <= |plan|)
    && (forall i :: 0 <= i < |path| - 1 ==> plan[path[i] - 1].dependsOn == path[i + 1])
  }

  /** No cycle of links: along links the depth falls by one each time, so no path has more than three
      steps and none comes back to where it was. */
  lemma LinksEnd(signals: seq<Signal>, infra: seq<string>, ranked: seq<Entry>, plan: seq<ActionItem>, path: seq<nat>)
    requires PlanOf(signals, infra, ranked, plan) && path != [] && FollowsLinks(plan, path)
    ensures |path| <= 1 + Depth(plan[path[0] - 1].kind)
    ensures forall i :: 0 < i < |path| ==> path[i] != path[0]
  {
    hide PlanOf;
    DepthFalls(signals, infra, ranked, plan, path, |path| - 1);
    forall i | 0 < i < |path| ensures path[i] != path[0] {
      DepthFalls(signals, infra, ranked, plan, path, i);
    }
  }

  lemma {:induction false} DepthFalls(signals: seq<Signal>, infra: seq<string>, ranked: seq<Entry>,
      plan: seq<ActionItem>, path: seq<nat>, i: nat)
    requires PlanOf(signals, infra, ranked, plan) && FollowsLinks(plan, path) && i < |path|
    ensures Depth(plan[path[i] - 1].kind) + i == Depth(plan[path[0] - 1].kind)
  {
    hide PlanOf;
    if i > 0 {
      DepthFalls(signals, infra, ranked, plan, path, i - 1);
      assert plan[path[i - 1] - 1].dependsOn == path[i];
      LinksSound(signals, infra, ranked, plan, path[i - 1] - 1);
    }
  }

  // ---------------------------------------------------------------- prerequisites in order

  /** Every step comes after the step it waits for. */
  ghost predicate LinksBackward(plan: seq<ActionItem>) {
    forall i :: 0 <= i < |plan| ==> plan[i].dependsOn < plan[i].order
  }

  /** Two active signals whose steps are a dependent and its prerequisite. */
  predicate Waits(dependent: Signal, required: Signal) {
    && dependent.penalty > 0 && required.penalty > 0
    && Prerequisite(dependent.name) != "" && required.name == Prerequisite(dependent.name)
  }

  ghost predicate PrerequisitesCostMore(signals: seq<Signal>) {
    forall a, b :: 0 <= a < |signals| && 0 <= b < |signals| && Waits(signals[a], signals[b]) ==>
      signals[b].penalty > signals[a].penalty
  }

  lemma {:induction false} ActiveSignalHasEntry(signals: seq<Signal>, infra: seq<string>, a: nat)
    requires a < |signals| && signals[a].penalty > 0 && Known(signals[a].name)
    ensures exists e ::
      e in Entries(signals, infra) && e.signal == signals[a].name && e.item.impact == signals[a].penalty
  {
    hide ParseHubModule, ParseGodModules, ModuleList;
    var n := |signals| - 1;
    if a < n {
      ActiveSignalHasEntry(signals[..n], infra, a);
      var e :| e in Entries(signals[..n], infra) && e.signal == signals[a].name && e.item.impact == signals[a].penalty;
      assert e in Entries(signals, infra);
    } else {
      var e := Entry(ItemFor(signals[n], infra).value.(impact := signals[n].penalty), signals[n].name);
      assert e in Entries(signals, infra);
    }
  }

  lemma HigherBefore(ranked: seq<Entry>, k: nat, i: nat)
    requires SortedBy(ranked, ImpactLe) && k < |ranked| && i < |ranked| && ranked[k].item.impact > ranked[i].item.impact
    ensures k < i
  {
  }

  lemma CostlierFirst(signals: seq<Signal>, infra: seq<string>, ranked: seq<Entry>, plan: seq<ActionItem>)
    requires PlanOf(signals, infra, ranked, plan) && PrerequisitesCostMore(signals)
    ensures LinksBackward(plan)
  {
    hide Entries, StepOf, Link, Prerequisite;
    PermutationKeeps(ranked, Entries(signals, infra));
    forall i | 0 <= i < |plan| ensures plan[i].dependsOn < plan[i].order {
      var signal := ranked[i].signal;
      LinkTarget(ranked, signal);
      var k := Link(ranked, signal);
      if k > 0 {
        EntryOrigin(signals, infra, ranked[i]);
        EntryOrigin(signals, infra, ranked[k - 1]);
        var a :| 0 <= a < |signals| && signals[a].name == signal && signals[a].penalty == ranked[i].item.impact;
        var b :| 0 <= b < |signals| && signals[b].name == ranked[k - 1].signal &&
          signals[b].penalty == ranked[k - 1].item.impact;
        assert Waits(signals[a], signals[b]);
        HigherBefore(ranked, k - 1, i);
      }
    }
  }

  function Numbered(ranked: seq<Entry>): seq<ActionItem> {
    seq(|ranked|, i requires 0 <= i < |ranked| => ranked[i].item.(order := i + 1,
      dependsOn := Link(ranked, ranked[i].signal)))
  }

  lemma SwapTie(ranked: seq<Entry>, i: nat, j: nat)
    requires i < j < |ranked| && SortedBy(ranked, ImpactLe) && ranked[i].item.impact == ranked[j].item.impact
    ensures SortedBy(ranked[i := ranked[j]][j := ranked[i]], ImpactLe)
    ensures multiset(ranked[i := ranked[j]][j := ranked[i]]) == multiset(ranked)
  {
    var r := ranked[i := ranked[j]][j := ranked[i]];
    assert forall k :: 0 <= k < |r| ==> r[k].item.impact == ranked[k].item.impact;
    forall k, l | 0 <= k < l < |r| ensures ImpactLe(r[k], r[l]) {
      assert ImpactLe(ranked[k], ranked[l]);
    }
  }

  /** An order the sort may leave in which `d` stands before `p`, which does not cost more. */
  lemma RankedWithFirst(entries: seq<Entry>, d: Entry, p: Entry) returns (ranked: seq<Entry>, i: nat, j: nat)
    requires d in entries && p in entries && d != p && p.item.impact <= d.item.impact
    ensures multiset(ranked) == multiset(entries) && SortedBy(ranked, ImpactLe)
    ensures i < j < |ranked| && ranked[i] == d && ranked[j] == p
  {
    ImpactLePreorder();
    ranked := SortExists(entries, ImpactLe);
    PermutationKeeps(ranked, entries);
    i :| 0 <= i < |ranked| && ranked[i] == d;
    j :| 0 <= j < |ranked| && ranked[j] == p;
    if j < i {
      assert ImpactLe(ranked[j], ranked[i]);
      SwapTie(ranked, j, i);
      ranked := ranked[j := ranked[i]][i := ranked[j]];
      i, j := j, i;
    }
  }

  lemma {:induction false} StepOfAtLeast(entries: seq<Entry>, signal: string, j: nat)
    requires j < |entries| && entries[j].signal == signal
    ensures StepOf(entries, signal) >= j + 1
  {
    if entries[|entries| - 1].signal != signal {
      StepOfAtLeast(entries[..|entries| - 1], signal, j);
    }
  }

  lemma CheaperLater(signals: seq<Signal>, infra: seq<string>, a: nat, b: nat)
    returns (ranked: seq<Entry>, plan: seq<ActionItem>)
    requires a < |signals| && b < |signals| && Waits(signals[a], signals[b]) && signals[b].penalty <= signals[a].penalty
    ensures PlanOf(signals, infra, ranked, plan) && !LinksBackward(plan)
  {
    hide Entries, StepOf;
    ActiveSignalHasEntry(signals, infra, a);
    ActiveSignalHasEntry(signals, infra, b);
    var d :| d in Entries(signals, infra) && d.signal == signals[a].name && d.item.impact == signals[a].penalty;
    var p :| p in Entries(signals, infra) && p.signal == signals[b].name && p.item.impact == signals[b].penalty;
    var i, j;
    ranked, i, j := RankedWithFirst(Entries(signals, infra), d, p);
    StepOfAtLeast(ranked, p.signal, j);
    plan := Numbered(ranked);
    hide SortedBy;
    assert plan[i].dependsOn >= j + 1 > plan[i].order;
  }

  /** When prerequisites come first: in every plan the sort may lead to, for any list of signals, if and
      only if every active prerequisite costs strictly more than the step that waits for it. A tie is
      not enough, because the sort may leave the dependent first. */
  lemma PrerequisiteFirstIff(signals: seq<Signal>, infra: seq<string>)
    ensures (forall ranked, plan :: PlanOf(signals, infra, ranked, plan) ==> LinksBackward(plan)) <==>
      PrerequisitesCostMore(signals)
  {
    hide PlanOf, LinksBackward, Waits;
    if PrerequisitesCostMore(signals) {
      forall ranked, plan | PlanOf(signals, infra, ranked, plan) ensures LinksBackward(plan) {
        CostlierFirst(signals, infra, ranked, plan);
      }
    } else {
      var a, b :| 0 <= a < |signals| && 0 <= b < |signals| && Waits(signals[a], signals[b]) &&
        signals[b].penalty <= signals[a].penalty;
      var ranked, plan := CheaperLater(signals, infra, a, b);
    }
  }

  /** For the signals of a score: the order is right unless the domain costs no more than the boundaries,
      or the boundaries no more than the routing, and both of the two cost something. */
  lemma ScoredPrerequisitesIff(d: Digest, signals: seq<Signal>)
    requires SignalsOf(d, signals)
    ensures PrerequisitesCostMore(signals) <==>
      && !(0 < DomainPenalty(d) <= ClusterPenalty(|d.clusters|))
      && !(0 < ClusterPenalty(|d.clusters|) <= RoutingPenalty(d.entryPoints))
  {
    hide DomainPenalty, ClusterPenalty, HubPenalty, GodPenalty, RoutingPenalty;
    hide DomainDetail, ClusterDetail, HubDetail, GodDetail, RoutingDetail, HubNames, Gods;
    assert Waits(signals[1], signals[0]) <==> signals[1].penalty > 0 && signals[0].penalty > 0;
    assert Waits(signals[4], signals[1]) <==> signals[4].penalty > 0 && signals[1].penalty > 0;
    if !(0 < DomainPenalty(d) <= ClusterPenalty(|d.clusters|)) &&
      !(0 < ClusterPenalty(|d.clusters|) <= RoutingPenalty(d.entryPoints))
    {
      forall a, b | 0 <= a < |signals| && 0 <= b < |signals| && Waits(signals[a], signals[b])
        ensures signals[b].penalty > signals[a].penalty
      {
        assert (a == 1 && b == 0) || (a == 4 && b == 1);
      }
    }
  }

  /** A list where it does not: missing boundaries cost 25, a thin domain 13, so the first step of every
      plan waits for the second. */
  lemma PrerequisiteLater(infra: seq<string>, ranked: seq<Entry>, plan: seq<ActionItem>)
    requires PlanOf([Signal("domain_presence", 13, "", []), Signal("cluster_count", 25, "", [])], infra, ranked, plan)
    ensures |plan| == 2 && plan[0].kind == DefineBoundaries && plan[0].order == 1 && plan[0].dependsOn == 2 &&
      plan[1].kind == ExtractDomain
  {
    var signals := [Signal("domain_presence", 13, "", []), Signal("cluster_count", 25, "", [])];
    hide ModuleList, ParseHubModule, ParseGodModules;
    var d := Entry(ActionItem(ExtractDomain, ModuleList(infra, 5), true, 13, 0, 0), "domain_presence");
    var b := Entry(ActionItem(DefineBoundaries, "", true, 25, 0, 0), "cluster_count");
    assert signals[..1][..0] == [];
    assert Entries(signals[..1], infra) == [d];
    assert Entries(signals, infra) == [d, b];
    TwoRanked(d, b, ranked);
    assert [b, d][..1] == [b];
  }

  lemma TwoRanked(d: Entry, b: Entry, ranked: seq<Entry>)
    requires multiset(ranked) == multiset([d, b]) && SortedBy(ranked, ImpactLe) && b.item.impact > d.item.impact
    ensures ranked == [b, d]
  {
    assert |multiset(ranked)| == |ranked| && |multiset([d, b])| == 2;
    assert d in multiset(ranked) && b in multiset(ranked);
    assert ImpactLe(ranked[0], ranked[1]);
  }

  /** In one plan: a costlier prerequisite stands before the step that waits for it, a cheaper one after. */
  lemma PrerequisiteOrder(signals: seq<Signal>, infra: seq<string>, ranked: seq<Entry>, plan: seq<ActionItem>, i: nat)
    requires PlanOf(signals, infra, ranked, plan) && i < |plan| && 0 < plan[i].dependsOn
    ensures plan[i].dependsOn <= |plan|
    ensures plan[plan[i].dependsOn - 1].impact > plan[i].impact ==> plan[i].dependsOn < plan[i].order
    ensures plan[plan[i].dependsOn - 1].impact < plan[i].impact ==> plan[i].dependsOn > plan[i].order
  {
    hide PlanOf, Depth;
    LinksSound(signals, infra, ranked, plan, i);
    PlanRanked(signals, infra, ranked, plan);
  }

  // ---------------------------------------------------------------- accounting

  function ImpactSum(plan: seq<ActionItem>): int {
    if plan == [] then 0 else ImpactSum(plan[..|plan| - 1]) + plan[|plan| - 1].impact
  }

  function EntrySum(entries: seq<Entry>): int {
    if entries == [] then 0 else EntrySum(entries[..|entries| - 1]) + entries[|entries| - 1].item.impact
  }

  lemma {:induction false} EntrySumConcat(a: seq<Entry>, b: seq<Entry>)
    ensures EntrySum(a + b) == EntrySum(a) + EntrySum(b)
  {
    if b == [] {
      assert a + b == a;
    } else {
      var n := |b| - 1;
      EntrySumConcat(a, b[..n]);
      assert (a + b)[..|a + b| - 1] == a + b[..n];
    }
  }

  lemma {:induction false} EntrySumPermuted(a: seq<Entry>, b: seq<Entry>)
    requires multiset(a) == multiset(b)
    ensures EntrySum(a) == EntrySum(b)
    decreases |a|
  {
    if a == [] {
      assert |multiset(b)| == 0;
    } else {
      hide EntrySum;
      var n := |a| - 1;
      var i := TakeOut(a, b);
      EntrySumPermuted(a[..n], b[..i] + b[i + 1..]);
      EntrySumConcat(a[..n], [b[i]]);
      EntrySumConcat(b[..i], b[i + 1..]);
      EntrySumConcat(b[..i], [b[i]]);
      EntrySumConcat(b[..i] + [b[i]], b[i + 1..]);
    }
  }

  lemma {:induction false} PlanSum(ranked: seq<Entry>, plan: seq<ActionItem>)
    requires |plan| == |ranked| && forall i :: 0 <= i < |plan| ==> plan[i].impact == ranked[i].item.impact
    ensures ImpactSum(plan) == EntrySum(ranked)
  {
    if plan != [] {
      PlanSum(ranked[..|plan| - 1], plan[..|plan| - 1]);
    }
  }

  lemma {:induction false} EntriesSum(signals: seq<Signal>, infra: seq<string>)
    requires forall i :: 0 <= i < |signals| ==> signals[i].penalty >= 0 && Known(signals[i].name)
    ensures EntrySum(Entries(signals, infra)) == PenaltySum(signals)
  {
    if signals != [] {
      var n := |signals| - 1;
      EntriesSum(signals[..n], infra);
      hide ParseHubModule, ParseGodModules;
      assert ItemFor(signals[n], infra).Some?;
      if signals[n].penalty > 0 {
        var e := Entry(ItemFor(signals[n], infra).value.(impact := signals[n].penalty), signals[n].name);
        var rest := Entries(signals[..n], infra);
        assert (rest + [e])[..|rest|] == rest;
      }
    }
  }

  lemma ScoredSignalsKnown(d: Digest, signals: seq<Signal>)
    requires SignalsOf(d, signals)
    ensures forall i :: 0 <= i < |signals| ==> signals[i].penalty >= 0 && Known(signals[i].name)
  {
    PenaltiesBounded(d, signals);
    hide DomainDetail, ClusterDetail, HubDetail, GodDetail, RoutingDetail, HubNames, Gods;
    hide DomainPenalty, ClusterPenalty, HubPenalty, GodPenalty, RoutingPenalty;
  }

  /** The impacts of the plan made from a score add up to what the score lost. */
  lemma ImpactsExplainScore(d: Digest, s: MigrabilityScore, infra: seq<string>, ranked: seq<Entry>,
      plan: seq<ActionItem>)
    requires SignalsOf(d, s.breakdown) && s.value == 100 - PenaltySum(s.breakdown)
    requires PlanOf(s.breakdown, infra, ranked, plan)
    ensures ImpactSum(plan) == 100 - s.value
  {
    hide SignalsOf, Entries, EntrySum, PenaltySum, Link, ImpactSum;
    ScoredSignalsKnown(d, s.breakdown);
    EntriesSum(s.breakdown, infra);
    EntrySumPermuted(ranked, Entries(s.breakdown, infra));
    PlanSum(ranked, plan);
  }

  /** The steps for the worst hub and for the god-modules name the modules that the scorer found. */
  lemma SubjectsNameModules(d: Digest, signals: seq<Signal>, infra: seq<string>)
    requires SignalsOf(d, signals)
    ensures d.hubs != [] && d.hubs[0].name != "" && !Contains(d.hubs[0].name, FAN_IN_MARK) ==>
      ItemFor(signals[2], infra).value.subject == d.hubs[0].name
    ensures var gods := Gods(d.cards);
      gods != [] && (forall i :: 0 <= i < |gods| ==> Clean(gods[i])) ==>
        ItemFor(signals[3], infra).value.subject == Join(gods, ", ")
  {
    hide DomainDetail, ClusterDetail, HubDetail, GodDetail, RoutingDetail, HubNames, Gods, ParseHubModule,
      ParseGodModules;
    if d.hubs != [] && d.hubs[0].name != "" && !Contains(d.hubs[0].name, FAN_IN_MARK) {
      ScoredHubParses(d);
    }
    var gods := Gods(d.cards);
    if gods != [] && forall i :: 0 <= i < |gods| ==> Clean(gods[i]) {
      GodRoundTripIff(gods);
      JoinNonEmpty(gods);
    }
  }

  /** What a step says about a signal: its kind, whether it blocks, and what it is about. A detail that does
      not parse is its own subject. */
  lemma ItemSays(sig: Signal, infra: seq<string>)
    ensures ItemFor(sig, infra).Some? <==> Known(sig.name)
    ensures Known(sig.name) ==>
      var item := ItemFor(sig, infra).value;
      && item.kind == KindFor(sig.name)
      && (item.blocking <==> sig.name in {"domain_presence", "hub_severity", "cluster_count"})
      && (sig.name == "domain_presence" && infra == [] ==> item.subject == "(infra modules)")
      && (sig.name == "domain_presence" && 0 < |infra| <= 5 ==> item.subject == Join(infra, ", "))
      && (sig.name == "domain_presence" && |infra| > 5 ==> item.subject == Join(infra[..5], ", "))
      && (sig.name in {"cluster_count", "routing_layout"} ==> item.subject == sig.detail)
  {
    hide ParseHubModule, ParseGodModules, Join;
  }

  lemma {:induction false} EntriesMembers(signals: seq<Signal>, infra: seq<string>, e: Entry)
    ensures e in Entries(signals, infra) <==>
      exists sig :: sig in signals && sig.penalty > 0 && Known(sig.name) && ItemFor(sig, infra).Some? &&
        e == Entry(ItemFor(sig, infra).value.(impact := sig.penalty), sig.name)
  {
    hide ItemFor;
    if signals != [] {
      var n := |signals| - 1;
      EntriesMembers(signals[..n], infra, e);
      ItemSays(signals[n], infra);
      hide Known;
      assert signals == signals[..n] + [signals[n]];
    }
  }

  /** The steps of a plan are those of the active known signals, each with its cost. */
  lemma PlanSteps(signals: seq<Signal>, infra: seq<string>, ranked: seq<Entry>, plan: seq<ActionItem>, sig: Signal)
    requires PlanOf(signals, infra, ranked, plan) && sig in signals && sig.penalty > 0 && Known(sig.name)
    ensures exists i :: 0 <= i < |plan| && plan[i].impact == sig.penalty && plan[i].kind == KindFor(sig.name)
  {
    ItemSays(sig, infra);
    hide ItemFor, Entries, Known, Link, KindFor;
    var e := Entry(ItemFor(sig, infra).value.(impact := sig.penalty), sig.name);
    EntriesMembers(signals, infra, e);
    PermutationKeeps(ranked, Entries(signals, infra));
    var i :| 0 <= i < |ranked| && ranked[i] == e;
    assert plan[i].impact == sig.penalty;
  }

  lemma JoinNonEmpty(names: seq<string>)
    requires names != [] && names[0] != ""
    ensures Join(names, ", ") != ""
  {
  }
}
