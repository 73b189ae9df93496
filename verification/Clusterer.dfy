/** `LLMClusterer.Cluster`: whatever the model answers, only validated groups become clusters. */
module Clusterer {
  import opened Ordering

  datatype Group = Group(name: string, modules: seq<string>)

  datatype Cluster = Cluster(name: string, modules: seq<string>)

  /** One model call: an error, text that does not decode, or a decoded proposal. */
  datatype ModelAnswer = CallError | Undecodable | Proposal(groups: seq<Group>)

  datatype Result<T> = Ok(value: T) | Err

  datatype Clustering = Clustering(clusters: seq<Cluster>, lowConfidence: bool, candidates: seq<Group>)

  /** All module mentions of a proposal, in order. */
  function Mentions(groups: seq<Group>): seq<string> {
    if groups == [] then [] else Mentions(groups[..|groups| - 1]) + groups[|groups| - 1].modules
  }

  /** Every mentioned module is a domain module and is mentioned once. */
  ghost predicate Acceptable(groups: seq<Group>, domain: seq<string>) {
    && (forall m :: m in Mentions(groups) ==> m in domain)
    && NoDuplicates(Mentions(groups))
  }

  /** `completeJSONDecomp`: at most two calls, the second one only after undecodable text. */
  method CompleteJson(model: nat -> ModelAnswer, from: nat) returns (r: Result<seq<Group>>, calls: nat)
    ensures 1 <= calls <= 2
    ensures calls == 2 <==> model(from).Undecodable?
    ensures r == if model(from + calls - 1).Proposal? then Ok(model(from + calls - 1).groups) else Err
  {
    calls := 1;
    var answer := model(from);
    if answer.CallError? {
      return Err, calls;
    }
    if answer.Proposal? {
      return Ok(answer.groups), calls;
    }
    calls := 2;
    var again := model(from + 1);
    if again.Proposal? {
      return Ok(again.groups), calls;
    }
    r := Err;
  }

  /** `validateProposal`. */
  method ValidateProposal(groups: seq<Group>, domain: seq<string>) returns (ok: bool)
    ensures ok <==> Acceptable(groups, domain)
  {
    var validSet := set m | m in domain;
    var seen: map<string, string> := map[];
    for i := 0 to |groups|
      invariant Acceptable(groups[..i], domain)
      invariant seen.Keys == Elements(Mentions(groups[..i]))
    {
      var g := groups[i];
      for j := 0 to |g.modules|
        invariant SoFar(groups[..i], g.modules[..j], domain)
        invariant seen.Keys == Elements(Mentions(groups[..i]) + g.modules[..j])
      {
        var m := g.modules[j];
        var before := Mentions(groups[..i]) + g.modules[..j];
        assert before + [m] == Mentions(groups[..i]) + g.modules[..j + 1];
        if m !in validSet || m in seen {
          Refused(groups, domain, i, j);
          return false;
        }
        OneMore(before, m);
        seen := seen[m := g.name];
      }
      assert g.modules[..|g.modules|] == g.modules;
      MentionsStep(groups, i);
    }
    assert groups[..|groups|] == groups;
    return true;
  }

  ghost predicate SoFar(groups: seq<Group>, modules: seq<string>, domain: seq<string>) {
    var all := Mentions(groups) + modules;
    NoDuplicates(all) && forall m :: m in all ==> m in domain
  }

  lemma OneMore(before: seq<string>, m: string)
    requires NoDuplicates(before) && m !in before
    ensures NoDuplicates(before + [m]) && Elements(before + [m]) == Elements(before) + {m}
  {
  }

  lemma MentionsStep(groups: seq<Group>, i: nat)
    requires i < |groups|
    ensures Mentions(groups[..i + 1]) == Mentions(groups[..i]) + groups[i].modules
  {
    assert groups[..i + 1][..i] == groups[..i];
  }

  /** Mentions of a prefix are a prefix of the mentions. */
  lemma {:induction false} MentionsPrefix(groups: seq<Group>, i: nat)
    requires i <= |groups|
    ensures Mentions(groups[..i]) <= Mentions(groups)
  {
    if i == |groups| {
      assert groups[..i] == groups;
    } else {
      var n := |groups| - 1;
      MentionsPrefix(groups[..n], i);
      assert groups[..n][..i] == groups[..i];
    }
  }

  lemma Refused(groups: seq<Group>, domain: seq<string>, i: nat, j: nat)
    requires i < |groups| && j < |groups[i].modules|
    requires var m := groups[i].modules[j]; m !in domain || m in Mentions(groups[..i]) + groups[i].modules[..j]
    ensures !Acceptable(groups, domain)
  {
    var m := groups[i].modules[j];
    var before := Mentions(groups[..i]) + groups[i].modules[..j];
    MentionsStep(groups, i);
    MentionsPrefix(groups, i + 1);
    var all := Mentions(groups);
    hide Mentions;
    assert before + [m] + groups[i].modules[j + 1..] == Mentions(groups[..i + 1]);
    assert all[|before|] == m;
    if m in before {
      var k :| 0 <= k < |before| && before[k] == m;
      assert all[k] == m;
    } else {
      assert m in all;
    }
  }

  // ---------------------------------------------------------------- clusters

  ghost predicate ClusterOf(c: Cluster, g: Group) {
    c.name == g.name && g.modules != [] && SortedBy(c.modules, StringLe) && multiset(c.modules) == multiset(g.modules)
  }

  function NonEmpty(groups: seq<Group>): seq<Group> {
    if groups == [] then []
    else NonEmpty(groups[..|groups| - 1]) + if groups[|groups| - 1].modules == [] then [] else [groups[|groups| - 1]]
  }

  /** `groupsToClusters`: the non-empty groups in order, each with its modules sorted. */
  method GroupsToClusters(groups: seq<Group>) returns (clusters: seq<Cluster>)
    ensures |clusters| == |NonEmpty(groups)|
    ensures forall i :: 0 <= i < |clusters| ==> ClusterOf(clusters[i], NonEmpty(groups)[i])
  {
    clusters := [];
    for i := 0 to |groups|
      invariant |clusters| == |NonEmpty(groups[..i])|
      invariant forall k :: 0 <= k < |clusters| ==> ClusterOf(clusters[k], NonEmpty(groups[..i])[k])
    {
      assert groups[..i + 1][..i] == groups[..i];
      var g := groups[i];
      if |g.modules| != 0 {
        StringLePreorder();
        var modules := Sort(g.modules, StringLe);
        hide StringLe;
        clusters := clusters + [Cluster(g.name, modules)];
      }
    }
    assert groups[..|groups|] == groups;
  }

  /** What a consumer may rely on. */
  ghost predicate SafeClusters(clusters: seq<Cluster>, domain: seq<string>) {
    && (forall i :: 0 <= i < |clusters| ==>
          clusters[i].modules != [] && SortedBy(clusters[i].modules, StringLe) && NoDuplicates(clusters[i].modules))
    && (forall i, m :: 0 <= i < |clusters| && m in clusters[i].modules ==> m in domain)
    && (forall i, j, m :: 0 <= i < j < |clusters| && m in clusters[i].modules ==> m !in clusters[j].modules)
  }

  ghost predicate SafeGroups(groups: seq<Group>, domain: seq<string>) {
    && (forall i :: 0 <= i < |groups| ==> groups[i].modules != [] && NoDuplicates(groups[i].modules))
    && (forall i, m :: 0 <= i < |groups| && m in groups[i].modules ==> m in domain)
    && (forall i, j, m :: 0 <= i < j < |groups| && m in groups[i].modules ==> m !in groups[j].modules)
  }

  lemma {:induction false} NonEmptyMentioned(groups: seq<Group>, i: nat, m: string)
    requires i < |NonEmpty(groups)| && m in NonEmpty(groups)[i].modules
    ensures m in Mentions(groups)
  {
    var n := |groups| - 1;
    if i < |NonEmpty(groups[..n])| {
      NonEmptyMentioned(groups[..n], i, m);
    }
  }

  lemma {:induction false} AcceptableIsSafe(groups: seq<Group>, domain: seq<string>)
    requires Acceptable(groups, domain)
    ensures SafeGroups(NonEmpty(groups), domain)
  {
    if groups != [] {
      var n := |groups| - 1;
      var front, g := groups[..n], groups[n];
      assert Mentions(groups) == Mentions(front) + g.modules;
      FrontAcceptable(Mentions(front), g.modules, domain);
      AcceptableIsSafe(front, domain);
      forall i, m | 0 <= i < |NonEmpty(front)| && m in NonEmpty(front)[i].modules ensures m !in g.modules {
        NonEmptyMentioned(front, i, m);
      }
      hide Mentions;
      if g.modules != [] {
        SafeExtends(NonEmpty(front), g, domain);
      }
    }
  }

  lemma FrontAcceptable(a: seq<string>, b: seq<string>, domain: seq<string>)
    requires NoDuplicates(a + b) && forall m :: m in a + b ==> m in domain
    ensures NoDuplicates(a) && NoDuplicates(b) && (forall m :: m in a ==> m !in b)
    ensures (forall m :: m in a ==> m in domain) && (forall m :: m in b ==> m in domain)
  {
    var s := a + b;
    forall i, j | 0 <= i < j < |a| ensures a[i] != a[j] { assert s[i] == a[i] && s[j] == a[j]; }
    forall i, j | 0 <= i < j < |b| ensures b[i] != b[j] { assert s[|a| + i] == b[i] && s[|a| + j] == b[j]; }
    forall i, j | 0 <= i < |a| && 0 <= j < |b| ensures a[i] != b[j] { assert s[i] == a[i] && s[|a| + j] == b[j]; }
  }

  lemma SafeExtends(groups: seq<Group>, g: Group, domain: seq<string>)
    requires SafeGroups(groups, domain) && g.modules != [] && NoDuplicates(g.modules)
    requires forall m :: m in g.modules ==> m in domain
    requires forall i, m :: 0 <= i < |groups| && m in groups[i].modules ==> m !in g.modules
    ensures SafeGroups(groups + [g], domain)
  {
    hide NoDuplicates;
  }

  lemma SafeTransfers(clusters: seq<Cluster>, groups: seq<Group>, domain: seq<string>)
    requires SafeGroups(groups, domain) && |clusters| == |groups|
    requires forall i :: 0 <= i < |clusters| ==> ClusterOf(clusters[i], groups[i])
    ensures SafeClusters(clusters, domain)
  {
    hide SortedBy;
    forall i | 0 <= i < |clusters|
      ensures clusters[i].modules != [] && NoDuplicates(clusters[i].modules) &&
        forall m :: m in clusters[i].modules <==> m in groups[i].modules
    {
      assert ClusterOf(clusters[i], groups[i]);
      PermutationKeeps(groups[i].modules, clusters[i].modules);
    }
    hide NoDuplicates;
  }

  /** How many calls a decoding takes, and what the last of them answers. */
  function Calls(model: nat -> ModelAnswer, from: nat): nat {
    if model(from).Undecodable? then 2 else 1
  }

  function Decoded(model: nat -> ModelAnswer, from: nat): ModelAnswer {
    model(from + Calls(model, from) - 1)
  }

  /** The clustering made of accepted groups: a cluster for every group that has modules. */
  ghost predicate MadeOf(c: Clustering, groups: seq<Group>) {
    && c.candidates == groups
    && |c.clusters| == |NonEmpty(groups)|
    && (forall i :: 0 <= i < |c.clusters| ==> ClusterOf(c.clusters[i], NonEmpty(groups)[i]))
    && (c.lowConfidence <==> forall g :: g in groups ==> g.modules == [])
  }

  lemma {:induction false} NonEmptyMembers(groups: seq<Group>, g: Group)
    ensures g in NonEmpty(groups) <==> g in groups && g.modules != []
  {
    if groups != [] {
      var n := |groups| - 1;
      NonEmptyMembers(groups[..n], g);
      assert groups == groups[..n] + [groups[n]];
    }
  }

  lemma NonEmptyEmpty(groups: seq<Group>)
    ensures NonEmpty(groups) == [] <==> forall g :: g in groups ==> g.modules == []
  {
    hide NonEmpty;
    forall g ensures g in NonEmpty(groups) <==> g in groups && g.modules != [] { NonEmptyMembers(groups, g); }
    if NonEmpty(groups) != [] {
      assert NonEmpty(groups)[0] in NonEmpty(groups);
    }
  }

  /** Nothing is dropped and nothing added: the modules of the clusters are those of the groups, under the
      same names. */
  lemma ClustersCover(c: Clustering, groups: seq<Group>, name: string, m: string)
    requires MadeOf(c, groups)
    ensures (exists i :: 0 <= i < |c.clusters| && c.clusters[i].name == name && m in c.clusters[i].modules) <==>
      (exists g :: g in groups && g.name == name && m in g.modules)
  {
    hide NonEmpty, SortedBy;
    var kept := NonEmpty(groups);
    if i :| 0 <= i < |c.clusters| && c.clusters[i].name == name && m in c.clusters[i].modules {
      PermutationKeeps(c.clusters[i].modules, kept[i].modules);
      assert kept[i] in kept;
      NonEmptyMembers(groups, kept[i]);
      assert kept[i] in groups && kept[i].name == name && m in kept[i].modules;
    }
    if g :| g in groups && g.name == name && m in g.modules {
      NonEmptyMembers(groups, g);
      var i :| 0 <= i < |kept| && kept[i] == g;
      PermutationKeeps(c.clusters[i].modules, kept[i].modules);
      assert c.clusters[i].name == name && m in c.clusters[i].modules;
    }
  }

  /** What the clusterer answers to a decoded proposal, or to none. */
  ghost predicate Settles(answer: ModelAnswer, domain: seq<string>, r: Result<Clustering>) {
    && (!answer.Proposal? ==> r.Err?)
    && (answer.Proposal? && Acceptable(answer.groups, domain) ==> r.Ok? && MadeOf(r.value, answer.groups))
  }

  /** Whatever the model answers, a clustering returned without error is empty and marked low
      confidence, or consists of non-empty, sorted, pairwise disjoint clusters of domain modules; at
      most four calls are made. An accepted first proposal is turned into clusters; after a refused one
      the second decides; an error comes back exactly when a decoding that was needed failed. */
  method ClusterModules(domain: seq<string>, model: nat -> ModelAnswer) returns (r: Result<Clustering>, calls: nat)
    ensures 1 <= calls <= 4
    ensures r.Ok? ==> SafeClusters(r.value.clusters, domain)
    ensures r.Ok? ==> (r.value.lowConfidence <==> r.value.clusters == [])
    ensures r.Ok? && r.value.candidates != [] ==> Acceptable(r.value.candidates, domain)
    ensures r.Ok? && r.value.clusters != [] ==> |r.value.clusters| == |NonEmpty(r.value.candidates)|
    ensures r.Ok? && r.value.clusters != [] ==> model(calls - 1) == Proposal(r.value.candidates)
    ensures Settles(Decoded(model, 0), domain, r)
    ensures var first := Decoded(model, 0);
      (calls == Calls(model, 0) <==> !(first.Proposal? && !Acceptable(first.groups, domain))) &&
      (first.Proposal? && !Acceptable(first.groups, domain) ==>
        var n := Calls(model, 0);
        var second := Decoded(model, n);
        && calls == n + Calls(model, n)
        && Settles(second, domain, r)
        && (second.Proposal? && !Acceptable(second.groups, domain) ==> r == Ok(Clustering([], true, []))))
  {
    hide Acceptable, SafeClusters, SafeGroups, NonEmpty, ClusterOf;
    var first;
    first, calls := CompleteJson(model, 0);
    if first.Err? {
      return Err, calls;
    }
    var groups := first.value;
    var ok := ValidateProposal(groups, domain);
    if !ok {
      var second, more := CompleteJson(model, calls);
      calls := calls + more;
      if second.Err? {
        return Err, calls;
      }
      groups := second.value;
      var ok2 := ValidateProposal(groups, domain);
      if !ok2 {
        NoClustersSafe(domain);
        return Ok(Clustering([], true, [])), calls;
      }
    }
    AcceptableIsSafe(groups, domain);
    var clusters := GroupsToClusters(groups);
    SafeTransfers(clusters, NonEmpty(groups), domain);
    NonEmptyEmpty(groups);
    r := Ok(Clustering(clusters, |clusters| == 0, groups));
  }

  lemma NoClustersSafe(domain: seq<string>)
    ensures SafeClusters([], domain)
  {
  }
}
