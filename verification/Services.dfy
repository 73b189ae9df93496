/** Stage 4 and 6 of the decomposition pipeline: service candidates with their dependencies, data
    ownership, and the dependencies added from foreign keys. */
module Services {
  import opened Ordering
  import opened Text
  import opened Cycles
  import opened Clusterer

  datatype Coupling = Coupling(from: string, to: string, source: string)

  datatype Candidate = Candidate(name: string, prefix: string, resources: seq<string>, deps: seq<string>,
      couplings: seq<Coupling>)

  /** The text after the last separator. */
  function LastSegment(s: string, sep: char): string {
    if s == "" then "" else if s[|s| - 1] == sep then "" else LastSegment(s[..|s| - 1], sep) + [s[|s| - 1]]
  }

  /** `serviceNameFromBlueprint`. */
  function ServiceName(blueprint: string): string {
    ToLower(LastSegment(blueprint, if '\\' in blueprint then '\\' else '.'))
  }

  lemma {:induction false} LastSegmentSays(s: string, sep: char)
    ensures sep !in LastSegment(s, sep)
    ensures s == LastSegment(s, sep) ||
      (|LastSegment(s, sep)| < |s| && s[|s| - |LastSegment(s, sep)| - 1] == sep
       && s[|s| - |LastSegment(s, sep)|..] == LastSegment(s, sep))
  {
    if s != "" && s[|s| - 1] != sep {
      var front := s[..|s| - 1];
      LastSegmentSays(front, sep);
      assert s == front + [s[|s| - 1]];
    }
  }

  /** The name of a service: in lower case, what follows the last backslash of its blueprint, or the last dot
      when there is no backslash, or the whole. */
  lemma ServiceNameSays(blueprint: string) returns (segment: string, sep: char)
    ensures ServiceName(blueprint) == ToLower(segment)
    ensures sep == (if '\\' in blueprint then '\\' else '.')
    ensures sep !in segment && (blueprint == segment || exists before :: blueprint == before + [sep] + segment)
  {
    sep := if '\\' in blueprint then '\\' else '.';
    segment := LastSegment(blueprint, sep);
    LastSegmentSays(blueprint, sep);
    if blueprint != segment {
      var k := |blueprint| - |segment| - 1;
      assert blueprint == blueprint[..k] + [sep] + segment;
    }
  }

  predicate IsModel(m: string) {
    HasSuffix(m, ".models")
  }

  /** The service a module belongs to: that of the last cluster listing it; "" for none. */
  function ServiceOf(clusters: seq<Cluster>, m: string): string {
    if clusters == [] then ""
    else if m in clusters[|clusters| - 1].modules then ServiceName(clusters[|clusters| - 1].name)
    else ServiceOf(clusters[..|clusters| - 1], m)
  }

  function Lookup(m: map<string, string>, k: string): string {
    if k in m then m[k] else ""
  }

  method MapModules(clusters: seq<Cluster>) returns (r: map<string, string>)
    ensures forall m :: Lookup(r, m) == ServiceOf(clusters, m)
  {
    r := map[];
    for i := 0 to |clusters|
      invariant forall m :: Lookup(r, m) == ServiceOf(clusters[..i], m)
    {
      assert clusters[..i + 1][..i] == clusters[..i];
      var svc := ServiceName(clusters[i].name);
      var before := r;
      for j := 0 to |clusters[i].modules|
        invariant forall m :: Lookup(r, m) == if m in clusters[i].modules[..j] then svc else Lookup(before, m)
      {
        r := r[clusters[i].modules[j] := svc];
        assert clusters[i].modules[..j + 1] == clusters[i].modules[..j] + [clusters[i].modules[j]];
      }
      assert clusters[i].modules[..|clusters[i].modules|] == clusters[i].modules;
      hide ServiceName;
    }
    assert clusters[..|clusters|] == clusters;
  }

  // ---------------------------------------------------------------- crossing edges

  /** The edge leads from service `n` into the other, named service `t`. */
  predicate Crosses(clusters: seq<Cluster>, e: DigestEdge, n: string, t: string) {
    ServiceOf(clusters, e.from) == n && ServiceOf(clusters, e.to) == t && t != "" && t != n
  }

  /** Exactly the services that model modules of `n` lead into. */
  ghost predicate DepsExact(clusters: seq<Cluster>, edges: seq<DigestEdge>, n: string, deps: set<string>) {
    forall t :: t in deps <==>
      exists i :: 0 <= i < |edges| && Crosses(clusters, edges[i], n, t) && IsModel(edges[i].from)
  }

  /** Exactly the pairs of service and source module of the other crossing edges. */
  ghost predicate CouplingsExact(clusters: seq<Cluster>, edges: seq<DigestEdge>, n: string, couplings: set<Coupling>) {
    forall c :: c in couplings <==>
      c.from == n && exists i ::
        0 <= i < |edges| && Crosses(clusters, edges[i], n, c.to) && !IsModel(edges[i].from) && edges[i].from == c.source
  }

  lemma DepsStep(clusters: seq<Cluster>, edges: seq<DigestEdge>, e: DigestEdge, n: string, deps: set<string>)
    requires DepsExact(clusters, edges, n, deps)
    ensures var t := ServiceOf(clusters, e.to);
      DepsExact(clusters, edges + [e], n, if Crosses(clusters, e, n, t) && IsModel(e.from) then deps + {t} else deps)
  {
    hide ServiceOf, IsModel;
    var all := edges + [e];
    assert all[|edges|] == e && forall i :: 0 <= i < |edges| ==> all[i] == edges[i];
    forall t ensures (exists i :: 0 <= i < |all| && Crosses(clusters, all[i], n, t) && IsModel(all[i].from)) <==>
      (exists i :: 0 <= i < |edges| && Crosses(clusters, edges[i], n, t) && IsModel(edges[i].from)) ||
        (Crosses(clusters, e, n, t) && IsModel(e.from))
    {
      if i :| 0 <= i < |edges| && Crosses(clusters, edges[i], n, t) && IsModel(edges[i].from) {
        assert all[i] == edges[i];
      }
    }
  }

  lemma CouplingsStep(clusters: seq<Cluster>, edges: seq<DigestEdge>, e: DigestEdge, n: string,
      couplings: set<Coupling>)
    requires CouplingsExact(clusters, edges, n, couplings)
    ensures var t := ServiceOf(clusters, e.to);
      CouplingsExact(clusters, edges + [e], n,
        if Crosses(clusters, e, n, t) && !IsModel(e.from) then couplings + {Coupling(n, t, e.from)} else couplings)
  {
    hide ServiceOf, IsModel;
    var all := edges + [e];
    assert all[|edges|] == e && forall i :: 0 <= i < |edges| ==> all[i] == edges[i];
    forall c: Coupling ensures
      (exists i ::
         0 <= i < |all| && Crosses(clusters, all[i], n, c.to) && !IsModel(all[i].from) && all[i].from == c.source) <==>
      (exists i :: 0 <= i < |edges| && Crosses(clusters, edges[i], n, c.to) && !IsModel(edges[i].from) &&
        edges[i].from == c.source)
      || (Crosses(clusters, e, n, c.to) && !IsModel(e.from) && e.from == c.source)
    {
      if i :|
        0 <= i < |edges| && Crosses(clusters, edges[i], n, c.to) && !IsModel(edges[i].from) && edges[i].from == c.source
      {
        assert all[i] == edges[i];
      }
    }
  }

  /** The classification loop for one service. */
  method ClassifyEdges(clusters: seq<Cluster>, serviceOf: map<string, string>, edges: seq<DigestEdge>, n: string)
    returns (deps: set<string>, couplings: seq<Coupling>)
    requires forall m :: Lookup(serviceOf, m) == ServiceOf(clusters, m)
    ensures DepsExact(clusters, edges, n, deps)
    ensures NoDuplicates(couplings) && CouplingsExact(clusters, edges, n, Elements(couplings))
  {
    hide ServiceOf, IsModel, DepsExact, CouplingsExact;
    deps, couplings := {}, [];
    var opSet := {};
    NothingYet(clusters, n);
    assert edges[..0] == [] && Elements(couplings) == {};
    for i := 0 to |edges|
      invariant DepsExact(clusters, edges[..i], n, deps)
      invariant opSet == Elements(couplings) && NoDuplicates(couplings) &&
        CouplingsExact(clusters, edges[..i], n, opSet)
    {
      var e := edges[i];
      DepsStep(clusters, edges[..i], e, n, deps);
      CouplingsStep(clusters, edges[..i], e, n, opSet);
      assert edges[..i + 1] == edges[..i] + [e];
      var fromSvc := Lookup(serviceOf, e.from);
      var toSvc := Lookup(serviceOf, e.to);
      if fromSvc == n && toSvc != "" && toSvc != n {
        if IsModel(e.from) {
          deps := deps + {toSvc};
        } else {
          var k := Coupling(fromSvc, toSvc, e.from);
          if k !in opSet {
            AppendNew(couplings, k);
            opSet := opSet + {k};
            couplings := couplings + [k];
          } else {
            assert opSet + {k} == opSet;
          }
        }
      }
    }
    assert edges[..|edges|] == edges;
  }

  lemma NothingYet(clusters: seq<Cluster>, n: string)
    ensures DepsExact(clusters, [], n, {}) && CouplingsExact(clusters, [], n, {})
  {
  }

  lemma AppendNew(couplings: seq<Coupling>, k: Coupling)
    requires NoDuplicates(couplings) && k !in Elements(couplings)
    ensures NoDuplicates(couplings + [k]) && Elements(couplings + [k]) == Elements(couplings) + {k}
  {
    assert k !in couplings;
  }

  predicate CouplingLe(a: Coupling, b: Coupling) {
    StringLe(a.source + "\U{2192}" + a.to, b.source + "\U{2192}" + b.to)
  }

  lemma CouplingLePreorder()
    ensures TotalPreorder(CouplingLe)
  {
    hide StringLe;
    forall a, b ensures CouplingLe(a, b) || CouplingLe(b, a) {
      StringLeTotal(a.source + "\U{2192}" + a.to, b.source + "\U{2192}" + b.to);
    }
    forall a, b, c | CouplingLe(a, b) && CouplingLe(b, c) ensures CouplingLe(a, c) {
      StringLeTransitive(a.source + "\U{2192}" + a.to, b.source + "\U{2192}" + b.to, c.source + "\U{2192}" + c.to);
    }
  }

  function Models(modules: seq<string>): seq<string> {
    if modules == [] then []
    else Models(modules[..|modules| - 1]) + if IsModel(modules[|modules| - 1]) then [modules[|modules| - 1]] else []
  }

  lemma {:induction false} ModelsMembers(modules: seq<string>, m: string)
    ensures m in Models(modules) <==> m in modules && HasSuffix(m, ".models")
  {
    hide HasSuffix;
    if modules != [] {
      var n := |modules| - 1;
      ModelsMembers(modules[..n], m);
      assert modules == modules[..n] + [modules[n]];
    }
  }

  /** What is promised of the candidate of a cluster. */
  ghost predicate CandidateOf(clusters: seq<Cluster>, edges: seq<DigestEdge>, c: Cluster, k: Candidate) {
    && k.name == ServiceName(c.name)
    && SortedBy(k.resources, StringLe) && multiset(k.resources) == multiset(Models(c.modules))
    && SortedBy(k.deps, StringLe) && NoDuplicates(k.deps) && DepsExact(clusters, edges, k.name, Elements(k.deps))
    && SortedBy(k.couplings, CouplingLe) && NoDuplicates(k.couplings) &&
      CouplingsExact(clusters, edges, k.name, Elements(k.couplings))
  }

  method CollectModels(modules: seq<string>) returns (r: seq<string>)
    ensures SortedBy(r, StringLe) && multiset(r) == multiset(Models(modules))
  {
    hide IsModel, StringLe;
    var found := [];
    for i := 0 to |modules|
      invariant found == Models(modules[..i])
    {
      assert modules[..i + 1][..i] == modules[..i];
      if IsModel(modules[i]) {
        found := found + [modules[i]];
      }
    }
    assert modules[..|modules|] == modules;
    StringLePreorder();
    r := Sort(found, StringLe);
  }

  method CharacterizeOne(clusters: seq<Cluster>, serviceOf: map<string, string>, edges: seq<DigestEdge>, c: Cluster,
      prefix: string)
    returns (k: Candidate)
    requires forall m :: Lookup(serviceOf, m) == ServiceOf(clusters, m)
    ensures CandidateOf(clusters, edges, c, k) && k.prefix == prefix
  {
    hide ServiceOf, Lookup, DepsExact, CouplingsExact, StringLe, CouplingLe, ServiceName, Models;
    var n := ServiceName(c.name);
    var resources := CollectModels(c.modules);
    var depsSet, found := ClassifyEdges(clusters, serviceOf, edges, n);
    var deps := SortedKeys(depsSet);
    CouplingLePreorder();
    var couplings := Sort(found, CouplingLe);
    PermutationKeeps(found, couplings);
    k := Candidate(n, prefix, resources, deps, couplings);
  }

  datatype Outcome = Characterized(candidates: seq<Candidate>) | AllocationFailed

  /** `characterize`: `allocate` is the prefix allocator, which may fail. */
  method Characterize(clusters: seq<Cluster>, edges: seq<DigestEdge>, allocate: string -> (bool, string))
    returns (r: Outcome)
    ensures r.Characterized? <==> forall i :: 0 <= i < |clusters| ==> allocate(ServiceName(clusters[i].name)).0
    ensures r.Characterized? ==> |r.candidates| == |clusters|
    ensures r.Characterized? ==> forall i :: 0 <= i < |clusters| ==>
      CandidateOf(clusters, edges, clusters[i], r.candidates[i]) &&
        r.candidates[i].prefix == allocate(ServiceName(clusters[i].name)).1
  {
    hide ServiceOf, Lookup, ServiceName, CandidateOf;
    var serviceOf := MapModules(clusters);
    var candidates := [];
    for i := 0 to |clusters|
      invariant |candidates| == i
      invariant forall k :: 0 <= k < i ==>
        allocate(ServiceName(clusters[k].name)).0 && CandidateOf(clusters, edges, clusters[k], candidates[k])
      invariant forall k :: 0 <= k < i ==> candidates[k].prefix == allocate(ServiceName(clusters[k].name)).1
    {
      var prefix := allocate(ServiceName(clusters[i].name));
      var k := CharacterizeOne(clusters, serviceOf, edges, clusters[i], prefix.1);
      if !prefix.0 {
        return AllocationFailed;
      }
      candidates := candidates + [k];
    }
    r := Characterized(candidates);
  }

  /** Every domain edge from a named service into another is accounted for in the candidate of its
      source service, in exactly one of the two lists. */
  lemma CrossingEdgeRecorded(clusters: seq<Cluster>, edges: seq<DigestEdge>, c: Cluster, k: Candidate, i: nat,
      t: string)
    requires CandidateOf(clusters, edges, c, k) && i < |edges| && Crosses(clusters, edges[i], k.name, t)
    ensures IsModel(edges[i].from) ==> t in k.deps
    ensures !IsModel(edges[i].from) ==> Coupling(k.name, t, edges[i].from) in k.couplings
    ensures IsModel(edges[i].from) ==> forall x :: x in k.couplings ==> x.source != edges[i].from
  {
    hide ServiceOf, IsModel, CouplingLe, StringLe;
    assert IsModel(edges[i].from) ==> t in Elements(k.deps);
    assert !IsModel(edges[i].from) ==> Coupling(k.name, t, edges[i].from) in Elements(k.couplings);
    forall x | x in k.couplings ensures !IsModel(x.source) { assert x in Elements(k.couplings); }
  }

  // ---------------------------------------------------------------- foreign keys

  datatype Field = Field(name: string, isCrossFk: bool, refTable: string, refService: string)

  datatype Message = Message(name: string, fields: seq<Field>)

  datatype Contract = Contract(service: string, messages: seq<Message>)

  datatype ForeignKey = ForeignKey(owner: string, message: string, field: string, refTable: string, refService: string)

  predicate IsForeign(service: string, f: Field) {
    f.isCrossFk && f.refService != service
  }

  function KeyOf(service: string, message: string, f: Field): ForeignKey {
    ForeignKey(service, message, f.name, f.refTable, f.refService)
  }

  predicate KeyLe(a: ForeignKey, b: ForeignKey) {
    StringLe(a.owner + "." + a.message + "." + a.field, b.owner + "." + b.message + "." + b.field)
  }

  lemma KeyLePreorder()
    ensures TotalPreorder(KeyLe)
  {
    hide StringLe;
    forall a, b ensures KeyLe(a, b) || KeyLe(b, a) {
      StringLeTotal(a.owner + "." + a.message + "." + a.field, b.owner + "." + b.message + "." + b.field);
    }
    forall a, b, c | KeyLe(a, b) && KeyLe(b, c) ensures KeyLe(a, c) {
      StringLeTransitive(a.owner + "." + a.message + "." + a.field, b.owner + "." + b.message + "." + b.field,
        c.owner + "." + c.message + "." + c.field);
    }
  }

  /** Flattened, in source order. */
  function FieldKeys(service: string, message: string, fields: seq<Field>): seq<ForeignKey> {
    if fields == [] then []
    else
      var f := fields[|fields| - 1];
      FieldKeys(service, message, fields[..|fields| - 1]) +
        if IsForeign(service, f) then [KeyOf(service, message, f)] else []
  }

  function MessageKeys(service: string, messages: seq<Message>): seq<ForeignKey> {
    if messages == [] then []
    else
      MessageKeys(service, messages[..|messages| - 1]) +
      FieldKeys(service, messages[|messages| - 1].name, messages[|messages| - 1].fields)
  }

  function ContractKeys(contracts: seq<Contract>): seq<ForeignKey> {
    if contracts == [] then []
    else
      ContractKeys(contracts[..|contracts| - 1]) +
      MessageKeys(contracts[|contracts| - 1].service, contracts[|contracts| - 1].messages)
  }

  /** The foreign-key part of `analyzeDataOwnership`. */
  method CollectForeignKeys(contracts: seq<Contract>) returns (keys: seq<ForeignKey>)
    ensures SortedBy(keys, KeyLe) && multiset(keys) == multiset(ContractKeys(contracts))
  {
    hide KeyLe;
    var found := [];
    for i := 0 to |contracts|
      invariant found == ContractKeys(contracts[..i])
    {
      assert contracts[..i + 1][..i] == contracts[..i];
      var more := CollectMessageKeys(contracts[i].service, contracts[i].messages);
      found := found + more;
    }
    assert contracts[..|contracts|] == contracts;
    KeyLePreorder();
    keys := Sort(found, KeyLe);
  }

  method CollectMessageKeys(service: string, messages: seq<Message>) returns (keys: seq<ForeignKey>)
    ensures keys == MessageKeys(service, messages)
  {
    keys := [];
    for i := 0 to |messages|
      invariant keys == MessageKeys(service, messages[..i])
    {
      assert messages[..i + 1][..i] == messages[..i];
      var m := messages[i];
      var before := keys;
      for j := 0 to |m.fields|
        invariant keys == before + FieldKeys(service, m.name, m.fields[..j])
      {
        assert m.fields[..j + 1][..j] == m.fields[..j];
        var f := m.fields[j];
        if f.isCrossFk && f.refService != service {
          keys := keys + [ForeignKey(service, m.name, f.name, f.refTable, f.refService)];
        }
      }
      assert m.fields[..|m.fields|] == m.fields;
    }
    assert messages[..|messages|] == messages;
  }

  lemma {:induction false} FieldKeysMembers(service: string, message: string, fields: seq<Field>, k: ForeignKey)
    ensures k in FieldKeys(service, message, fields) <==>
      exists f :: f in fields && IsForeign(service, f) && k == KeyOf(service, message, f)
  {
    if fields != [] {
      var n := |fields| - 1;
      FieldKeysMembers(service, message, fields[..n], k);
      assert fields == fields[..n] + [fields[n]];
    }
  }

  lemma {:induction false} MessageKeysMembers(service: string, messages: seq<Message>, k: ForeignKey)
    ensures k in MessageKeys(service, messages) <==>
      exists m :: m in messages && k in FieldKeys(service, m.name, m.fields)
  {
    hide FieldKeys;
    if messages != [] {
      var n := |messages| - 1;
      MessageKeysMembers(service, messages[..n], k);
      assert messages == messages[..n] + [messages[n]];
    }
  }

  lemma {:induction false} ContractKeysFlat(contracts: seq<Contract>, k: ForeignKey)
    ensures k in ContractKeys(contracts) <==> exists c :: c in contracts && k in MessageKeys(c.service, c.messages)
  {
    hide MessageKeys;
    if contracts != [] {
      var n := |contracts| - 1;
      ContractKeysFlat(contracts[..n], k);
      assert contracts == contracts[..n] + [contracts[n]];
    }
  }

  /** The key comes from a cross-service foreign-key field of a contract that refers to another service. */
  ghost predicate Declared(contracts: seq<Contract>, k: ForeignKey) {
    exists c, m, f :: c in contracts && m in c.messages && f in m.fields && f.isCrossFk && f.refService != c.service &&
      k == ForeignKey(c.service, m.name, f.name, f.refTable, f.refService)
  }

  /** Collected are exactly the declared keys. */
  lemma ContractKeysMembers(contracts: seq<Contract>, k: ForeignKey)
    ensures k in ContractKeys(contracts) <==> Declared(contracts, k)
  {
    hide ContractKeys, MessageKeys, FieldKeys;
    ContractKeysFlat(contracts, k);
    forall c: Contract ensures k in MessageKeys(c.service, c.messages) <==>
      exists m :: m in c.messages && k in FieldKeys(c.service, m.name, m.fields)
    {
      MessageKeysMembers(c.service, c.messages, k);
    }
    forall c: Contract, m: Message ensures k in FieldKeys(c.service, m.name, m.fields) <==>
      exists f :: f in m.fields && IsForeign(c.service, f) && k == KeyOf(c.service, m.name, f)
    {
      FieldKeysMembers(c.service, m.name, m.fields, k);
    }
  }

  /** So every collected key crosses a service boundary. */
  lemma ContractKeysForeign(contracts: seq<Contract>, k: ForeignKey)
    requires k in ContractKeys(contracts)
    ensures k.refService != k.owner
  {
    hide ContractKeys;
    ContractKeysMembers(contracts, k);
  }

  // ---------------------------------------------------------------- augmenting the dependencies

  /** No later candidate has the same name: the one the index by name leads to. */
  ghost predicate IsLast(candidates: seq<Candidate>, i: nat) {
    i < |candidates| && forall j :: i < j < |candidates| ==> candidates[j].name != candidates[i].name
  }

  /** The services that foreign keys of `owner` refer to. */
  ghost function Targets(keys: seq<ForeignKey>, owner: string): set<string> {
    set i | 0 <= i < |keys| && keys[i].owner == owner && keys[i].refService != "" :: keys[i].refService
  }

  /** Only the dependency lists differ. */
  ghost predicate SameButDeps(a: seq<Candidate>, b: seq<Candidate>) {
    |a| == |b| && forall i :: 0 <= i < |a| ==> b[i] == a[i].(deps := b[i].deps)
  }

  /** What foreign keys add to candidate `i`. */
  ghost function Added(candidates: seq<Candidate>, keys: seq<ForeignKey>, i: nat): set<string>
    requires i < |candidates|
  {
    if IsLast(candidates, i) then Targets(keys, candidates[i].name) else {}
  }

  /** Each list is the union of the old one and the foreign-key targets of its name, which go to the
      last candidate of that name; freedom from duplicates is kept. */
  ghost predicate Augmented(candidates: seq<Candidate>, keys: seq<ForeignKey>, r: seq<Candidate>) {
    && SameButDeps(candidates, r)
    && forall i :: 0 <= i < |r| ==>
         Elements(r[i].deps) == Elements(candidates[i].deps) + Added(candidates, keys, i)
         && (NoDuplicates(candidates[i].deps) ==> NoDuplicates(r[i].deps))
  }

  lemma TargetsStep(keys: seq<ForeignKey>, k: ForeignKey, owner: string)
    ensures Targets(keys + [k], owner) == Targets(keys, owner) +
      if k.owner == owner && k.refService != "" then {k.refService} else {}
  {
    var all := keys + [k];
    assert all[|keys|] == k && forall i :: 0 <= i < |keys| ==> all[i] == keys[i];
    forall x | x in Targets(keys, owner) ensures x in Targets(all, owner) {
      var i :| 0 <= i < |keys| && keys[i].owner == owner && keys[i].refService != "" && keys[i].refService == x;
      assert all[i] == keys[i];
    }
    if k.owner == owner && k.refService != "" {
      assert all[|keys|].refService in Targets(all, owner);
    }
  }

  /** One foreign key whose owner is candidate `at`. */
  lemma AugmentOne(candidates: seq<Candidate>, keys: seq<ForeignKey>, r: seq<Candidate>, k: ForeignKey, at: nat)
    requires Augmented(candidates, keys, r)
    requires IsLast(candidates, at) && candidates[at].name == k.owner && k.refService != ""
    ensures Augmented(candidates, keys + [k],
      if k.refService in r[at].deps then r else r[at := r[at].(deps := r[at].deps + [k.refService])])
  {
    var r' := if k.refService in r[at].deps then r else r[at := r[at].(deps := r[at].deps + [k.refService])];
    forall i | 0 <= i < |r'| ensures
      Elements(r'[i].deps) == Elements(candidates[i].deps) + Added(candidates, keys + [k], i)
      && (NoDuplicates(candidates[i].deps) ==> NoDuplicates(r'[i].deps))
    {
      TargetsStep(keys, k, candidates[i].name);
      hide Targets;
      if i == at {
        assert Elements(r[at].deps + [k.refService]) == Elements(r[at].deps) + {k.refService};
      }
    }
  }

  lemma AugmentNone(candidates: seq<Candidate>, keys: seq<ForeignKey>, r: seq<Candidate>, k: ForeignKey)
    requires Augmented(candidates, keys, r)
    requires k.refService == "" || forall i :: 0 <= i < |candidates| ==> candidates[i].name != k.owner
    ensures Augmented(candidates, keys + [k], r)
  {
    forall i | 0 <= i < |r| ensures Added(candidates, keys + [k], i) == Added(candidates, keys, i) {
      TargetsStep(keys, k, candidates[i].name);
    }
    hide Added;
  }

  /** `augmentDataDeps`: every dependency list becomes the exact union of the old list and the targets
      of its foreign keys, sorted, and stays free of duplicates. */
  method AugmentDataDeps(candidates: seq<Candidate>, keys: seq<ForeignKey>) returns (r: seq<Candidate>)
    ensures Augmented(candidates, keys, r)
    ensures forall i :: 0 <= i < |r| ==> SortedBy(r[i].deps, StringLe)
  {
    hide Augmented, StringLe;
    var idx := IndexNames(candidates);
    r := candidates;
    NothingAugmented(candidates);
    assert keys[..0] == [];
    for n := 0 to |keys|
      invariant |r| == |candidates| && Augmented(candidates, keys[..n], r)
    {
      var fk := keys[n];
      assert keys[..n + 1] == keys[..n] + [fk];
      if fk.refService == "" || fk.owner !in idx {
        AugmentNone(candidates, keys[..n], r, fk);
      } else {
        var i := idx[fk.owner];
        AugmentOne(candidates, keys[..n], r, fk, i);
        if fk.refService !in r[i].deps {
          r := r[i := r[i].(deps := r[i].deps + [fk.refService])];
        }
      }
    }
    assert keys[..|keys|] == keys;
    r := SortDeps(candidates, keys, r);
  }

  method IndexNames(candidates: seq<Candidate>) returns (idx: map<string, nat>)
    ensures forall n :: n in idx ==> IsLast(candidates, idx[n]) && candidates[idx[n]].name == n
    ensures forall i :: 0 <= i < |candidates| ==> candidates[i].name in idx
  {
    idx := map[];
    for i := 0 to |candidates|
      invariant forall n :: n in idx ==> idx[n] < i && candidates[idx[n]].name == n && forall j :: idx[n] < j < i ==>
        candidates[j].name != n
      invariant forall k :: 0 <= k < i ==> candidates[k].name in idx
    {
      idx := idx[candidates[i].name := i];
    }
  }

  lemma NothingAugmented(candidates: seq<Candidate>)
    ensures Augmented(candidates, [], candidates)
  {
  }

  method SortDeps(candidates: seq<Candidate>, ghost keys: seq<ForeignKey>, given: seq<Candidate>)
    returns (r: seq<Candidate>)
    requires |given| == |candidates| && Augmented(candidates, keys, given)
    ensures |r| == |candidates| && Augmented(candidates, keys, r)
    ensures forall i :: 0 <= i < |r| ==> SortedBy(r[i].deps, StringLe)
  {
    hide StringLe, Added, NoDuplicates;
    r := given;
    for i := 0 to |r|
      invariant |r| == |given| && Augmented(candidates, keys, r)
      invariant forall k :: 0 <= k < i ==> SortedBy(r[k].deps, StringLe)
    {
      StringLePreorder();
      var sorted := Sort(r[i].deps, StringLe);
      PermutationKeeps(r[i].deps, sorted);
      r := r[i := r[i].(deps := sorted)];
    }
  }

  /** Some field of a contract of `owner` is a foreign key into the other service `t`. */
  ghost predicate RefersTo(contracts: seq<Contract>, owner: string, t: string) {
    exists c, m, f :: c in contracts && c.service == owner && m in c.messages && f in m.fields && f.isCrossFk &&
      f.refService == t && t != owner
  }

  lemma TargetsMeaning(contracts: seq<Contract>, keys: seq<ForeignKey>, owner: string, t: string)
    requires multiset(keys) == multiset(ContractKeys(contracts))
    ensures t in Targets(keys, owner) <==> t != "" && RefersTo(contracts, owner, t)
  {
    hide ContractKeys;
    PermutationKeeps(keys, ContractKeys(contracts));
    if t in Targets(keys, owner) {
      var i :| 0 <= i < |keys| && keys[i].owner == owner && keys[i].refService == t;
      assert keys[i] in ContractKeys(contracts);
      ContractKeysMembers(contracts, keys[i]);
    }
    if t != "" && RefersTo(contracts, owner, t) {
      var c, m, f :| c in contracts && c.service == owner && m in c.messages && f in m.fields && f.isCrossFk &&
        f.refService == t && t != owner;
      var k := KeyOf(owner, m.name, f);
      assert IsForeign(c.service, f);
      ContractKeysMembers(contracts, k);
      assert k in keys;
      var i :| 0 <= i < |keys| && keys[i] == k;
      assert keys[i].refService in Targets(keys, owner);
    }
  }

  /** Some edge leads from a model module of service `n` into the other service `t`. */
  ghost predicate ModelEdge(clusters: seq<Cluster>, edges: seq<DigestEdge>, n: string, t: string) {
    exists i :: 0 <= i < |edges| && Crosses(clusters, edges[i], n, t) && IsModel(edges[i].from)
  }

  /** What the final dependency lists mean, in terms of edges and contract fields only: the services that
      a model module's edge or a foreign-key field leads into. A later candidate of the same name takes
      the foreign keys; with distinct names every candidate is the last of its name. */
  lemma DependencyMeaning(
    clusters: seq<Cluster>, edges: seq<DigestEdge>, candidates: seq<Candidate>,
    contracts: seq<Contract>, keys: seq<ForeignKey>, r: seq<Candidate>, i: nat, t: string)
    requires |candidates| == |clusters| && i < |clusters| && CandidateOf(clusters, edges, clusters[i], candidates[i])
    requires multiset(keys) == multiset(ContractKeys(contracts))
    requires Augmented(candidates, keys, r)
    ensures t in r[i].deps <==>
      || ModelEdge(clusters, edges, r[i].name, t)
      || (IsLast(candidates, i) && t != "" && RefersTo(contracts, r[i].name, t))
  {
    hide StringLe, CouplingLe, ServiceOf, IsModel, ContractKeys, CouplingsExact, Targets, IsLast, RefersTo, Crosses;
    TargetsMeaning(contracts, keys, candidates[i].name, t);
    assert t in r[i].deps <==> t in Elements(r[i].deps);
    assert t in candidates[i].deps <==> t in Elements(candidates[i].deps);
  }

  /** So no service depends on itself or on a nameless one, and no dependency is listed twice. */
  lemma NoSelfDependency(
    clusters: seq<Cluster>, edges: seq<DigestEdge>, candidates: seq<Candidate>,
    contracts: seq<Contract>, keys: seq<ForeignKey>, r: seq<Candidate>, i: nat)
    requires |candidates| == |clusters| && i < |clusters| && CandidateOf(clusters, edges, clusters[i], candidates[i])
    requires multiset(keys) == multiset(ContractKeys(contracts))
    requires Augmented(candidates, keys, r)
    ensures r[i].name !in r[i].deps && "" !in r[i].deps && NoDuplicates(r[i].deps)
  {
    hide StringLe, CouplingLe, ServiceOf, IsModel, ContractKeys, DepsExact, CouplingsExact, Targets, IsLast;
    DependencyMeaning(clusters, edges, candidates, contracts, keys, r, i, r[i].name);
    DependencyMeaning(clusters, edges, candidates, contracts, keys, r, i, "");
  }
}
