/** `enrichModuleCards` of the analysis worker with its hand-written insertion sort. */
module Enrichment {
  import opened Cycles
  import opened Digests

  // ---------------------------------------------------------------- the insertion sort

  /** `x` moved left past every hub with a smaller fan-in. */
  function InsertHub(s: seq<Hub>, x: Hub): seq<Hub> {
    if s == [] || s[|s| - 1].fanIn >= x.fanIn then s + [x]
    else InsertHub(s[..|s| - 1], x) + [s[|s| - 1]]
  }

  function SortedHubs(s: seq<Hub>): seq<Hub> {
    if s == [] then [] else InsertHub(SortedHubs(s[..|s| - 1]), s[|s| - 1])
  }

  ghost predicate NonIncreasing(s: seq<Hub>) {
    forall i, j :: 0 <= i < j < |s| ==> s[i].fanIn >= s[j].fanIn
  }

  lemma {:induction false} InsertHubAt(s: seq<Hub>, x: Hub, j: nat)
    requires j <= |s| && (j > 0 ==> s[j - 1].fanIn >= x.fanIn) && forall k :: j <= k < |s| ==> s[k].fanIn < x.fanIn
    ensures InsertHub(s, x) == s[..j] + [x] + s[j..]
  {
    if j < |s| {
      var n := |s| - 1;
      InsertHubAt(s[..n], x, j);
      assert s[j..] == s[..n][j..] + [s[n]];
      assert s[..n][..j] == s[..j];
    } else {
      assert s[..j] == s && s[j..] == [];
    }
  }

  /** The sort, in place as in the source. */
  method SortHubsInPlace(a: array<Hub>)
    modifies a
    ensures a[..] == SortedHubs(old(a[..]))
  {
    if a.Length == 0 {
      return;
    }
    ghost var s := a[..];
    assert s[..1][..0] == [];
    var i := 1;
    while i < a.Length
      invariant 1 <= i <= a.Length
      invariant a[..i] == SortedHubs(s[..i]) && a[i..] == s[i..]
    {
      ghost var p, x := a[..i], a[i];
      assert x == s[i..][0];
      SinkLeft(a, i);
      assert s[..i + 1][..i] == s[..i];
      assert a[i + 1..] == s[i..][1..];
      i := i + 1;
    }
    assert s[..|s|] == s && a[..a.Length] == a[..];
  }

  /** The inner loop. */
  method SinkLeft(a: array<Hub>, i: nat)
    requires i < a.Length
    modifies a
    ensures a[..i + 1] == InsertHub(old(a[..i]), old(a[i]))
    ensures a[i + 1..] == old(a[i + 1..])
  {
    ghost var p, x := a[..i], a[i];
    var j := i;
    while j > 0 && a[j].fanIn > a[j - 1].fanIn
      invariant 0 <= j <= i
      invariant forall k :: 0 <= k < j ==> a[k] == p[k]
      invariant a[j] == x
      invariant forall k :: j < k <= i ==> a[k] == p[k - 1] && p[k - 1].fanIn < x.fanIn
      invariant forall k :: i < k < a.Length ==> a[k] == old(a[k])
    {
      a[j], a[j - 1] := a[j - 1], a[j];
      j := j - 1;
    }
    ghost var s := a[..i + 1];
    forall k | j < k <= i ensures s[k] == p[k - 1] && p[k - 1].fanIn < x.fanIn {
      assert s[k] == a[k];
    }
    forall k | 0 <= k < j ensures s[k] == p[k] {
      assert s[k] == a[k];
    }
    assert s[j] == a[j] && (j > 0 ==> s[j - 1] == a[j - 1]);
    SunkIsInserted(p, x, j, s);
  }

  /** The array part after the loop: `x` at `j`, the hubs it passed shifted by one. */
  lemma SunkIsInserted(p: seq<Hub>, x: Hub, j: nat, s: seq<Hub>)
    requires j <= |p| && |s| == |p| + 1 && s[j] == x
    requires forall k :: 0 <= k < j ==> s[k] == p[k]
    requires forall k :: j < k <= |p| ==> s[k] == p[k - 1] && p[k - 1].fanIn < x.fanIn
    requires j > 0 ==> s[j - 1].fanIn >= x.fanIn
    ensures s == InsertHub(p, x)
  {
    hide InsertHub;
    assert forall k :: j <= k < |p| ==> p[k] == s[k + 1];
    InsertHubAt(p, x, j);
    assert s == p[..j] + [x] + p[j..];
  }

  lemma {:induction false} InsertHubPermutes(s: seq<Hub>, x: Hub)
    ensures multiset(InsertHub(s, x)) == multiset(s) + multiset{x}
  {
    if s != [] && s[|s| - 1].fanIn < x.fanIn {
      var n := |s| - 1;
      InsertHubPermutes(s[..n], x);
      assert s == s[..n] + [s[n]];
    }
  }

  lemma SinkPosition(s: seq<Hub>, x: Hub) returns (j: nat)
    ensures j <= |s| && (j > 0 ==> s[j - 1].fanIn >= x.fanIn) && forall k :: j <= k < |s| ==> s[k].fanIn < x.fanIn
  {
    j := |s|;
    while j > 0 && s[j - 1].fanIn < x.fanIn
      invariant 0 <= j <= |s| && forall k :: j <= k < |s| ==> s[k].fanIn < x.fanIn
    {
      j := j - 1;
    }
  }

  lemma InsertHubKeeps(s: seq<Hub>, x: Hub)
    requires NonIncreasing(s)
    ensures NonIncreasing(InsertHub(s, x)) && multiset(InsertHub(s, x)) == multiset(s) + multiset{x}
  {
    hide InsertHub;
    InsertHubPermutes(s, x);
    var j := SinkPosition(s, x);
    InsertHubAt(s, x, j);
    var r := s[..j] + [x] + s[j..];
    assert forall k :: 0 <= k < |r| ==> r[k] == if k < j then s[k] else if k == j then x else s[k - 1];
    assert forall k :: 0 <= k < j ==> s[k].fanIn >= x.fanIn;
  }

  /** The sort returns a permutation in non-increasing order of fan-in. */
  lemma {:induction false} SortedHubsSorted(s: seq<Hub>)
    ensures NonIncreasing(SortedHubs(s)) && multiset(SortedHubs(s)) == multiset(s)
  {
    if s != [] {
      var n := |s| - 1;
      SortedHubsSorted(s[..n]);
      InsertHubKeeps(SortedHubs(s[..n]), s[n]);
      assert s == s[..n] + [s[n]];
    }
  }

  /** The hubs with a given fan-in, in order. */
  function WithFanIn(s: seq<Hub>, f: nat): seq<Hub> {
    if s == [] then []
    else WithFanIn(s[..|s| - 1], f) + if s[|s| - 1].fanIn == f then [s[|s| - 1]] else []
  }

  lemma WithFanInAppend(s: seq<Hub>, x: Hub, f: nat)
    ensures WithFanIn(s + [x], f) == WithFanIn(s, f) + if x.fanIn == f then [x] else []
  {
    assert (s + [x])[..|s|] == s;
  }

  lemma {:induction false} InsertHubStable(s: seq<Hub>, x: Hub, f: nat)
    ensures WithFanIn(InsertHub(s, x), f) == WithFanIn(s + [x], f)
  {
    hide WithFanIn;
    if s != [] && s[|s| - 1].fanIn < x.fanIn {
      var n := |s| - 1;
      InsertHubStable(s[..n], x, f);
      WithFanInAppend(InsertHub(s[..n], x), s[n], f);
      WithFanInAppend(s, x, f);
      WithFanInAppend(s[..n], x, f);
      WithFanInAppend(s[..n], s[n], f);
      assert s == s[..n] + [s[n]];
    }
  }

  /** The sort is stable: hubs of equal fan-in keep their order. */
  lemma {:induction false} SortedHubsStable(s: seq<Hub>, f: nat)
    ensures WithFanIn(SortedHubs(s), f) == WithFanIn(s, f)
  {
    if s != [] {
      var n := |s| - 1;
      SortedHubsStable(s[..n], f);
      InsertHubStable(SortedHubs(s[..n]), s[n], f);
      WithFanInAppend(SortedHubs(s[..n]), s[n], f);
    }
  }

  // ---------------------------------------------------------------- enrichment

  /** A card of the analysis summary with its fan figures; `fanInProduction` leaves test importers out. */
  datatype Enriched = Enriched(rich: RichCard, fanInProduction: nat)

  /** Total weight of the edges into a module whose source is not a test module. */
  function ProductionInto(edges: seq<DigestEdge>, tests: set<string>, m: string): nat {
    if edges == [] then 0
    else
      var e := edges[|edges| - 1];
      ProductionInto(edges[..|edges| - 1], tests, m) + if e.to == m && e.from !in tests then e.weight else 0
  }

  /** The figures of the analysis worker: modules without a name get none. */
  function Figure(m: string, total: nat): nat {
    if m == "" then 0 else Wrap(total)
  }

  function EnrichedCard(edges: seq<DigestEdge>, tests: set<string>, c: Card): Enriched {
    var fi := Figure(c.name, WeightInto(edges, c.name));
    Enriched(
      RichCard(c, fi, Figure(c.name, WeightOutOf(edges, c.name)), IsSharedStateHubCard(c, fi)),
      Figure(c.name, ProductionInto(edges, tests, c.name)))
  }

  ghost predicate Tally(m: map<string, nat>, total: string -> nat) {
    forall k :: At(m, k) == Figure(k, total(k))
  }

  lemma TallyAdd(m: map<string, nat>, k: string, w: nat, total: string -> nat, total': string -> nat)
    requires Tally(m, total) && k != ""
    requires forall x :: total'(x) == total(x) + if x == k then w else 0
    ensures Tally(AddTo(m, k, w), total')
  {
    WrapAdd(total(k), w);
    hide Wrap;
    forall x ensures At(AddTo(m, k, w), x) == Figure(x, total'(x)) {
      assert At(m, x) == Figure(x, total(x));
    }
  }

  lemma TallySame(m: map<string, nat>, total: string -> nat, total': string -> nat)
    requires Tally(m, total)
    requires forall x :: x != "" ==> total'(x) == total(x)
    ensures Tally(m, total')
  {
    forall x ensures At(m, x) == Figure(x, total'(x)) {
      assert At(m, x) == Figure(x, total(x));
    }
  }

  /** The accumulation loop over the edges. */
  method FanTables(edges: seq<DigestEdge>, tests: set<string>)
    returns (fanIn: map<string, nat>, fanInProd: map<string, nat>, fanOut: map<string, nat>)
    ensures Tally(fanIn, k => WeightInto(edges, k))
    ensures Tally(fanInProd, k => ProductionInto(edges, tests, k))
    ensures Tally(fanOut, k => WeightOutOf(edges, k))
  {
    fanIn, fanInProd, fanOut := map[], map[], map[];
    for i := 0 to |edges|
      invariant Tally(fanIn, k => WeightInto(edges[..i], k))
      invariant Tally(fanInProd, k => ProductionInto(edges[..i], tests, k))
      invariant Tally(fanOut, k => WeightOutOf(edges[..i], k))
    {
      hide Tally, AddTo;
      var e := edges[i];
      PrefixTotals(edges, tests, i);
      if e.from != "" {
        TallyAdd(fanOut, e.from, e.weight, k => WeightOutOf(edges[..i], k), k => WeightOutOf(edges[..i + 1], k));
        fanOut := AddTo(fanOut, e.from, e.weight);
      } else {
        TallySame(fanOut, k => WeightOutOf(edges[..i], k), k => WeightOutOf(edges[..i + 1], k));
      }
      if e.to != "" {
        TallyAdd(fanIn, e.to, e.weight, k => WeightInto(edges[..i], k), k => WeightInto(edges[..i + 1], k));
        fanIn := AddTo(fanIn, e.to, e.weight);
        if e.from !in tests {
          TallyAdd(fanInProd, e.to, e.weight, k => ProductionInto(edges[..i], tests, k),
            k => ProductionInto(edges[..i + 1], tests, k));
          fanInProd := AddTo(fanInProd, e.to, e.weight);
        } else {
          TallySame(fanInProd, k => ProductionInto(edges[..i], tests, k),
            k => ProductionInto(edges[..i + 1], tests, k));
        }
      } else {
        TallySame(fanIn, k => WeightInto(edges[..i], k), k => WeightInto(edges[..i + 1], k));
        TallySame(fanInProd, k => ProductionInto(edges[..i], tests, k), k => ProductionInto(edges[..i + 1], tests, k));
      }
    }
    assert edges[..|edges|] == edges;
  }

  lemma PrefixTotals(edges: seq<DigestEdge>, tests: set<string>, i: nat)
    requires i < |edges|
    ensures forall k ::
      WeightInto(edges[..i + 1], k) == WeightInto(edges[..i], k) +
        if k == edges[i].to then edges[i].weight else 0
    ensures forall k ::
      WeightOutOf(edges[..i + 1], k) == WeightOutOf(edges[..i], k) +
        if k == edges[i].from then edges[i].weight else 0
    ensures forall k ::
      ProductionInto(edges[..i + 1], tests, k) == ProductionInto(edges[..i], tests, k) +
        if k == edges[i].to && edges[i].from !in tests then edges[i].weight else 0
  {
    assert edges[..i + 1][..i] == edges[..i];
  }

  /** The edges whose source is not a test module. */
  function WithoutTests(edges: seq<DigestEdge>, tests: set<string>): seq<DigestEdge> {
    if edges == [] then []
    else
      var e := edges[|edges| - 1];
      WithoutTests(edges[..|edges| - 1], tests) + if e.from in tests then [] else [e]
  }

  /** Production fan-in is the fan-in of the graph without the edges that test modules make. */
  lemma {:induction false} ProductionIsFanIn(edges: seq<DigestEdge>, tests: set<string>, m: string)
    ensures ProductionInto(edges, tests, m) == WeightInto(WithoutTests(edges, tests), m)
  {
    if edges != [] {
      var n := |edges| - 1;
      ProductionIsFanIn(edges[..n], tests, m);
      var front := WithoutTests(edges[..n], tests);
      assert (front + [edges[n]])[..|front|] == front;
      assert front + [] == front;
    }
  }

  lemma {:induction false} AllProduction(edges: seq<DigestEdge>, m: string)
    ensures ProductionInto(edges, {}, m) == WeightInto(edges, m)
  {
    if edges != [] {
      AllProduction(edges[..|edges| - 1], m);
    }
  }

  /** Without test modules every importer counts as production: the field equals the fan-in. It is zero,
      as the source says it stays, exactly when the fan-in is. */
  lemma NoTestsAllProduction(edges: seq<DigestEdge>, c: Card)
    ensures EnrichedCard(edges, {}, c).fanInProduction == EnrichedCard(edges, {}, c).rich.fanIn
    ensures EnrichedCard(edges, {}, c).fanInProduction == 0 <==> Figure(c.name, WeightInto(edges, c.name)) == 0
  {
    hide IsSharedStateHubCard;
    AllProduction(edges, c.name);
  }

  /** One importer and no test modules. */
  lemma ProductionNotZero()
    ensures EnrichedCard([DigestEdge("b", "a", 3)], {}, Card("a", "", [], [], [], [], "", 0)).fanInProduction == 3
  {
    var e := [DigestEdge("b", "a", 3)];
    assert e[..0] == [];
    AllProduction(e, "a");
    assert WeightInto(e, "a") == 3;
  }

  function RichOf(es: seq<Enriched>): seq<RichCard> {
    seq(|es|, i requires 0 <= i < |es| => es[i].rich)
  }

  method EnrichModuleCards(cards: seq<Card>, edges: seq<DigestEdge>, tests: set<string>)
    returns (enriched: seq<Enriched>, hubs: seq<Hub>)
    ensures |enriched| == |cards| && forall i :: 0 <= i < |cards| ==>
      enriched[i] == EnrichedCard(edges, tests, cards[i])
    ensures hubs == SortedHubs(HubsAmong(RichOf(enriched)))
  {
    var fanIn, fanInProd, fanOut := FanTables(edges, tests);
    enriched := [];
    var found := [];
    for i := 0 to |cards|
      invariant |enriched| == i && forall k :: 0 <= k < i ==> enriched[k] == EnrichedCard(edges, tests, cards[k])
      invariant found == HubsAmong(RichOf(enriched))
    {
      var c := cards[i];
      var fi := At(fanIn, c.name);
      var ec := Enriched(RichCard(c, fi, At(fanOut, c.name), IsSharedStateHubCard(c, fi)), At(fanInProd, c.name));
      assert ec == EnrichedCard(edges, tests, c);
      assert RichOf(enriched + [ec])[..i] == RichOf(enriched);
      if ec.rich.isHub {
        found := found + [HubOf(ec.rich)];
      }
      enriched := enriched + [ec];
    }
    var a := new Hub[|found|](i requires 0 <= i < |found| => found[i]);
    assert a[..] == found;
    SortHubsInPlace(a);
    hubs := a[..];
  }
}
