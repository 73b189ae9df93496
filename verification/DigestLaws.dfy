/** Laws that tie the digest stages together: the two hub implementations agree, the top-K cut
    loses nothing, and coupling weight is conserved. */
module DigestLaws {
  import opened Ordering
  import opened Cycles
  import opened Text
  import opened Digests
  import opened Enrichment
  import opened Wrappers
  import opened Distiller

  // ---------------------------------------------------------------- the two hub implementations

  lemma HubTestsAgree(c: Card, fanIn: nat)
    ensures IsSharedStateHub(c, fanIn) <==> IsSharedStateHubCard(c, fanIn)
  {
  }

  /** Both workers give a card the same figures and flag, wrap-around included, exactly when it has a
      name or nothing is coupled to the nameless module. */
  lemma CardsAgreeIff(edges: seq<DigestEdge>, tests: set<string>, c: Card)
    ensures EnrichedCard(edges, tests, c).rich == Rich(edges, c) <==>
      c.name != "" || (Wrap(WeightInto(edges, "")) == 0 && Wrap(WeightOutOf(edges, "")) == 0)
  {
    hide IsSharedStateHub, IsSharedStateHubCard, Wrap;
    HubTestsAgree(c, Wrap(WeightInto(edges, c.name)));
  }

  function FanIns(s: seq<Hub>): seq<nat> {
    seq(|s|, i requires 0 <= i < |s| => s[i].fanIn)
  }

  lemma HubLeDescending(hubs: seq<Hub>)
    requires SortedBy(hubs, HubLe)
    ensures NonIncreasing(hubs)
  {
    forall i, j | 0 <= i < j < |hubs| ensures hubs[i].fanIn >= hubs[j].fanIn {
      assert HubLe(hubs[i], hubs[j]);
    }
  }

  lemma SameFanInOrder(a: seq<Hub>, b: seq<Hub>)
    requires multiset(a) == multiset(b) && NonIncreasing(a) && NonIncreasing(b)
    ensures FanIns(a) == FanIns(b)
  {
    var fanIn := (h: Hub) => h.fanIn;
    MappedPermuted(fanIn, a, b);
    assert FanIns(a) == Mapped(fanIn, a) && FanIns(b) == Mapped(fanIn, b);
    DescendingUnique(FanIns(a), FanIns(b));
  }

  /** For the same edges and named cards, the list that the analysis worker stores and the list in the
      digest hold the same hubs, with the same fan-ins place by place. */
  lemma HubListsAgree(
    cards: seq<Card>, edges: seq<DigestEdge>, tests: set<string>, enriched: seq<Enriched>, stored: seq<Hub>,
    topK: int, order: seq<Card>, d: Digest)
    requires forall i :: 0 <= i < |cards| ==> cards[i].name != ""
    requires |enriched| == |cards| && forall i :: 0 <= i < |cards| ==>
      enriched[i] == EnrichedCard(edges, tests, cards[i])
    requires stored == SortedHubs(HubsAmong(RichOf(enriched)))
    requires CardsDistilled(edges, cards, topK, order, d)
    ensures RichOf(enriched) == AllRich(edges, cards)
    ensures multiset(stored) == multiset(d.hubs) && FanIns(stored) == FanIns(d.hubs)
  {
    hide Rich, EnrichedCard, Totals, RouteKeys, Ranked, HubLe, HubsAmong;
    forall i | 0 <= i < |cards| ensures enriched[i].rich == Rich(edges, cards[i]) {
      CardsAgreeIff(edges, tests, cards[i]);
    }
    assert RichOf(enriched) == AllRich(edges, cards);
    AllRichPermuted(edges, order, cards);
    HubsAmongPermuted(AllRich(edges, order), AllRich(edges, cards));
    SortedHubsSorted(HubsAmong(RichOf(enriched)));
    HubLeDescending(d.hubs);
    SameFanInOrder(stored, d.hubs);
  }

  // ---------------------------------------------------------------- the order of tied hubs

  /** Hubs of equal fan-in stand in the order of their names. */
  ghost predicate TiesByName(hubs: seq<Hub>) {
    forall i, j :: 0 <= i < j < |hubs| && hubs[i].fanIn == hubs[j].fanIn ==> StringLe(hubs[i].name, hubs[j].name)
  }

  predicate NameLe(a: Hub, b: Hub) { StringLe(a.name, b.name) }

  lemma {:induction false} WithFanInMembers(s: seq<Hub>, f: nat, h: Hub)
    ensures h in WithFanIn(s, f) <==> h in s && h.fanIn == f
  {
    if s != [] {
      WithFanInMembers(s[..|s| - 1], f, h);
      assert s == s[..|s| - 1] + [s[|s| - 1]];
    }
  }

  lemma AppendSorted(s: seq<Hub>, x: Hub)
    ensures SortedBy(s + [x], NameLe) <==> SortedBy(s, NameLe) && forall h :: h in s ==> NameLe(h, x)
  {
    hide NameLe;
    var all := s + [x];
    assert all[|s|] == x && forall i :: 0 <= i < |s| ==> all[i] == s[i];
    if SortedBy(all, NameLe) {
      forall i, j | 0 <= i < j < |s| ensures NameLe(s[i], s[j]) { assert NameLe(all[i], all[j]); }
      forall h | h in s ensures NameLe(h, x) {
        var i :| 0 <= i < |s| && s[i] == h;
        assert NameLe(all[i], all[|s|]);
      }
    }
  }

  lemma AppendTies(s: seq<Hub>, x: Hub)
    ensures TiesByName(s + [x]) <==> TiesByName(s) && forall h :: h in s && h.fanIn == x.fanIn ==> NameLe(h, x)
  {
    hide StringLe;
    var all := s + [x];
    assert all[|s|] == x && forall i :: 0 <= i < |s| ==> all[i] == s[i];
    if TiesByName(all) {
      forall i, j | 0 <= i < j < |s| && s[i].fanIn == s[j].fanIn ensures StringLe(s[i].name, s[j].name) {
        assert all[i] == s[i] && all[j] == s[j];
      }
      forall h | h in s && h.fanIn == x.fanIn ensures NameLe(h, x) {
        var i :| 0 <= i < |s| && s[i] == h;
        assert all[i] == h;
      }
    }
  }

  /** The hubs of one fan-in stand in the order of their names. */
  ghost predicate GroupSorted(s: seq<Hub>, f: nat) {
    SortedBy(WithFanIn(s, f), NameLe)
  }

  lemma GroupStep(front: seq<Hub>, x: Hub, f: nat)
    ensures GroupSorted(front + [x], f) <==>
      GroupSorted(front, f) && (f == x.fanIn ==> forall h :: h in front && h.fanIn == f ==> NameLe(h, x))
  {
    hide NameLe, SortedBy;
    WithFanInAppend(front, x, f);
    if f == x.fanIn {
      AppendSorted(WithFanIn(front, f), x);
      forall h ensures h in WithFanIn(front, f) <==> h in front && h.fanIn == f { WithFanInMembers(front, f, h); }
    } else {
      assert WithFanIn(front + [x], f) == WithFanIn(front, f);
    }
    hide WithFanIn;
  }

  /** Ties are by name exactly when every group of equal fan-in is sorted by name. */
  lemma {:induction false} TiesIffGroups(s: seq<Hub>)
    ensures TiesByName(s) <==> forall f :: GroupSorted(s, f)
  {
    if s == [] {
      assert forall f :: WithFanIn(s, f) == [];
    } else {
      hide TiesByName, NameLe, GroupSorted;
      var n := |s| - 1;
      var front, x := s[..n], s[n];
      TiesIffGroups(front);
      assert s == front + [x];
      AppendTies(front, x);
      forall f: nat ensures GroupSorted(s, f) <==>
        GroupSorted(front, f) && (f == x.fanIn ==> forall h :: h in front && h.fanIn == f ==> NameLe(h, x))
      {
        GroupStep(front, x, f);
      }
      assert GroupSorted(s, x.fanIn) || !GroupSorted(s, x.fanIn);
    }
  }

  /** The stable insertion sort leaves tied hubs as they were. */
  lemma SortKeepsTies(s: seq<Hub>)
    ensures TiesByName(SortedHubs(s)) <==> TiesByName(s)
  {
    hide TiesByName, SortedHubs, WithFanIn, SortedBy;
    TiesIffGroups(s);
    TiesIffGroups(SortedHubs(s));
    forall f: nat ensures GroupSorted(SortedHubs(s), f) <==> GroupSorted(s, f) { SortedHubsStable(s, f); }
    hide GroupSorted;
  }

  lemma ByFanInAndName(hubs: seq<Hub>)
    requires NonIncreasing(hubs)
    ensures SortedBy(hubs, HubLe) <==> TiesByName(hubs)
  {
    hide StringLe;
    if SortedBy(hubs, HubLe) {
      forall i, j | 0 <= i < j < |hubs| && hubs[i].fanIn == hubs[j].fanIn ensures StringLe(hubs[i].name, hubs[j].name) {
        assert HubLe(hubs[i], hubs[j]);
      }
    }
  }

  /** When the stored list is in the digest's order, as the source says: for named cards with distinct names
      the two lists are equal if and only if hubs of equal fan-in are stored in the order of their names. */
  lemma HubOrdersAgreeIff(
    cards: seq<Card>, edges: seq<DigestEdge>, tests: set<string>, enriched: seq<Enriched>, stored: seq<Hub>,
    topK: int, order: seq<Card>, d: Digest)
    requires DistinctNames(cards) && forall i :: 0 <= i < |cards| ==> cards[i].name != ""
    requires |enriched| == |cards| && forall i :: 0 <= i < |cards| ==>
      enriched[i] == EnrichedCard(edges, tests, cards[i])
    requires stored == SortedHubs(HubsAmong(RichOf(enriched)))
    requires CardsDistilled(edges, cards, topK, order, d)
    ensures stored == d.hubs <==> TiesByName(HubsAmong(RichOf(enriched)))
  {
    HubListsAgree(cards, edges, tests, enriched, stored, topK, order, d);
    hide Rich, EnrichedCard, Totals, RouteKeys, Ranked, HubLe, HubsAmong, TiesByName, SortedHubs, NonIncreasing;
    SortedHubsSorted(HubsAmong(RichOf(enriched)));
    SortKeepsTies(HubsAmong(RichOf(enriched)));
    ByFanInAndName(stored);
    if SortedBy(stored, HubLe) {
      DistinctPermuted(cards, order);
      HubRankingUnique(edges, order, stored, d.hubs);
    }
  }

  /** Two tied hubs stored against the order of their names. */
  lemma TiedHubsDiffer()
    ensures var s := [Hub("b", [], 2), Hub("a", [], 2)];
      SortedHubs(s) == s && !SortedBy(s, HubLe) && SortedBy([s[1], s[0]], HubLe)
  {
    var s := [Hub("b", [], 2), Hub("a", [], 2)];
    assert s[..1] == [s[0]] && [s[0]][..0] == [];
    assert SortedHubs([s[0]]) == [s[0]];
    assert !HubLe(s[0], s[1]);
    assert HubLe(s[1], s[0]);
  }

  // ---------------------------------------------------------------- which hubs there are

  /** A module that two or more imports lead to, by weight, and that holds module-level state or is a PHP file
      addressed by its own path. */
  ghost predicate HubModule(edges: seq<DigestEdge>, c: Card) {
    && Wrap(WeightInto(edges, c.name)) >= 2
    && (|c.state| > 0 || (c.file != "" && c.name == c.file && HasSuffix(ToLower(c.file), ".php")))
  }

  lemma {:induction false} HubsAmongMembers(edges: seq<DigestEdge>, cards: seq<Card>, h: Hub)
    ensures h in HubsAmong(AllRich(edges, cards)) <==>
      exists c :: c in cards && HubModule(edges, c) && h == Hub(c.name, c.state, Wrap(WeightInto(edges, c.name)))
  {
    hide Wrap, HasSuffix, ToLower;
    if cards != [] {
      var n := |cards| - 1;
      HubsAmongMembers(edges, cards[..n], h);
      assert AllRich(edges, cards)[..n] == AllRich(edges, cards[..n]);
      assert cards == cards[..n] + [cards[n]];
    }
  }

  /** The hubs of a digest: exactly the hub modules among all cards, kept or cut, with name, state and
      fan-in. */
  lemma HubsMeaning(edges: seq<DigestEdge>, cards: seq<Card>, topK: int, order: seq<Card>, d: Digest, h: Hub)
    requires CardsDistilled(edges, cards, topK, order, d)
    ensures h in d.hubs <==>
      exists c :: c in cards && HubModule(edges, c) && h == Hub(c.name, c.state, Wrap(WeightInto(edges, c.name)))
  {
    hide Rich, RouteKeys, HubsAmong, Totals, Ranked, HubLe, Wrap, HubModule, AllRich;
    HubsAmongMembers(edges, order, h);
    PermutationKeeps(d.hubs, HubsAmong(AllRich(edges, order)));
    PermutationKeeps(order, cards);
  }

  // ---------------------------------------------------------------- the top-K cut

  lemma {:induction false} SumConcat(f: Card -> nat, a: seq<Card>, b: seq<Card>)
    ensures Sum(f, a + b) == Sum(f, a) + Sum(f, b)
  {
    if b == [] {
      assert a + b == a;
    } else {
      var n := |b| - 1;
      SumConcat(f, a, b[..n]);
      assert (a + b)[..|a + b| - 1] == a + b[..n];
    }
  }

  lemma {:induction false} SumPermuted(f: Card -> nat, a: seq<Card>, b: seq<Card>)
    requires multiset(a) == multiset(b)
    ensures Sum(f, a) == Sum(f, b)
    decreases |a|
  {
    if a == [] {
      assert |multiset(b)| == 0;
    } else {
      hide Sum;
      var n := |a| - 1;
      var i := TakeOut(a, b);
      SumPermuted(f, a[..n], b[..i] + b[i + 1..]);
      SumConcat(f, a[..n], [b[i]]);
      SumConcat(f, b[..i], b[i + 1..]);
      SumConcat(f, b[..i], [b[i]]);
      SumConcat(f, b[..i] + [b[i]], b[i + 1..]);
    }
  }

  function CutTotal(a: Option<Aggregate>, pick: Aggregate -> nat): nat {
    if a.Some? then pick(a.value) else 0
  }

  lemma SumSplit(f: Card -> nat, cards: seq<Card>, order: seq<Card>, k: nat)
    requires multiset(order) == multiset(cards) && k <= |order|
    ensures Sum(f, order[..k]) + Sum(f, order[k..]) == Sum(f, cards)
  {
    assert order == order[..k] + order[k..];
    SumConcat(f, order[..k], order[k..]);
    SumPermuted(f, order, cards);
  }

  /** The cut loses nothing: the kept cards and the aggregate card together have the totals of all
      cards; lines of code are a uint32 and agree modulo 2^32. */
  lemma CutConserves(edges: seq<DigestEdge>, cards: seq<Card>, topK: int, order: seq<Card>, d: Digest)
    requires CardsDistilled(edges, cards, topK, order, d)
    ensures |d.cards| + CutTotal(d.aggregate, (a: Aggregate) => a.modules) == |cards|
    ensures Sum(FunctionCount, Plain(d.cards)) + CutTotal(d.aggregate, (a: Aggregate) => a.functions) ==
      Sum(FunctionCount, cards)
    ensures Sum(ClassCount, Plain(d.cards)) + CutTotal(d.aggregate, (a: Aggregate) => a.classes) ==
      Sum(ClassCount, cards)
    ensures Sum(StateCount, Plain(d.cards)) + CutTotal(d.aggregate, (a: Aggregate) => a.state) == Sum(StateCount, cards)
    ensures Sum(RouteCount, Plain(d.cards)) + CutTotal(d.aggregate, (a: Aggregate) => a.routes) ==
      Sum(RouteCount, cards)
    ensures Wrap(Sum(LocCount, Plain(d.cards)) + CutTotal(d.aggregate, (a: Aggregate) => a.loc)) ==
      Wrap(Sum(LocCount, cards))
  {
    hide HubsAmong, RouteKeys, Ranked, HubLe, Wrap, Sum;
    var k := KeptCount(topK, |cards|);
    PlainRich(edges, order[..k]);
    AllRichSize(edges, order[..k]);
    hide AllRich;
    SumSplit(FunctionCount, cards, order, k);
    SumSplit(ClassCount, cards, order, k);
    SumSplit(StateCount, cards, order, k);
    SumSplit(RouteCount, cards, order, k);
    SumSplit(LocCount, cards, order, k);
    if d.aggregate.Some? {
      WrapAdd(Sum(LocCount, order[k..]), Sum(LocCount, order[..k]));
    } else {
      assert order[k..] == [];
      SumNone();
    }
  }

  lemma SumNone()
    ensures forall f :: Sum(f, []) == 0
  {
  }

  /** Every kept card has at least the weighted degree of every card that was cut. */
  lemma CutByDegree(edges: seq<DigestEdge>, cards: seq<Card>, topK: int, order: seq<Card>, d: Digest, i: nat, j: nat)
    requires CardsDistilled(edges, cards, topK, order, d)
    requires i < |d.cards| && |d.cards| <= j < |order|
    ensures Degree(edges, d.cards[i].card) >= Degree(edges, order[j])
  {
    hide HubsAmong, RouteKeys, HubLe, Totals, Degree;
    assert d.cards[i].card == order[i];
    assert RanksBefore(edges, order[i], order[j]);
  }

  ghost predicate DistinctNames(cards: seq<Card>) {
    forall i, j :: 0 <= i < j < |cards| ==> cards[i].name != cards[j].name
  }

  lemma RankingUnique(edges: seq<DigestEdge>, a: seq<Card>, b: seq<Card>)
    requires Ranked(edges, a) && Ranked(edges, b) && multiset(a) == multiset(b) && DistinctNames(a)
    ensures a == b
  {
    hide Degree, StringLe;
    var le := (x: Card, y: Card) => RanksBefore(edges, x, y);
    forall x, y | x in a && y in a && le(x, y) && le(y, x) ensures x == y {
      StringLeAntisymmetric(x.name, y.name);
      var i :| 0 <= i < |a| && a[i] == x;
      var j :| 0 <= j < |a| && a[j] == y;
    }
    forall x ensures le(x, x) { StringLeTotal(x.name, x.name); }
    SortedUnique(a, b, le);
  }

  lemma HubRankingUnique(edges: seq<DigestEdge>, order: seq<Card>, a: seq<Hub>, b: seq<Hub>)
    requires SortedBy(a, HubLe) && SortedBy(b, HubLe) && DistinctNames(order)
    requires multiset(a) == multiset(b) == multiset(HubsAmong(AllRich(edges, order)))
    ensures a == b
  {
    hide StringLe, HubsAmong, AllRich;
    PermutationKeeps(a, HubsAmong(AllRich(edges, order)));
    forall x, y | x in a && y in a && HubLe(x, y) && HubLe(y, x) ensures x == y {
      StringLeAntisymmetric(x.name, y.name);
      HubsNamedOnce(edges, order, x, y);
    }
    forall x ensures HubLe(x, x) { StringLeTotal(x.name, x.name); }
    SortedUnique(a, b, HubLe);
  }

  lemma {:induction false} HubFromCard(edges: seq<DigestEdge>, order: seq<Card>, h: Hub) returns (i: nat)
    requires h in HubsAmong(AllRich(edges, order))
    ensures i < |order| && h == HubOf(Rich(edges, order[i]))
  {
    hide Rich;
    var n := |order| - 1;
    var rich := AllRich(edges, order);
    assert rich[..n] == AllRich(edges, order[..n]);
    if h in HubsAmong(rich[..n]) {
      i := HubFromCard(edges, order[..n], h);
    } else {
      i := n;
    }
  }

  lemma HubsNamedOnce(edges: seq<DigestEdge>, order: seq<Card>, x: Hub, y: Hub)
    requires DistinctNames(order) && x.name == y.name
    requires x in HubsAmong(AllRich(edges, order)) && y in HubsAmong(AllRich(edges, order))
    ensures x == y
  {
    hide HubsAmong, AllRich, Wrap;
    var i := HubFromCard(edges, order, x);
    var j := HubFromCard(edges, order, y);
  }

  /** With distinct module names the digest does not depend on the order in which the cards were stored:
      the same cards are kept in the same order, the same are cut, and the hubs are listed alike. */
  lemma DigestOrderFree(
    edges: seq<DigestEdge>, topK: int,
    cards: seq<Card>, order: seq<Card>, d: Digest, cards': seq<Card>, order': seq<Card>, d': Digest)
    requires CardsDistilled(edges, cards, topK, order, d) && CardsDistilled(edges, cards', topK, order', d')
    requires multiset(cards) == multiset(cards') && DistinctNames(cards)
    ensures d.cards == d'.cards && d.aggregate == d'.aggregate && d.hubs == d'.hubs
    ensures d.entryPoints.totalRoutes == d'.entryPoints.totalRoutes
  {
    hide Rich, RouteKeys, HubsAmong, Ranked, HubLe, Sum;
    PermutationKeeps(cards, cards');
    DistinctPermuted(cards, order);
    RankingUnique(edges, order, order');
    HubRankingUnique(edges, order, d.hubs, d'.hubs);
  }

  lemma DistinctPermuted(a: seq<Card>, b: seq<Card>)
    requires multiset(a) == multiset(b) && DistinctNames(a)
    ensures DistinctNames(b)
  {
    var name := (c: Card) => c.name;
    MappedPermuted(name, a, b);
    assert NoDuplicates(Mapped(name, a));
    PermutationKeeps(Mapped(name, a), Mapped(name, b));
    forall i, j | 0 <= i < j < |b| ensures b[i].name != b[j].name {
      assert Mapped(name, b)[i] != Mapped(name, b)[j];
    }
  }

  lemma {:induction false} RouteKeysMembers(cards: seq<Card>, key: string)
    ensures key in RouteKeys(cards) <==> exists i :: 0 <= i < |cards| && key in KeysOf(cards[i].routes)
  {
    if cards != [] {
      var n := |cards| - 1;
      RouteKeysMembers(cards[..n], key);
      if i :| 0 <= i < |cards| && key in KeysOf(cards[i].routes) {
        if i < n {
          assert cards[..n][i] == cards[i];
        }
      }
      if i :| 0 <= i < n && key in KeysOf(cards[..n][i].routes) {
        assert cards[i] == cards[..n][i];
      }
    }
  }

  lemma RouteKeysPermuted(a: seq<Card>, b: seq<Card>)
    requires multiset(a) == multiset(b)
    ensures RouteKeys(a) == RouteKeys(b)
  {
    hide KeysOf;
    PermutationKeeps(a, b);
    forall key ensures key in RouteKeys(a) <==> key in RouteKeys(b) {
      RouteKeysMembers(a, key);
      RouteKeysMembers(b, key);
      if i :| 0 <= i < |a| && key in KeysOf(a[i].routes) {
        assert a[i] in b;
      }
      if i :| 0 <= i < |b| && key in KeysOf(b[i].routes) {
        assert b[i] in a;
      }
    }
  }

  /** Hubs and the number of routes do not depend on where the cut is made. */
  lemma CutKeepsHubsAndRoutes(
    edges: seq<DigestEdge>, cards: seq<Card>,
    topK: int, order: seq<Card>, d: Digest, topK': int, order': seq<Card>, d': Digest)
    requires CardsDistilled(edges, cards, topK, order, d) && CardsDistilled(edges, cards, topK', order', d')
    ensures multiset(d.hubs) == multiset(d'.hubs) && FanIns(d.hubs) == FanIns(d'.hubs)
    ensures d.entryPoints.totalRoutes == d'.entryPoints.totalRoutes == |RouteKeys(cards)|
  {
    hide Rich, Totals, RouteKeys, Ranked, HubLe, HubsAmong;
    AllRichPermuted(edges, order, order');
    HubsAmongPermuted(AllRich(edges, order), AllRich(edges, order'));
    HubLeDescending(d.hubs);
    HubLeDescending(d'.hubs);
    SameFanInOrder(d.hubs, d'.hubs);
    RouteKeysPermuted(order, cards);
    RouteKeysPermuted(order', cards);
  }

  ghost predicate NoNul(s: string) {
    '\0' !in s
  }

  lemma FirstNulSplits(a: string, x: string, b: string, y: string)
    requires NoNul(a) && NoNul(b) && a + "\0" + x == b + "\0" + y
    ensures a == b && x == y
  {
    var s, t := a + "\0" + x, b + "\0" + y;
    assert s[|a|] == '\0' && t[|b|] == '\0';
    assert |a| == |b|;
    assert s[..|a|] == a && t[..|b|] == b;
    assert s[|a| + 1..] == x && t[|b| + 1..] == y;
  }

  /** The NUL-separated key tells two routes apart whenever verb and path contain no NUL. */
  lemma RouteKeyInjective(r: Route, q: Route)
    requires NoNul(r.verb) && NoNul(q.verb) && NoNul(r.path) && NoNul(q.path)
    ensures RouteKey(r) == RouteKey(q) <==> r == q
  {
    if RouteKey(r) == RouteKey(q) {
      assert r.verb + "\0" + r.path + "\0" + r.handler == r.verb + "\0" + (r.path + "\0" + r.handler);
      assert q.verb + "\0" + q.path + "\0" + q.handler == q.verb + "\0" + (q.path + "\0" + q.handler);
      FirstNulSplits(r.verb, r.path + "\0" + r.handler, q.verb, q.path + "\0" + q.handler);
      FirstNulSplits(r.path, r.handler, q.path, q.handler);
    }
  }

  /** The distinct routes of all cards, as (verb, path, handler) triples. */
  ghost function RoutesIn(cards: seq<Card>): set<Route> {
    set c, r | c in cards && r in c.routes :: r
  }

  ghost predicate CleanRoutes(routes: set<Route>) {
    forall r :: r in routes ==> NoNul(r.verb) && NoNul(r.path)
  }

  lemma {:induction false} KeysOfRoutes(routes: set<Route>)
    requires CleanRoutes(routes)
    ensures |set r | r in routes :: RouteKey(r)| == |routes|
  {
    if routes != {} {
      hide RouteKey;
      var x :| x in routes;
      var rest := routes - {x};
      KeysOfRoutes(rest);
      forall r | r in rest ensures RouteKey(r) != RouteKey(x) { RouteKeyInjective(r, x); }
      var keys, all := set r | r in rest :: RouteKey(r), set r | r in routes :: RouteKey(r);
      assert all == keys + {RouteKey(x)} by {
        forall k ensures k in all <==> k in keys + {RouteKey(x)} {
          if k in all {
            var r :| r in routes && RouteKey(r) == k;
            assert r == x || r in rest;
          }
        }
      }
    }
  }

  /** The route count of a digest is the number of distinct (verb, path, handler) triples among all cards,
      kept and cut, when no verb or path contains a NUL. */
  lemma RouteCountMeaning(edges: seq<DigestEdge>, cards: seq<Card>, topK: int, order: seq<Card>, d: Digest)
    requires CardsDistilled(edges, cards, topK, order, d) && CleanRoutes(RoutesIn(cards))
    ensures d.entryPoints.totalRoutes == |RoutesIn(cards)|
  {
    hide Rich, RouteKeys, HubsAmong, Totals, Ranked, HubLe, CleanRoutes;
    RouteKeysPermuted(order, cards);
    KeysOfRoutes(RoutesIn(cards));
    RouteKeysAreKeys(cards);
  }

  lemma RouteKeysAreKeys(cards: seq<Card>)
    ensures RouteKeys(cards) == set r | r in RoutesIn(cards) :: RouteKey(r)
  {
    hide RouteKeys, RouteKey;
    forall k ensures k in RouteKeys(cards) <==> exists r :: r in RoutesIn(cards) && RouteKey(r) == k {
      RouteKeysMembers(cards, k);
      if i :| 0 <= i < |cards| && k in KeysOf(cards[i].routes) {
        var j :| 0 <= j < |cards[i].routes| && RouteKey(cards[i].routes[j]) == k;
        assert cards[i] in cards && cards[i].routes[j] in cards[i].routes;
        assert cards[i].routes[j] in RoutesIn(cards);
      }
      if r :| r in RoutesIn(cards) && RouteKey(r) == k {
        var c :| c in cards && r in c.routes;
        var i :| 0 <= i < |cards| && cards[i] == c;
        var j :| 0 <= j < |c.routes| && c.routes[j] == r;
        assert k in KeysOf(cards[i].routes);
      }
    }
  }

  // ---------------------------------------------------------------- what the totals count

  /** All the lists of the cards, one after the other. */
  function Flat<T>(list: Card -> seq<T>, cards: seq<Card>): seq<T> {
    if cards == [] then [] else Flat(list, cards[..|cards| - 1]) + list(cards[|cards| - 1])
  }

  lemma {:induction false} SumIsFlat<T>(count: Card -> nat, list: Card -> seq<T>, cards: seq<Card>)
    requires forall c :: count(c) == |list(c)|
    ensures Sum(count, cards) == |Flat(list, cards)|
  {
    if cards != [] {
      SumIsFlat(count, list, cards[..|cards| - 1]);
    }
  }

  /** The aggregate of some cards counts all their functions, classes, state variables and routes. */
  lemma TotalsCount(a: Aggregate, cards: seq<Card>)
    requires Totals(a, cards)
    ensures a.modules == |cards|
    ensures a.functions == |Flat((c: Card) => c.functions, cards)| && a.classes == |Flat((c: Card) => c.classes, cards)|
    ensures a.state == |Flat((c: Card) => c.state, cards)| && a.routes == |Flat((c: Card) => c.routes, cards)|
  {
    SumIsFlat(FunctionCount, (c: Card) => c.functions, cards);
    SumIsFlat(ClassCount, (c: Card) => c.classes, cards);
    SumIsFlat(StateCount, (c: Card) => c.state, cards);
    SumIsFlat(RouteCount, (c: Card) => c.routes, cards);
  }

  // ---------------------------------------------------------------- conservation of coupling

  function SumOver(names: seq<string>, f: string -> nat): nat {
    if names == [] then 0 else SumOver(names[..|names| - 1], f) + f(names[|names| - 1])
  }

  function TotalWeight(edges: seq<DigestEdge>): nat {
    if edges == [] then 0 else TotalWeight(edges[..|edges| - 1]) + edges[|edges| - 1].weight
  }

  lemma {:induction false} SumOverBump(names: seq<string>, f: string -> nat, g: string -> nat, x: string, w: nat)
    requires NoDuplicates(names) && forall m :: g(m) == f(m) + if m == x then w else 0
    ensures SumOver(names, g) == SumOver(names, f) + if x in names then w else 0
  {
    if names != [] {
      var n := |names| - 1;
      SumOverBump(names[..n], f, g, x, w);
      assert names == names[..n] + [names[n]];
    }
  }

  lemma {:induction false} SumOverZero(names: seq<string>, f: string -> nat)
    requires forall m :: f(m) == 0
    ensures SumOver(names, f) == 0
  {
    if names != [] {
      SumOverZero(names[..|names| - 1], f);
    }
  }

  ghost predicate Covers(nodes: seq<string>, edges: seq<DigestEdge>) {
    NoDuplicates(nodes) && forall i :: 0 <= i < |edges| ==> edges[i].from in nodes && edges[i].to in nodes
  }

  lemma {:induction false} WeightsConserved(nodes: seq<string>, edges: seq<DigestEdge>)
    requires Covers(nodes, edges)
    ensures SumOver(nodes, m => WeightInto(edges, m)) == TotalWeight(edges)
    ensures SumOver(nodes, m => WeightOutOf(edges, m)) == TotalWeight(edges)
  {
    if edges == [] {
      SumOverZero(nodes, m => WeightInto(edges, m));
      SumOverZero(nodes, m => WeightOutOf(edges, m));
    } else {
      var n := |edges| - 1;
      var e := edges[n];
      assert Covers(nodes, edges[..n]);
      WeightsConserved(nodes, edges[..n]);
      SumOverBump(nodes, m => WeightInto(edges[..n], m), m => WeightInto(edges, m), e.to, e.weight);
      SumOverBump(nodes, m => WeightOutOf(edges[..n], m), m => WeightOutOf(edges, m), e.from, e.weight);
    }
  }

  lemma {:induction false} WrapSumOver(names: seq<string>, f: string -> nat, g: string -> nat)
    requires forall m :: g(m) == Wrap(f(m))
    ensures Wrap(SumOver(names, g)) == Wrap(SumOver(names, f))
  {
    if names != [] {
      var n := |names| - 1;
      WrapSumOver(names[..n], f, g);
      var x := names[n];
      WrapAdd(SumOver(names[..n], g), g(x));
      WrapAdd(SumOver(names[..n], f), g(x));
      WrapAdd(f(x), SumOver(names[..n], f));
      hide Wrap;
    }
  }

  /** Modulo 2^32, total fan-in equals total fan-out equals the total weight of the edges. */
  lemma CouplingConserved(nodes: seq<string>, edges: seq<DigestEdge>)
    requires NoDuplicates(nodes) && Elements(nodes) == Endpoints(edges)
    ensures Wrap(SumOver(nodes, m => Wrap(WeightInto(edges, m)))) == Wrap(TotalWeight(edges))
    ensures Wrap(SumOver(nodes, m => Wrap(WeightOutOf(edges, m)))) == Wrap(TotalWeight(edges))
  {
    assert Covers(nodes, edges) by {
      forall i | 0 <= i < |edges| ensures edges[i].from in nodes && edges[i].to in nodes {
        assert edges[i] in edges;
        assert edges[i].from in Endpoints(edges) && edges[i].to in Endpoints(edges);
      }
    }
    WeightsConserved(nodes, edges);
    hide Wrap;
    WrapSumOver(nodes, m => WeightInto(edges, m), m => Wrap(WeightInto(edges, m)));
    WrapSumOver(nodes, m => WeightOutOf(edges, m), m => Wrap(WeightOutOf(edges, m)));
  }
}
