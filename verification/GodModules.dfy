/** Which cards survive the top-K cut, and so which god-modules the score sees. */
module GodModules {
  import opened Ordering
  import opened Cycles
  import opened Digests
  import opened Distiller
  import opened DigestLaws
  import opened Scorer

  /** The other cards that the ranking puts before `c`. */
  ghost function Ahead(edges: seq<DigestEdge>, cards: seq<Card>, c: Card): set<Card> {
    set x | x in cards && x != c && RanksBefore(edges, x, c)
  }

  /** How many cards a cut at `topK` may keep. */
  function Limit(topK: int): nat {
    if topK <= 0 then 250 else topK
  }

  /** In a ranking without equal names, the cards ahead of one are those in front of it. */
  lemma AheadIsPrefix(edges: seq<DigestEdge>, order: seq<Card>, p: nat)
    requires Ranked(edges, order) && DistinctNames(order) && p < |order|
    ensures |Ahead(edges, order, order[p])| == p
  {
    hide Degree, StringLe;
    var c := order[p];
    forall x ensures x in Ahead(edges, order, c) <==> x in Elements(order[..p]) {
      if x in Ahead(edges, order, c) {
        var i :| 0 <= i < |order| && order[i] == x;
        if i > p {
          assert RanksBefore(edges, order[p], order[i]);
          StringLeAntisymmetric(x.name, c.name);
        }
        assert x in order[..p];
      }
      if x in Elements(order[..p]) {
        var i :| 0 <= i < p && order[i] == x;
        assert RanksBefore(edges, order[i], order[p]) && order[i].name != order[p].name;
      }
    }
    assert Ahead(edges, order, c) == Elements(order[..p]);
    NoDuplicatesCard(order[..p]);
  }

  /** Exactly which cards are kept in full: those with fewer than `topK` cards ahead of them. */
  lemma KeptIffFewAhead(edges: seq<DigestEdge>, cards: seq<Card>, topK: int, order: seq<Card>, d: Digest, c: Card)
    requires CardsDistilled(edges, cards, topK, order, d) && DistinctNames(cards) && c in cards
    ensures c in Plain(d.cards) <==> |Ahead(edges, cards, c)| < Limit(topK)
  {
    hide Rich, RouteKeys, HubsAmong, Totals, Ranked, HubLe, RanksBefore, Ahead;
    PermutationKeeps(cards, order);
    DistinctPermuted(cards, order);
    var p :| 0 <= p < |order| && order[p] == c;
    AheadIsPrefix(edges, order, p);
    AheadPermuted(edges, cards, order, c);
    var k := KeptCount(topK, |cards|);
    PlainRich(edges, order[..k]);
    assert c in order[..k] <==> p < k by {
      if c in order[..k] {
        var i :| 0 <= i < k && order[i] == c;
        assert order[i].name == order[p].name;
      }
    }
  }

  lemma AheadPermuted(edges: seq<DigestEdge>, a: seq<Card>, b: seq<Card>, c: Card)
    requires forall x :: x in a <==> x in b
    ensures Ahead(edges, a, c) == Ahead(edges, b, c)
  {
    hide RanksBefore;
  }

  /** A card the score would call a god-module if it saw it. */
  predicate IsGod(r: RichCard) {
    |r.card.functions| >= GOD_FUNCTIONS && r.isHub
  }

  lemma {:induction false} GodsMembers(cards: seq<RichCard>, name: string)
    ensures name in Gods(cards) <==> exists i :: 0 <= i < |cards| && cards[i].card.name == name && IsGod(cards[i])
  {
    if cards != [] {
      var n := |cards| - 1;
      GodsMembers(cards[..n], name);
      if i :| 0 <= i < n && cards[i].card.name == name && IsGod(cards[i]) {
        assert cards[..n][i] == cards[i];
      }
      if i :| 0 <= i < n && cards[..n][i].card.name == name && IsGod(cards[..n][i]) {
        assert cards[..n][i] == cards[i];
      }
    }
  }

  /** Exactly when the score sees a god-module: when fewer than `topK` cards rank before it. */
  lemma GodSeenIff(edges: seq<DigestEdge>, cards: seq<Card>, topK: int, order: seq<Card>, d: Digest, c: Card)
    requires CardsDistilled(edges, cards, topK, order, d) && DistinctNames(cards) && c in cards && IsGod(Rich(edges, c))
    ensures c.name in Gods(d.cards) <==> |Ahead(edges, cards, c)| < Limit(topK)
  {
    KeptIffFewAhead(edges, cards, topK, order, d, c);
    hide Rich, RouteKeys, HubsAmong, Totals, Ranked, HubLe, Ahead, Gods;
    GodsMembers(d.cards, c.name);
    PermutationKeeps(cards, order);
    var k := KeptCount(topK, |cards|);
    if c in Plain(d.cards) {
      var i :| 0 <= i < |d.cards| && Plain(d.cards)[i] == c;
      assert d.cards[i] == Rich(edges, order[i]);
      assert order[i] == c by { RichCarries(edges, order[i]); }
      RichCarries(edges, c);
    }
    if i :| 0 <= i < |d.cards| && d.cards[i].card.name == c.name && IsGod(d.cards[i]) {
      assert d.cards[i] == Rich(edges, order[i]);
      RichCarries(edges, order[i]);
      assert order[i] in cards;
      SameNameSameCard(cards, order[i], c);
      assert Plain(d.cards)[i] == c;
    }
  }

  lemma RichCarries(edges: seq<DigestEdge>, c: Card)
    ensures Rich(edges, c).card == c
  {
  }

  lemma SameNameSameCard(cards: seq<Card>, a: Card, b: Card)
    requires DistinctNames(cards) && a in cards && b in cards && a.name == b.name
    ensures a == b
  {
    var i :| 0 <= i < |cards| && cards[i] == a;
    var j :| 0 <= j < |cards| && cards[j] == b;
  }

  // ---------------------------------------------------------------- a god-module below the cut

  /** 'a' repeated i + 1 times. */
  function Label(i: nat): string {
    seq(i + 1, j => 'a')
  }

  function Small(i: nat): Card {
    Card(Label(i), "", [], [], [], [], "", 0)
  }

  function Loops(n: nat): seq<DigestEdge> {
    seq(n, i requires 0 <= i < n => DigestEdge(Label(i), Label(i), 1))
  }

  function Smalls(n: nat): seq<Card> {
    seq(n, i requires 0 <= i < n => Small(i))
  }

  const GOD := Card("z", "", seq(20, i => "f"), [], ["state"], [], "", 0)

  /** 250 modules that import themselves, and one god-module with two importers. */
  function Crowd(): seq<DigestEdge> {
    Loops(250) + [DigestEdge("w", "z", 2)]
  }

  lemma LabelsDiffer(i: nat, j: nat)
    requires i != j
    ensures Label(i) != Label(j)
  {
    assert |Label(i)| == i + 1 && |Label(j)| == j + 1;
  }

  lemma {:induction false} LoopWeights(n: nat, m: string)
    ensures WeightInto(Loops(n), m) == WeightOutOf(Loops(n), m)
    ensures forall k :: 0 <= k < n && m == Label(k) ==> WeightInto(Loops(n), m) == 1
    ensures (forall k :: 0 <= k < n ==> m != Label(k)) ==> WeightInto(Loops(n), m) == 0
  {
    if n > 0 {
      LoopWeights(n - 1, m);
      assert Loops(n)[..n - 1] == Loops(n - 1);
      hide Label;
      forall k | 0 <= k < n - 1 ensures Label(k) != Label(n - 1) { LabelsDiffer(k, n - 1); }
    }
  }

  lemma SmallDegree(i: nat)
    requires i < 250
    ensures Degree(Crowd(), Small(i)) == 2
  {
    var e := Crowd();
    assert e[..|e| - 1] == Loops(250);
    LoopWeights(250, Label(i));
    assert Label(i)[0] == 'a';
  }

  lemma GodFigures()
    ensures Degree(Crowd(), GOD) == 2 && IsGod(Rich(Crowd(), GOD))
  {
    var e := Crowd();
    assert e[..|e| - 1] == Loops(250);
    assert forall k :: 0 <= k < 250 ==> Label(k)[0] == 'a';
    LoopWeights(250, "z");
  }

  lemma CrowdDistinct()
    ensures DistinctNames(Smalls(250) + [GOD])
  {
    hide Label;
    var cards := Smalls(250) + [GOD];
    forall i, j | 0 <= i < j < |cards| ensures cards[i].name != cards[j].name {
      LabelsDiffer(i, j);
      LabelBefore(i);
    }
  }

  lemma LabelBefore(i: nat)
    ensures Label(i) != "z" && StringLe(Label(i), "z")
  {
    assert Label(i)[0] == 'a';
  }

  lemma CrowdAhead()
    ensures |Ahead(Crowd(), Smalls(250) + [GOD], GOD)| >= 250
  {
    hide Label, StringLe, Degree;
    var s := Smalls(250);
    forall i, j | 0 <= i < j < 250 ensures s[i] != s[j] { LabelsDiffer(i, j); }
    NoDuplicatesCard(s);
    forall x | x in s ensures x in Ahead(Crowd(), s + [GOD], GOD) {
      var i :| 0 <= i < 250 && s[i] == x;
      SmallDegree(i);
      GodFigures();
      LabelBefore(i);
    }
    SubsetCard(Elements(s), Ahead(Crowd(), s + [GOD], GOD));
  }

  /** "God-modules are always in the top 250" fails: a repository of 251 modules whose god-module the
      score does not see, whatever else is in the digest. */
  lemma GodBelowTheCut(order: seq<Card>, d: Digest)
    requires CardsDistilled(Crowd(), Smalls(250) + [GOD], 0, order, d)
    ensures IsGod(Rich(Crowd(), GOD)) && GOD.name !in Gods(d.cards)
  {
    hide CardsDistilled, IsGod, Rich, Gods, Ahead, Crowd, Smalls, DistinctNames;
    GodFigures();
    CrowdDistinct();
    CrowdAhead();
    GodSeenIff(Crowd(), Smalls(250) + [GOD], 0, order, d, GOD);
  }
}
