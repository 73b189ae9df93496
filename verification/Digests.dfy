/** The data the digest stages exchange, and the weighted fan-in and fan-out of a module. */
module Digests {
  import opened Ordering
  import opened Text
  import opened Cycles

  /** uint32 arithmetic. */
  const U32: nat := 0x1_0000_0000

  function Wrap(n: nat): (r: nat)
    ensures r < U32
  {
    n % U32
  }

  /** The last number that stays as it is and the first that does not. */
  lemma WrapAround()
    ensures Wrap(0xFFFF_FFFF) == 0xFFFF_FFFF && Wrap(0x1_0000_0000) == 0
  {
  }

  lemma WrapAdd(a: nat, b: nat)
    ensures Wrap(Wrap(a) + b) == Wrap(a + b)
  {
    var q, r := a / U32, a % U32;
    assert a == q * U32 + r;
    WrapShift(r + b, q);
  }

  lemma WrapShift(a: nat, q: nat)
    ensures Wrap(a + q * U32) == Wrap(a)
  {
  }

  datatype Route = Route(verb: string, path: string, handler: string)

  /** A module card as the analysis summary stores it. */
  datatype Card = Card(
    name: string, file: string, functions: seq<string>, classes: seq<string>, state: seq<string>,
    routes: seq<Route>, docstring: string, loc: nat)

  /** A card with the coupling figures derived from the graph. */
  datatype RichCard = RichCard(card: Card, fanIn: nat, fanOut: nat, isHub: bool)

  datatype Hub = Hub(name: string, state: seq<string>, fanIn: nat)

  // ---------------------------------------------------------------- fan-in and fan-out

  /** Total weight of the edges into a module, before any wrap-around. */
  function WeightInto(edges: seq<DigestEdge>, m: string): nat {
    if edges == [] then 0
    else WeightInto(edges[..|edges| - 1], m) + if edges[|edges| - 1].to == m then edges[|edges| - 1].weight else 0
  }

  function WeightOutOf(edges: seq<DigestEdge>, m: string): nat {
    if edges == [] then 0
    else WeightOutOf(edges[..|edges| - 1], m) + if edges[|edges| - 1].from == m then edges[|edges| - 1].weight else 0
  }

  /** Reading a Go map of integers: absent keys are zero. */
  function At(m: map<string, nat>, k: string): nat {
    if k in m then m[k] else 0
  }

  /** `m[k] += w` on uint32 values. */
  function AddTo(m: map<string, nat>, k: string, w: nat): map<string, nat> {
    m[k := Wrap(At(m, k) + w)]
  }

  // ---------------------------------------------------------------- the two hub tests

  const HUB_FAN_IN: nat := 2

  /** `isConventionRoutedCard` of the distiller. */
  predicate IsConventionRouted(c: Card) {
    c.file != "" && c.name == c.file && HasSuffix(ToLower(c.file), ".php")
  }

  /** `isSharedStateHub` of the distiller. */
  predicate IsSharedStateHub(c: Card, fanIn: nat) {
    if fanIn < HUB_FAN_IN then false
    else if |c.state| > 0 then true
    else IsConventionRouted(c)
  }

  /** `isSharedStateHubCard` of the analysis worker. */
  predicate IsSharedStateHubCard(c: Card, fanIn: nat) {
    fanIn >= 2 && (|c.state| > 0 || (c.file != "" && c.name == c.file && HasSuffix(ToLower(c.file), ".php")))
  }

  /** A card as the distiller enriches it. */
  function Rich(edges: seq<DigestEdge>, c: Card): RichCard {
    var fi := Wrap(WeightInto(edges, c.name));
    RichCard(c, fi, Wrap(WeightOutOf(edges, c.name)), IsSharedStateHub(c, fi))
  }

  function HubOf(r: RichCard): Hub {
    Hub(r.card.name, r.card.state, r.fanIn)
  }

  /** The hubs among cards, in the order of the cards. */
  function HubsAmong(cards: seq<RichCard>): seq<Hub> {
    if cards == [] then []
    else HubsAmong(cards[..|cards| - 1]) + if cards[|cards| - 1].isHub then [HubOf(cards[|cards| - 1])] else []
  }

  function AllRich(edges: seq<DigestEdge>, cards: seq<Card>): seq<RichCard> {
    seq(|cards|, i requires 0 <= i < |cards| => Rich(edges, cards[i]))
  }

  /** Which hubs there are depends on the multiset of cards only. */
  lemma {:induction false} HubsAmongConcat(a: seq<RichCard>, b: seq<RichCard>)
    ensures HubsAmong(a + b) == HubsAmong(a) + HubsAmong(b)
  {
    if b == [] {
      assert a + b == a;
    } else {
      var n := |b| - 1;
      HubsAmongConcat(a, b[..n]);
      assert (a + b)[..|a + b| - 1] == a + b[..n];
    }
  }

  lemma {:induction false} HubsAmongPermuted(a: seq<RichCard>, b: seq<RichCard>)
    requires multiset(a) == multiset(b)
    ensures multiset(HubsAmong(a)) == multiset(HubsAmong(b))
    decreases |a|
  {
    if a == [] {
      assert |multiset(b)| == 0;
    } else {
      hide HubsAmong;
      var n := |a| - 1;
      var i := TakeOut(a, b);
      HubsAmongPermuted(a[..n], b[..i] + b[i + 1..]);
      HubsAmongConcat(b[..i], b[i + 1..]);
      HubsAmongConcat(b[..i] + [b[i]], b[i + 1..]);
      HubsAmongConcat(b[..i], [b[i]]);
      HubsAmongConcat(a[..n], [b[i]]);
    }
  }

  lemma AllRichConcat(edges: seq<DigestEdge>, a: seq<Card>, b: seq<Card>)
    ensures AllRich(edges, a + b) == AllRich(edges, a) + AllRich(edges, b)
  {
    hide Rich;
  }

  lemma {:induction false} AllRichPermuted(edges: seq<DigestEdge>, a: seq<Card>, b: seq<Card>)
    requires multiset(a) == multiset(b)
    ensures multiset(AllRich(edges, a)) == multiset(AllRich(edges, b))
    decreases |a|
  {
    if a == [] {
      assert |multiset(b)| == 0;
    } else {
      hide AllRich;
      var n := |a| - 1;
      var i := TakeOut(a, b);
      AllRichPermuted(edges, a[..n], b[..i] + b[i + 1..]);
      AllRichConcat(edges, b[..i], b[i + 1..]);
      AllRichConcat(edges, b[..i] + [b[i]], b[i + 1..]);
      AllRichConcat(edges, b[..i], [b[i]]);
      AllRichConcat(edges, a[..n], [b[i]]);
    }
  }
}
