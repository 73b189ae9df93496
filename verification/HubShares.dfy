/** The worst hub's share of the incoming coupling: when it is a share at all, and when it falls. */
module HubShares {
  import opened Digests
  import opened Scorer
  import opened Wrappers

  /** The node count as the denominator sees it. */
  function NodeCount(nodes: nat): nat {
    Wrap(if nodes == 0 then 1 else nodes)
  }

  /** Exactly when the share lies in [0, 1): the denominator must not wrap around, and the node count must
      not vanish as a uint32. */
  lemma HubShareIff(fanIn: nat, nodes: nat)
    requires fanIn < U32
    ensures (HubRatio(fanIn, nodes).Some? && HubRatio(fanIn, nodes).value < 1.0) <==>
      0 < NodeCount(nodes) && NodeCount(nodes) + fanIn < U32
  {
    var n := NodeCount(nodes);
    var denominator := Wrap(n + fanIn);
    assert denominator == if n + fanIn < U32 then n + fanIn else n + fanIn - U32;
    if denominator > 0 {
      QuotientLess(fanIn as real, denominator as real, 1.0);
    }
  }

  /** Two shares outside it: an infinite one and one far above 1. */
  lemma HubShareWraps()
    ensures HubRatio(U32 - 1, 1) == None
    ensures HubRatio(U32 - 1, 2) == Some((U32 - 1) as real)
  {
  }

  lemma PlainShare(fanIn: nat, nodes: nat)
    requires 0 < nodes && nodes + fanIn < U32
    ensures HubRatio(fanIn, nodes) == Some(fanIn as real / (nodes + fanIn) as real)
  {
    assert Wrap(Wrap(nodes) + fanIn) == nodes + fanIn;
  }

  /** Exactly when the share falls, as long as nothing wraps around: the fan-in must grow by a smaller
      factor than the number of nodes. */
  lemma HubShareFallsIff(fanIn: nat, nodes: nat, fanIn': nat, nodes': nat)
    requires 0 < nodes && nodes + fanIn < U32 && 0 < nodes' && nodes' + fanIn' < U32
    ensures HubRatio(fanIn, nodes).Some? && HubRatio(fanIn', nodes').Some?
    ensures HubRatio(fanIn', nodes').value < HubRatio(fanIn, nodes).value <==> fanIn' * nodes < fanIn * nodes'
  {
    hide HubRatio;
    PlainShare(fanIn, nodes);
    PlainShare(fanIn', nodes');
    FractionLess(fanIn', nodes' + fanIn', fanIn, nodes + fanIn);
    assert fanIn' * (nodes + fanIn) < fanIn * (nodes' + fanIn') <==> fanIn' * nodes < fanIn * nodes';
  }

  /** Fan-in one up and the nodes two up: the share rises all the same. */
  lemma HubShareRises()
    ensures HubRatio(1, 10) == Some(1.0 / 11.0) && HubRatio(2, 12) == Some(2.0 / 14.0) && 1.0 / 11.0 < 2.0 / 14.0
  {
    hide HubRatio;
    PlainShare(1, 10);
    PlainShare(2, 12);
  }

  lemma QuotientLess(a: real, b: real, c: real)
    requires 0.0 < b
    ensures a / b < c <==> a < c * b
  {
    var q := a / b;
    assert q * b == a;
    if q < c {
      ProductLess(q, c, b);
    } else {
      assert q == c || c < q;
      if c < q {
        ProductLess(c, q, b);
      }
    }
  }

  lemma ProductLess(x: real, y: real, b: real)
    requires x < y && 0.0 < b
    ensures x * b < y * b
  {
    ProductNegative(x - y, b);
    assert (x - y) * b == x * b - y * b;
  }

  lemma FractionLess(a: nat, b: nat, c: nat, d: nat)
    requires 0 < b && 0 < d
    ensures a as real / b as real < c as real / d as real <==> a * d < c * b
  {
    var q := c as real / d as real;
    QuotientLess(a as real, b as real, q);
    // a < q * b is a * d < c * b, by multiplying with d
    var x, y := a as real, q * b as real;
    assert q * d as real == c as real;
    assert y * d as real == c as real * b as real by { Swapped(q, b as real, d as real); }
    assert (a * d) as real == x * d as real && (c * b) as real == c as real * b as real;
    if x < y {
      ProductLess(x, y, d as real);
    } else if y < x {
      ProductLess(y, x, d as real);
    }
  }

  lemma Swapped(q: real, b: real, d: real)
    ensures q * b * d == q * d * b
  {
  }
}
