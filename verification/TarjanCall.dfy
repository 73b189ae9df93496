/** What one call of the recursive search does to the search state, over plain values:
    the bookkeeping of `lowlink` between the push of a node and the end of its call. */
module TarjanCall {
  import opened Graphs
  import opened Tarjan

  function Successors(g: Adjacency, v: string): seq<string> {
    if v in g then g[v] else []
  }

  /** `t` continues `s`: indices are kept, new ones are younger, the stack only grew on top. */
  ghost predicate Grew(s: Search, t: Search) {
    && s.counter <= t.counter
    && (forall u :: u in s.index ==> u in t.index && t.index[u] == s.index[u])
    && (forall u :: u in t.index && u !in s.index ==> s.counter <= t.index[u])
    && |s.stk| <= |t.stk| && t.stk[..|s.stk|] == s.stk
  }

  lemma GrewTransitive(s: Search, t: Search, r: Search)
    requires Grew(s, t) && Grew(t, r)
    ensures Grew(s, r)
  {
    assert r.stk[..|s.stk|] == r.stk[..|t.stk|][..|s.stk|];
  }

  /** `low` is the index of an older stacked node that `v` reaches. */
  ghost predicate PointsBack(g: Adjacency, s: Search, stk: seq<string>, v: string, low: int) {
    exists y :: y in stk && y in s.index && s.index[y] == low && Reach(g, v, y)
  }

  /** No node of `upper` has an arc to a node of `lower` older than `low`. */
  ghost predicate BoundsArcs(g: Adjacency, s: Search, upper: seq<string>, lower: seq<string>, low: int) {
    forall x, y :: x in upper && y in lower && y in s.index && Arc(g, x, y) ==> low <= s.index[y]
  }

  /** The effect of a whole call on `v` that started in `s` and ended in `t`. */
  ghost predicate CallResult(g: Adjacency, s: Search, t: Search, v: string, low: int) {
    && Grew(s, t)
    && v in t.index && t.index[v] == s.counter
    && (v in t.stk ==> PointsBack(g, t, s.stk, v, low))
    && (v !in t.stk ==> low == t.index[v] && t.stk == s.stk)
    && BoundsArcs(g, t, t.stk[|s.stk|..], s.stk, low)
  }

  ghost predicate SuccessorsDone(g: Adjacency, s: Search, t: Search, v: string, i: nat, low: int) {
    && i <= |Successors(g, v)|
    && (forall j :: 0 <= j < i ==>
          var w := Successors(g, v)[j];
          w in t.index && (w in s.stk ==> low <= t.index[w]))
  }

  /** The state inside the call on `v`, pushed on top of `s.stk`, after `i` successors. */
  ghost predicate Exploring(g: Adjacency, s: Search, t: Search, v: string, i: nat, low: int) {
    && v !in s.index
    && Grew(Push(s, v), t)
    && v in t.index && low <= t.index[v]
    && PointsBack(g, t, t.stk, v, low)
    && BoundsArcs(g, t, t.stk[|s.stk| + 1..], s.stk, low)
    && SuccessorsDone(g, s, t, v, i, low)
  }

  lemma GrewPush(s: Search, t: Search, v: string)
    requires v !in s.index && Grew(Push(s, v), t)
    ensures Grew(s, t) && |s.stk| < |t.stk| && t.stk[|s.stk|] == v && v in t.index && t.index[v] == s.counter
  {
    var p := Push(s, v);
    assert t.stk[..|s.stk|] == p.stk[..|s.stk|] == s.stk;
    assert t.stk[|s.stk|] == t.stk[..|p.stk|][|s.stk|] == v;
    assert v in p.index && p.index[v] == s.counter;
  }

  lemma StartExploring(g: Adjacency, s: Search, v: string)
    requires v !in s.index && 0 <= s.counter
    ensures Exploring(g, s, Push(s, v), v, 0, s.counter)
  {
    var t := Push(s, v);
    ReachSelf(g, v);
    hide Reach;
    assert v in t.stk by { assert t.stk[|s.stk|] == v; }
    assert t.stk[|s.stk| + 1..] == [];
    assert PointsBack(g, t, t.stk, v, s.counter);
    assert Grew(t, t);
  }

  /** A successor that was visited before: only a stacked one can lower `low`. */
  lemma SeenSuccessor(g: Adjacency, s: Search, t: Search, v: string, i: nat, low: int, low': int)
    requires StackOrdered(t) && Exploring(g, s, t, v, i, low) && i < |Successors(g, v)|
    requires Successors(g, v)[i] in t.index
    requires low' == (var w := Successors(g, v)[i]; if w in t.stk && t.index[w] < low then t.index[w] else low)
    ensures Exploring(g, s, t, v, i + 1, low')
  {
    hide Reach;
    var w := Successors(g, v)[i];
    GrewPush(s, t, v);
    assert w in s.stk ==> w in t.stk by {
      assert t.stk == s.stk + t.stk[|s.stk|..];
    }
    if low' != low {
      assert Arc(g, v, w);
      ReachArc(g, v, w);
    }
  }

  lemma PointsBackStill(g: Adjacency, t: Search, r: Search, v: string, low: int)
    requires PointsBack(g, t, t.stk, v, low) && Grew(t, r)
    ensures PointsBack(g, r, r.stk, v, low)
  {
    hide Reach;
    var y :| y in t.stk && y in t.index && t.index[y] == low && Reach(g, v, y);
    assert r.stk == t.stk + r.stk[|t.stk|..];
  }

  /** A successor visited by a nested call: `low` takes over what the call found. */
  lemma NestedLow(g: Adjacency, t: Search, r: Search, v: string, w: string, low: int, lowW: int)
    requires PointsBack(g, t, t.stk, v, low) && v in t.index && low <= t.index[v] < t.counter
    requires Arc(g, v, w) && CallResult(g, t, r, w, lowW)
    ensures PointsBack(g, r, r.stk, v, if lowW < low then lowW else low)
  {
    hide Reach, BoundsArcs;
    if lowW < low {
      assert w in r.stk;
      var y :| y in t.stk && y in r.index && r.index[y] == lowW && Reach(g, w, y);
      ReachArc(g, v, w);
      ReachTransitive(g, v, w, y);
      assert r.stk == t.stk + r.stk[|t.stk|..];
    } else {
      PointsBackStill(g, t, r, v, low);
    }
  }

  lemma NestedBounds(g: Adjacency, s: Search, t: Search, r: Search, v: string, low: int, lowW: int)
    requires v !in s.index && StackOrdered(s) && Grew(Push(s, v), t) && Grew(t, r)
    requires BoundsArcs(g, t, t.stk[|s.stk| + 1..], s.stk, low)
    requires BoundsArcs(g, r, r.stk[|t.stk|..], t.stk, lowW)
    ensures |s.stk| + 1 <= |r.stk|
    ensures BoundsArcs(g, r, r.stk[|s.stk| + 1..], s.stk, if lowW < low then lowW else low)
  {
    hide Arc;
    GrewPush(s, t, v);
    var n := |s.stk| + 1;
    assert r.stk[n..] == t.stk[n..] + r.stk[|t.stk|..] by {
      assert r.stk == t.stk + r.stk[|t.stk|..];
    }
    assert t.stk == s.stk + t.stk[|s.stk|..];
    forall x, y | x in r.stk[n..] && y in s.stk && y in r.index && Arc(g, x, y)
      ensures (if lowW < low then lowW else low) <= r.index[y]
    {
      assert y in s.index;
      assert y in t.stk && y in t.index && t.index[y] == r.index[y];
      assert x in t.stk[n..] || x in r.stk[|t.stk|..];
    }
  }

  lemma NestedDone(g: Adjacency, s: Search, t: Search, r: Search, v: string, i: nat, low: int, lowW: int)
    requires v !in s.index && StackOrdered(s) && Grew(Push(s, v), t) && Grew(t, r)
    requires SuccessorsDone(g, s, t, v, i, low) && i < |Successors(g, v)|
    requires Successors(g, v)[i] !in t.index && Successors(g, v)[i] in r.index
    ensures SuccessorsDone(g, s, r, v, i + 1, if lowW < low then lowW else low)
  {
    GrewPush(s, t, v);
  }

  lemma NestedSuccessor(g: Adjacency, s: Search, t: Search, r: Search, v: string, i: nat, low: int, lowW: int)
    requires StackOrdered(s) && StackOrdered(t) && Exploring(g, s, t, v, i, low) && i < |Successors(g, v)|
    requires Successors(g, v)[i] !in t.index
    requires CallResult(g, t, r, Successors(g, v)[i], lowW)
    ensures Exploring(g, s, r, v, i + 1, if lowW < low then lowW else low)
  {
    var w := Successors(g, v)[i];
    assert Arc(g, v, w);
    NestedLow(g, t, r, v, w, low, lowW);
    NestedBounds(g, s, t, r, v, low, lowW);
    NestedDone(g, s, t, r, v, i, low, lowW);
    GrewTransitive(Push(s, v), t, r);
    hide PointsBack, BoundsArcs, SuccessorsDone, StackOrdered;
  }

  /** All successors explored, nothing older found: the node is the root of a component. */
  lemma EndsAsRoot(g: Adjacency, s: Search, t: Search, gray: set<string>, v: string, low: int)
    requires Inv(g, t, gray + {v}) && StackOrdered(s) && (forall y :: y in gray ==> y in s.stk)
    requires Exploring(g, s, t, v, |Successors(g, v)|, low) && low == t.index[v]
    ensures |s.stk| < |t.stk| && Root(g, t, gray, |s.stk|) && t.stk[|s.stk|] == v && t.stk[..|s.stk|] == s.stk
  {
    hide Reach, Accounted, Anchored, ReachesAbove, FinishedExplored, PoppedClosed, PointsBack;
    var k := |s.stk|;
    GrewPush(s, t, v);
    assert t.stk[k..] == [v] + t.stk[k + 1..];
    forall x, y | x in t.stk[k..] && y in t.stk[..k] ensures !Arc(g, x, y) {
      var j :| 0 <= j < k && t.stk[j] == y;
      assert y in s.stk && y in s.index;
      assert t.index[t.stk[j]] < t.index[t.stk[k]];
      assert x == v || x in t.stk[k + 1..];
    }
    assert Explored(g, t, v);
  }

  /** All successors explored and an older stacked node found. */
  lemma EndsPointingBack(g: Adjacency, s: Search, t: Search, v: string, low: int) returns (y: string)
    requires StackOrdered(s) && StackOrdered(t)
    requires Exploring(g, s, t, v, |Successors(g, v)|, low) && low != t.index[v]
    ensures Explored(g, t, v)
    ensures y in s.stk && y in t.stk && y in t.index && t.index[y] == low < t.index[v] && Reach(g, v, y)
  {
    hide Reach;
    GrewPush(s, t, v);
    y :| y in t.stk && y in t.index && t.index[y] == low && Reach(g, v, y);
    var j :| 0 <= j < |t.stk| && t.stk[j] == y;
    assert j < |s.stk|;
    assert t.stk[..|s.stk|][j] == y;
  }

  lemma RetireResult(g: Adjacency, s: Search, t: Search, v: string, low: int)
    requires StackOrdered(s) && StackOrdered(t)
    requires Exploring(g, s, t, v, |Successors(g, v)|, low) && low != t.index[v]
    ensures CallResult(g, s, t, v, low)
  {
    hide Reach;
    var y := EndsPointingBack(g, s, t, v, low);
    GrewPush(s, t, v);
    var k := |s.stk|;
    assert t.stk[k..] == [v] + t.stk[k + 1..];
    forall x, z | x in t.stk[k..] && z in s.stk && z in t.index && Arc(g, x, z) ensures low <= t.index[z] {
      if x == v {
        var m :| 0 <= m < |Successors(g, v)| && Successors(g, v)[m] == z;
      }
    }
    assert v in t.stk;
    assert PointsBack(g, t, s.stk, v, low);
  }

  lemma EmitResult(g: Adjacency, s: Search, t: Search, v: string, c: seq<string>)
    requires v !in s.index && StackOrdered(s) && Grew(Push(s, v), t)
    ensures CallResult(g, s, Emit(t, |s.stk|, c), v, t.index[v])
  {
    GrewPush(s, t, v);
    var r := Emit(t, |s.stk|, c);
    assert r.stk == s.stk && r.stk[|s.stk|..] == [];
    assert v !in s.stk;
  }
}
