/** The invariants of the strong-component search in `detectCycles`, over plain values.

    `stk` is the search stack, `gray` the nodes whose call is still active, a node in `index`
    but not on `stk` has been popped into a component. */
module Tarjan {
  import opened Ordering
  import opened Graphs

  datatype Search = Search(index: map<string, int>, stk: seq<string>, counter: int, sccs: seq<seq<string>>)

  ghost predicate Popped(s: Search, u: string) {
    u in s.index && u !in s.stk
  }

  /** The stack holds visited nodes in the order of their indices. */
  ghost predicate StackOrdered(s: Search) {
    && (forall u :: u in s.index ==> 0 <= s.index[u] < s.counter)
    && (forall i :: 0 <= i < |s.stk| ==> s.stk[i] in s.index)
    && (forall i, j :: 0 <= i < j < |s.stk| ==> s.index[s.stk[i]] < s.index[s.stk[j]])
  }

  /** A stacked node reaches everything above it. */
  ghost predicate ReachesAbove(g: Adjacency, s: Search) {
    forall i, j :: 0 <= i <= j < |s.stk| ==> Reach(g, s.stk[i], s.stk[j])
  }

  ghost predicate HasAnchor(g: Adjacency, s: Search, gray: set<string>, u: string)
    requires u in s.index
  {
    exists y :: y in gray && y in s.index && s.index[y] <= s.index[u] && Reach(g, u, y)
  }

  /** A stacked node reaches an active node that is not younger. */
  ghost predicate Anchored(g: Adjacency, s: Search, gray: set<string>) {
    forall u :: u in s.stk && u in s.index ==> HasAnchor(g, s, gray, u)
  }

  /** A finished node has no unvisited successor. */
  ghost predicate FinishedExplored(g: Adjacency, s: Search, gray: set<string>) {
    forall u, w :: u in s.index && u !in gray && Arc(g, u, w) ==> w in s.index
  }

  /** No arc leaves the popped region. */
  ghost predicate PoppedClosed(g: Adjacency, s: Search) {
    forall u, w :: Popped(s, u) && Arc(g, u, w) ==> Popped(s, w)
  }

  /** What is promised of one reported component. */
  ghost predicate Reported(g: Adjacency, c: seq<string>) {
    |c| >= 2 && NoDuplicates(c) && SortedBy(c, StringLe) && IsComponent(g, Elements(c))
  }

  ghost predicate Alone(g: Adjacency, u: string) {
    forall w :: Mutual(g, u, w) ==> w == u
  }

  /** Every popped node is in one reported component or is a component by itself. */
  ghost predicate Accounted(g: Adjacency, s: Search) {
    && (forall i :: 0 <= i < |s.sccs| ==> Reported(g, s.sccs[i]))
    && (forall i, u :: 0 <= i < |s.sccs| && u in s.sccs[i] ==> Popped(s, u))
    && (forall i, j, u :: 0 <= i < j < |s.sccs| && u in s.sccs[i] ==> u !in s.sccs[j])
    && (forall u :: Popped(s, u) ==> Alone(g, u) || exists i :: 0 <= i < |s.sccs| && u in s.sccs[i])
  }

  ghost predicate Inv(g: Adjacency, s: Search, gray: set<string>) {
    && StackOrdered(s)
    && (forall u :: u in gray ==> u in s.stk)
    && ReachesAbove(g, s)
    && Anchored(g, s, gray)
    && FinishedExplored(g, s, gray)
    && PoppedClosed(g, s)
    && Accounted(g, s)
  }

  ghost function Push(s: Search, v: string): Search {
    s.(index := s.index[v := s.counter], stk := s.stk + [v], counter := s.counter + 1)
  }

  /** Starting the call on an unvisited node that every active node reaches. */
  lemma PushKeepsInv(g: Adjacency, s: Search, gray: set<string>, v: string)
    requires Inv(g, s, gray) && v !in s.index && 0 <= s.counter
    requires forall y :: y in gray ==> Reach(g, y, v)
    ensures Inv(g, Push(s, v), gray + {v})
  {
    hide ReachesAbove, Anchored, Accounted, Reach;
    PushReaches(g, s, gray, v);
    PushAnchored(g, s, gray, v);
    PushAccounted(g, s, v);
    PushPops(s, v);
    var t := Push(s, v);
    assert FinishedExplored(g, t, gray + {v});
    assert PoppedClosed(g, t);
  }

  lemma PushPops(s: Search, v: string)
    requires v !in s.index
    ensures forall u :: Popped(Push(s, v), u) <==> Popped(s, u)
  {
    assert Push(s, v).stk[|s.stk|] == v;
  }

  lemma PushAccounted(g: Adjacency, s: Search, v: string)
    requires v !in s.index && Accounted(g, s)
    ensures Accounted(g, Push(s, v))
  {
    hide Reported, Alone, Popped;
    PushPops(s, v);
  }

  lemma PushReaches(g: Adjacency, s: Search, gray: set<string>, v: string)
    requires StackOrdered(s) && ReachesAbove(g, s) && Anchored(g, s, gray)
    requires forall y :: y in gray ==> Reach(g, y, v)
    ensures ReachesAbove(g, Push(s, v))
  {
    hide Reach;
    var t := Push(s, v);
    forall i | 0 <= i < |t.stk| ensures Reach(g, t.stk[i], v) {
      if i == |s.stk| {
        ReachSelf(g, v);
      } else {
        assert HasAnchor(g, s, gray, s.stk[i]);
        var y :| y in gray && y in s.index && s.index[y] <= s.index[s.stk[i]] && Reach(g, s.stk[i], y);
        ReachTransitive(g, s.stk[i], y, v);
      }
    }
    assert forall i :: 0 <= i < |s.stk| ==> t.stk[i] == s.stk[i];
  }

  lemma PushAnchored(g: Adjacency, s: Search, gray: set<string>, v: string)
    requires StackOrdered(s) && Anchored(g, s, gray) && v !in s.index
    ensures Anchored(g, Push(s, v), gray + {v})
  {
    hide Reach;
    var t := Push(s, v);
    forall u | u in t.stk && u in t.index ensures HasAnchor(g, t, gray + {v}, u) {
      if u == v {
        ReachSelf(g, v);
        assert v in gray + {v};
      } else {
        assert HasAnchor(g, s, gray, u);
        var y :| y in gray && y in s.index && s.index[y] <= s.index[u] && Reach(g, u, y);
        assert y in gray + {v};
      }
    }
  }

  ghost predicate Explored(g: Adjacency, s: Search, v: string) {
    forall w :: Arc(g, v, w) ==> w in s.index
  }

  lemma RetireAnchor(g: Adjacency, s: Search, gray: set<string>, v: string, a: string, u: string)
    requires u in s.index && v in s.index && HasAnchor(g, s, gray + {v}, u)
    requires a in gray && a in s.index && s.index[a] < s.index[v] && Reach(g, v, a)
    ensures HasAnchor(g, s, gray, u)
  {
    hide Reach;
    var b :| b in gray + {v} && b in s.index && s.index[b] <= s.index[u] && Reach(g, u, b);
    if b == v {
      ReachTransitive(g, u, v, a);
    }
  }

  /** A call that found a way to an older stacked node ends without emitting: its node stays
      on the stack, now finished. */
  lemma RetireKeepsInv(g: Adjacency, s: Search, gray: set<string>, v: string, y: string)
    requires Inv(g, s, gray + {v}) && v !in gray && v in s.index
    requires Explored(g, s, v)
    requires y in s.stk && y in s.index && s.index[y] < s.index[v] && Reach(g, v, y)
    ensures Inv(g, s, gray)
  {
    hide Reach, Anchored, Accounted, StackOrdered, ReachesAbove, PoppedClosed;
    RetireAnchored(g, s, gray, v, y);
  }

  lemma RetireAnchored(g: Adjacency, s: Search, gray: set<string>, v: string, y: string)
    requires Anchored(g, s, gray + {v}) && v in s.index
    requires y in s.stk && y in s.index && s.index[y] < s.index[v] && Reach(g, v, y)
    ensures Anchored(g, s, gray)
  {
    hide Reach, HasAnchor;
    var a := TheAnchor(g, s, gray, v, y);
    ReachTransitive(g, v, y, a);
    forall u | u in s.stk && u in s.index ensures HasAnchor(g, s, gray, u) {
      RetireAnchor(g, s, gray, v, a, u);
    }
  }

  lemma TheAnchor(g: Adjacency, s: Search, gray: set<string>, v: string, y: string) returns (a: string)
    requires y in s.index && v in s.index && s.index[y] < s.index[v] && HasAnchor(g, s, gray + {v}, y)
    ensures a in gray && a in s.index && s.index[a] <= s.index[y] && Reach(g, y, a)
  {
    hide Reach;
    a :| a in gray + {v} && a in s.index && s.index[a] <= s.index[y] && Reach(g, y, a);
  }

  /** No arc from the stack segment starting at position `k` goes below it. */
  ghost predicate NoArcDown(g: Adjacency, s: Search, k: nat)
    requires k <= |s.stk|
  {
    forall x, y :: x in s.stk[k..] && y in s.stk[..k] ==> !Arc(g, x, y)
  }

  /** The situation in which the call on `stk[k]` finds `lowlink == index`. */
  ghost predicate Root(g: Adjacency, s: Search, gray: set<string>, k: nat) {
    && k < |s.stk|
    && Inv(g, s, gray + {s.stk[k]})
    && (forall y :: y in gray ==> y in s.stk[..k])
    && Explored(g, s, s.stk[k])
    && NoArcDown(g, s, k)
  }

  lemma SplitStack(s: Search, k: nat)
    requires StackOrdered(s) && k <= |s.stk|
    ensures forall u :: u in s.stk <==> u in s.stk[..k] || u in s.stk[k..]
    ensures forall u :: u in s.stk[..k] ==> u !in s.stk[k..]
    ensures NoDuplicates(s.stk[k..])
  {
    assert s.stk == s.stk[..k] + s.stk[k..];
  }

  /** Nothing outside the segment and the popped region can be reached from the segment. */
  lemma SegmentClosed(g: Adjacency, s: Search, gray: set<string>, k: nat)
    requires Root(g, s, gray, k)
    ensures Closed(g, Elements(s.stk[k..]) + (set u | u in s.index && u !in s.stk))
  {
    hide Reach, Anchored, Accounted, ReachesAbove;
    SplitStack(s, k);
    var c := Elements(s.stk[k..]);
    var p := set u | u in s.index && u !in s.stk;
    forall u, w | u in c + p && Arc(g, u, w) ensures w in c + p {
      if u in p {
        assert Popped(s, u) && Popped(s, w);
      } else {
        assert u in s.stk;
        assert u != s.stk[k] ==> u !in gray + {s.stk[k]};
        assert w in s.index;
        assert w !in s.stk[..k];
      }
    }
  }

  lemma RootAbove(g: Adjacency, s: Search, k: nat, x: string)
    requires ReachesAbove(g, s) && k < |s.stk| && x in s.stk[k..]
    ensures Reach(g, s.stk[k], x)
  {
    hide Reach;
    var i :| 0 <= i < |s.stk[k..]| && s.stk[k..][i] == x;
    assert x == s.stk[k + i];
  }

  lemma RootBelow(g: Adjacency, s: Search, gray: set<string>, k: nat, x: string)
    requires Root(g, s, gray, k) && x in s.stk[k..]
    ensures Reach(g, x, s.stk[k])
  {
    hide Reach, Accounted, PoppedClosed, FinishedExplored, NoArcDown, Anchored, ReachesAbove, Closed, Explored;
    var y := SegmentAnchor(g, s, gray, k, x);
    SegmentClosed(g, s, gray, k);
    ReachStaysInside(g, Elements(s.stk[k..]) + (set u | u in s.index && u !in s.stk), x, y);
    SplitStack(s, k);
    assert y in s.stk && y in s.stk[k..] && y !in gray;
  }

  lemma SegmentAnchor(g: Adjacency, s: Search, gray: set<string>, k: nat, x: string) returns (y: string)
    requires Root(g, s, gray, k) && x in s.stk[k..]
    ensures y in gray + {s.stk[k]} && Reach(g, x, y)
  {
    hide Reach, Accounted, PoppedClosed, FinishedExplored, NoArcDown, ReachesAbove, Explored, HasAnchor;
    assert x in s.stk && x in s.index by { SplitStack(s, k); }
    assert HasAnchor(g, s, gray + {s.stk[k]}, x);
    y := PickAnchor(g, s, gray + {s.stk[k]}, x);
  }

  lemma PickAnchor(g: Adjacency, s: Search, gray: set<string>, u: string) returns (y: string)
    requires u in s.index && HasAnchor(g, s, gray, u)
    ensures y in gray && y in s.index && s.index[y] <= s.index[u] && Reach(g, u, y)
  {
    hide Reach;
    y :| y in gray && y in s.index && s.index[y] <= s.index[u] && Reach(g, u, y);
  }

  lemma SegmentMutual(g: Adjacency, s: Search, gray: set<string>, k: nat, x: string)
    requires Root(g, s, gray, k) && x in s.stk[k..]
    ensures Mutual(g, x, s.stk[k]) && Mutual(g, s.stk[k], x)
  {
    RootBelow(g, s, gray, k, x);
    assert ReachesAbove(g, s);
    RootAbove(g, s, k, x);
  }

  /** The segment is exactly the strong component of its bottom node. */
  lemma SegmentIsComponent(g: Adjacency, s: Search, gray: set<string>, k: nat)
    requires k < |s.stk| && Root(g, s, gray, k)
    ensures IsComponent(g, Elements(s.stk[k..]))
  {
    hide Mutual, Root;
    var c := Elements(s.stk[k..]);
    assert s.stk[k] in c by { assert s.stk[k..][0] == s.stk[k]; }
    forall u | u in c ensures Mutual(g, u, s.stk[k]) && Mutual(g, s.stk[k], u) {
      SegmentMutual(g, s, gray, k, u);
    }
    AllMutual(g, c, s.stk[k]);
    forall u, w | u in c && Mutual(g, u, w) ensures w in c {
      ComponentStays(g, s, gray, k, u, w);
    }
  }

  lemma AllMutual(g: Adjacency, c: set<string>, v: string)
    requires forall u :: u in c ==> Mutual(g, u, v) && Mutual(g, v, u)
    ensures forall u, w :: u in c && w in c ==> Mutual(g, u, w)
  {
    hide Mutual;
    forall u, w | u in c && w in c ensures Mutual(g, u, w) {
      MutualTransitive(g, u, v, w);
    }
  }

  lemma ComponentStays(g: Adjacency, s: Search, gray: set<string>, k: nat, u: string, w: string)
    requires Root(g, s, gray, k) && u in s.stk[k..] && Mutual(g, u, w)
    ensures w in s.stk[k..]
  {
    hide Reach, Accounted, Anchored, ReachesAbove, FinishedExplored, NoArcDown;
    SplitStack(s, k);
    var p := set x | x in s.index && x !in s.stk;
    SegmentClosed(g, s, gray, k);
    ReachStaysInside(g, Elements(s.stk[k..]) + p, u, w);
    if w in p {
      assert Closed(g, p) by {
        forall x, y | x in p && Arc(g, x, y) ensures y in p { assert Popped(s, x) && Popped(s, y); }
      }
      ReachStaysInside(g, p, w, u);
      assert false;
    }
  }

  ghost function Emit(s: Search, k: nat, c: seq<string>): Search
    requires k <= |s.stk|
  {
    s.(stk := s.stk[..k], sccs := if |c| > 1 then s.sccs + [c] else s.sccs)
  }

  /** `c` lists the segment above position `k`, sorted. */
  ghost predicate Lists(s: Search, k: nat, c: seq<string>) {
    && k <= |s.stk|
    && Elements(c) == Elements(s.stk[k..])
    && NoDuplicates(c)
    && SortedBy(c, StringLe)
  }

  /** Popping the segment makes exactly its nodes popped. */
  lemma EmitPops(s: Search, k: nat, c: seq<string>)
    requires StackOrdered(s) && Lists(s, k, c)
    ensures forall u :: Popped(Emit(s, k, c), u) <==> Popped(s, u) || u in c
  {
    hide SortedBy;
    SplitStack(s, k);
    assert forall u :: u in c <==> u in Elements(c);
    assert forall i :: 0 <= i < |s.stk[k..]| ==> s.stk[k..][i] == s.stk[k + i];
  }

  lemma EmitAccounted(g: Adjacency, s: Search, k: nat, c: seq<string>)
    requires StackOrdered(s) && Accounted(g, s) && Lists(s, k, c) && IsComponent(g, Elements(c))
    ensures Accounted(g, Emit(s, k, c))
  {
    hide IsComponent, SortedBy;
    EmitPops(s, k, c);
    var t := Emit(s, k, c);
    assert forall u :: u in c ==> u in s.stk[k..] by {
      assert forall u :: u in c <==> u in Elements(c);
    }
    assert forall u :: u in c ==> !Popped(s, u) by { SplitStack(s, k); }
    if |c| > 1 {
      assert Reported(g, c);
      assert t.sccs[|s.sccs|] == c;
      hide Reported, Alone, Lists, Popped;
      forall u | Popped(t, u) ensures Alone(g, u) || exists i :: 0 <= i < |t.sccs| && u in t.sccs[i] {
        if u !in c && !Alone(g, u) {
          var i :| 0 <= i < |s.sccs| && u in s.sccs[i];
          assert t.sccs[i] == s.sccs[i];
        }
      }
    } else {
      SingletonAlone(g, c);
    }
  }

  lemma SingletonAlone(g: Adjacency, c: seq<string>)
    requires IsComponent(g, Elements(c)) && |c| <= 1
    ensures forall u :: u in c ==> Alone(g, u)
  {
    hide Reach;
    forall u, w | u in c && Mutual(g, u, w) ensures w == u {
      assert u in Elements(c);
      assert w in Elements(c);
    }
  }

  lemma EmitRest(g: Adjacency, s: Search, gray: set<string>, k: nat, c: seq<string>)
    requires Root(g, s, gray, k) && Lists(s, k, c)
    ensures FinishedExplored(g, Emit(s, k, c), gray) && PoppedClosed(g, Emit(s, k, c))
  {
    hide Reach, Accounted, Anchored, ReachesAbove, NoDuplicates, SortedBy, NoArcDown;
    SegmentClosed(g, s, gray, k);
    EmitPops(s, k, c);
    assert forall u :: u in c <==> u in Elements(s.stk[k..]);
  }

  lemma AnchorBelow(g: Adjacency, s: Search, t: Search, gray: set<string>, v: string, u: string)
    requires u in s.index && v in s.index && s.index[u] < s.index[v]
    requires HasAnchor(g, s, gray + {v}, u) && t.index == s.index
    ensures HasAnchor(g, t, gray, u)
  {
    hide Reach;
    var y :| y in gray + {v} && y in s.index && s.index[y] <= s.index[u] && Reach(g, u, y);
    assert y in gray;
  }

  /** A call that found nothing older emits the segment above its node as a component. */
  lemma EmitKeepsInv(g: Adjacency, s: Search, gray: set<string>, k: nat, c: seq<string>)
    requires Root(g, s, gray, k) && Lists(s, k, c)
    ensures Inv(g, Emit(s, k, c), gray)
  {
    SegmentIsComponent(g, s, gray, k);
    EmitRest(g, s, gray, k, c);
    EmitAccounted(g, s, k, c);
    EmitStack(g, s, gray, k, c);
    hide Root, Lists, Anchored, Accounted, FinishedExplored, PoppedClosed, ReachesAbove, StackOrdered, IsComponent;
  }

  lemma EmitStack(g: Adjacency, s: Search, gray: set<string>, k: nat, c: seq<string>)
    requires Root(g, s, gray, k) && Lists(s, k, c)
    ensures StackOrdered(Emit(s, k, c)) && ReachesAbove(g, Emit(s, k, c)) && Anchored(g, Emit(s, k, c), gray)
    ensures forall u :: u in gray ==> u in Emit(s, k, c).stk
  {
    hide Reach, Accounted, PoppedClosed, FinishedExplored, NoArcDown, Explored, HasAnchor, Lists;
    var t := Emit(s, k, c);
    forall u | u in t.stk && u in t.index ensures HasAnchor(g, t, gray, u) {
      var i :| 0 <= i < |t.stk| && t.stk[i] == u;
      assert u == s.stk[i] && s.index[s.stk[i]] < s.index[s.stk[k]];
      assert HasAnchor(g, s, gray + {s.stk[k]}, u);
      AnchorBelow(g, s, t, gray, s.stk[k], u);
    }
  }
}
