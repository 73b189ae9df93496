/** `MergeTechnologies` and `boostManifestLanguage`. */
module Technologies {
  import opened Ordering

  datatype Status = Unspecified | Current | Outdated

  datatype Technology = Technology(
    name: string, category: string, detected: string, latest: string, status: Status, slug: string)

  datatype Key = Key(name: string, category: string)

  function KeyOf(t: Technology): Key { Key(t.name, t.category) }

  /** First non-empty value wins. */
  function First(a: string, b: string): string { if a == "" then b else a }

  function FirstStatus(a: Status, b: Status): Status { if a == Unspecified then b else a }

  /** `e` with its empty fields filled from `t`. */
  function Fill(e: Technology, t: Technology): Technology {
    e.(detected := First(e.detected, t.detected), latest := First(e.latest, t.latest),
      status := FirstStatus(e.status, t.status))
  }

  /** The last entry with a key: what the index map remembers. */
  function LastWith(ts: seq<Technology>, k: Key): (i: int)
    ensures -1 <= i < |ts|
    ensures i >= 0 ==> KeyOf(ts[i]) == k
    ensures forall j :: i < j < |ts| ==> KeyOf(ts[j]) != k
  {
    if ts == [] then -1
    else if KeyOf(ts[|ts| - 1]) == k then |ts| - 1
    else LastWith(ts[..|ts| - 1], k)
  }

  /** One incoming entry. */
  function Absorb(ts: seq<Technology>, t: Technology): seq<Technology> {
    var i := LastWith(ts, KeyOf(t));
    if i >= 0 then ts[i := Fill(ts[i], t)] else ts + [t]
  }

  function Merge(existing: seq<Technology>, incoming: seq<Technology>): seq<Technology> {
    if incoming == [] then existing
    else Absorb(Merge(existing, incoming[..|incoming| - 1]), incoming[|incoming| - 1])
  }

  /** The loops over the result slice and its index. */
  method MergeTechnologies(existing: seq<Technology>, incoming: seq<Technology>) returns (result: seq<Technology>)
    ensures result == Merge(existing, incoming)
  {
    hide IndexOf;
    result := existing;
    var index := IndexExisting(existing);
    for n := 0 to |incoming|
      invariant result == Merge(existing, incoming[..n]) && IndexOf(index, result)
    {
      assert incoming[..n + 1][..n] == incoming[..n];
      hide Absorb;
      index, result := MergeEntry(index, result, incoming[n]);
    }
    assert incoming[..|incoming|] == incoming;
  }

  method IndexExisting(existing: seq<Technology>) returns (index: map<Key, nat>)
    ensures IndexOf(index, existing)
  {
    index := map[];
    for i := 0 to |existing|
      invariant IndexOf(index, existing[..i])
    {
      IndexStep(index, existing[..i], existing[i]);
      assert existing[..i + 1] == existing[..i] + [existing[i]];
      index := index[KeyOf(existing[i]) := i];
    }
    assert existing[..|existing|] == existing;
  }

  /** The body of the loop over the incoming entries. */
  method MergeEntry(index: map<Key, nat>, given: seq<Technology>, t: Technology)
    returns (index': map<Key, nat>, result: seq<Technology>)
    requires IndexOf(index, given)
    ensures result == Absorb(given, t) && IndexOf(index', result)
  {
    index', result := index, given;
    var k := KeyOf(t);
    if k in index {
      var i := index[k];
      var e := result[i];
      if e.detected == "" && t.detected != "" {
        e := e.(detected := t.detected);
      }
      if e.latest == "" && t.latest != "" {
        e := e.(latest := t.latest);
      }
      if e.status == Unspecified && t.status != Unspecified {
        e := e.(status := t.status);
      }
      IndexUpdate(index, given, i, e);
      result := result[i := e];
    } else {
      IndexStep(index, given, t);
      index' := index[k := |result|];
      result := result + [t];
    }
  }

  ghost predicate IndexOf(index: map<Key, nat>, ts: seq<Technology>) {
    forall k :: (k in index <==> LastWith(ts, k) >= 0) && (k in index ==> index[k] == LastWith(ts, k))
  }

  lemma IndexStep(index: map<Key, nat>, ts: seq<Technology>, t: Technology)
    requires IndexOf(index, ts)
    ensures IndexOf(index[KeyOf(t) := |ts|], ts + [t])
  {
    assert (ts + [t])[..|ts|] == ts;
  }

  /** The position is determined by its defining property. */
  lemma LastWithIs(ts: seq<Technology>, k: Key, i: int)
    requires -1 <= i < |ts| && (i >= 0 ==> KeyOf(ts[i]) == k) && forall j :: i < j < |ts| ==> KeyOf(ts[j]) != k
    ensures LastWith(ts, k) == i
  {
  }

  lemma SameKeysSameIndex(ts: seq<Technology>, us: seq<Technology>, k: Key)
    requires |ts| == |us| && forall i :: 0 <= i < |ts| ==> KeyOf(ts[i]) == KeyOf(us[i])
    ensures LastWith(ts, k) == LastWith(us, k)
  {
    LastWithIs(us, k, LastWith(ts, k));
  }

  lemma IndexUpdate(index: map<Key, nat>, ts: seq<Technology>, i: nat, e: Technology)
    requires IndexOf(index, ts) && i < |ts| && KeyOf(e) == KeyOf(ts[i])
    ensures IndexOf(index, ts[i := e])
  {
    hide LastWith;
    forall k ensures LastWith(ts[i := e], k) == LastWith(ts, k) {
      SameKeysSameIndex(ts, ts[i := e], k);
    }
  }

  // ---------------------------------------------------------------- what merging keeps

  lemma AbsorbKeeps(ts: seq<Technology>, t: Technology)
    ensures |ts| <= |Absorb(ts, t)|
    ensures forall i :: 0 <= i < |ts| ==> Extended(ts[i], Absorb(ts, t)[i])
    ensures forall k :: LastWith(Absorb(ts, t), k) >= 0 <==> LastWith(ts, k) >= 0 || k == KeyOf(t)
  {
    var r := Absorb(ts, t);
    var at := LastWith(ts, KeyOf(t));
    hide LastWith;
    forall k ensures LastWith(r, k) >= 0 <==> LastWith(ts, k) >= 0 || k == KeyOf(t) {
      if at >= 0 {
        SameKeysSameIndex(ts, r, k);
      } else {
        LastWithIs(r, k, if k == KeyOf(t) then |ts| else LastWith(ts, k));
      }
    }
  }

  /** `u` is `t` with at most empty fields filled in. */
  ghost predicate Extended(t: Technology, u: Technology) {
    && u.name == t.name && u.category == t.category && u.slug == t.slug
    && (t.detected != "" ==> u.detected == t.detected)
    && (t.latest != "" ==> u.latest == t.latest)
    && (t.status != Unspecified ==> u.status == t.status)
  }

  /** Every existing entry stays at its place and no non-empty field is overwritten. */
  lemma {:induction false} MergeKeepsExisting(existing: seq<Technology>, incoming: seq<Technology>)
    ensures |existing| <= |Merge(existing, incoming)|
    ensures forall i :: 0 <= i < |existing| ==> Extended(existing[i], Merge(existing, incoming)[i])
  {
    if incoming != [] {
      var n := |incoming| - 1;
      MergeKeepsExisting(existing, incoming[..n]);
      AbsorbKeeps(Merge(existing, incoming[..n]), incoming[n]);
    }
  }

  /** The result has exactly the keys of both arguments. */
  lemma {:induction false} MergeKeys(existing: seq<Technology>, incoming: seq<Technology>, k: Key)
    ensures LastWith(Merge(existing, incoming), k) >= 0 <==> LastWith(existing, k) >= 0 || LastWith(incoming, k) >= 0
  {
    if incoming != [] {
      var n := |incoming| - 1;
      MergeKeys(existing, incoming[..n], k);
      AbsorbKeeps(Merge(existing, incoming[..n]), incoming[n]);
    }
  }

  ghost predicate UniqueKeys(ts: seq<Technology>) {
    forall i, j :: 0 <= i < j < |ts| ==> KeyOf(ts[i]) != KeyOf(ts[j])
  }

  /** Merging into a list with unique keys keeps them unique; so does any accumulation from nothing. */
  lemma {:induction false} MergeUnique(existing: seq<Technology>, incoming: seq<Technology>)
    requires UniqueKeys(existing)
    ensures UniqueKeys(Merge(existing, incoming))
  {
    if incoming != [] {
      var n := |incoming| - 1;
      MergeUnique(existing, incoming[..n]);
      var ts := Merge(existing, incoming[..n]);
      var i := LastWith(ts, KeyOf(incoming[n]));
      hide Merge;
    }
  }

  // ---------------------------------------------------------------- the first filled value wins

  /** The entries with a key, in order. */
  function Occurrences(ts: seq<Technology>, k: Key): seq<Technology> {
    if ts == [] then []
    else Occurrences(ts[..|ts| - 1], k) + if KeyOf(ts[|ts| - 1]) == k then [ts[|ts| - 1]] else []
  }

  /** `v` is the first of the values that is not `none`, or `none` when all are. */
  ghost predicate FirstFilled<T(!new)>(vs: seq<T>, none: T, v: T) {
    || (v == none && forall i :: 0 <= i < |vs| ==> vs[i] == none)
    || (v != none && exists i :: 0 <= i < |vs| && vs[i] == v && forall j :: 0 <= j < i ==> vs[j] == none)
  }

  /** Each of the three fields of `e` is the first filled one among the occurrences; the rest is that of
      the first occurrence. */
  ghost predicate FirstWins(e: Technology, occurrences: seq<Technology>) {
    && occurrences != []
    && FirstFilled(Detected(occurrences), "", e.detected)
    && FirstFilled(Latest(occurrences), "", e.latest)
    && FirstFilled(Statuses(occurrences), Unspecified, e.status)
    && KeyOf(e) == KeyOf(occurrences[0]) && e.slug == occurrences[0].slug
  }

  function Detected(ts: seq<Technology>): seq<string> {
    seq(|ts|, i requires 0 <= i < |ts| => ts[i].detected)
  }

  function Latest(ts: seq<Technology>): seq<string> {
    seq(|ts|, i requires 0 <= i < |ts| => ts[i].latest)
  }

  function Statuses(ts: seq<Technology>): seq<Status> {
    seq(|ts|, i requires 0 <= i < |ts| => ts[i].status)
  }

  lemma FirstFilledMore<T(!new)>(vs: seq<T>, none: T, v: T, x: T)
    requires FirstFilled(vs, none, v)
    ensures FirstFilled(vs + [x], none, if v == none then x else v)
  {
    var all := vs + [x];
    assert all[|vs|] == x && forall i :: 0 <= i < |vs| ==> all[i] == vs[i];
    if v != none {
      var i :| 0 <= i < |vs| && vs[i] == v && forall j :: 0 <= j < i ==> vs[j] == none;
      assert all[i] == v;
    }
  }

  lemma FirstWinsMore(e: Technology, occurrences: seq<Technology>, t: Technology)
    requires FirstWins(e, occurrences) && KeyOf(t) == KeyOf(e)
    ensures FirstWins(Fill(e, t), occurrences + [t])
  {
    hide FirstFilled;
    var all := occurrences + [t];
    FirstFilledMore(Detected(occurrences), "", e.detected, t.detected);
    FirstFilledMore(Latest(occurrences), "", e.latest, t.latest);
    FirstFilledMore(Statuses(occurrences), Unspecified, e.status, t.status);
    assert Detected(all) == Detected(occurrences) + [t.detected];
    assert Latest(all) == Latest(occurrences) + [t.latest];
    assert Statuses(all) == Statuses(occurrences) + [t.status];
  }

  lemma FirstWinsAlone(t: Technology)
    ensures FirstWins(t, [t])
  {
    assert Detected([t]) == [t.detected] && Latest([t]) == [t.latest] && Statuses([t]) == [t.status];
    AloneFilled(t.detected, "");
    AloneFilled(t.latest, "");
    AloneFilled(t.status, Unspecified);
    hide FirstFilled;
  }

  lemma AloneFilled<T(!new)>(x: T, none: T)
    ensures FirstFilled([x], none, x)
  {
    assert [x][0] == x;
  }

  lemma OccurrencesAppend(ts: seq<Technology>, t: Technology, k: Key)
    ensures Occurrences(ts + [t], k) == if KeyOf(t) == k then Occurrences(ts, k) + [t] else Occurrences(ts, k)
  {
    assert (ts + [t])[..|ts|] == ts;
  }

  lemma {:induction false} NoOccurrences(ts: seq<Technology>, k: Key)
    requires LastWith(ts, k) < 0
    ensures Occurrences(ts, k) == []
  {
    if ts != [] {
      NoOccurrences(ts[..|ts| - 1], k);
    }
  }

  lemma {:induction false} OneOccurrence(ts: seq<Technology>, i: nat)
    requires UniqueKeys(ts) && i < |ts|
    ensures Occurrences(ts, KeyOf(ts[i])) == [ts[i]]
  {
    var n := |ts| - 1;
    var front := ts[..n];
    assert ts == front + [ts[n]];
    OccurrencesAppend(front, ts[n], KeyOf(ts[i]));
    assert UniqueKeys(front);
    if i < n {
      OneOccurrence(front, i);
    } else {
      NoOccurrences(front, KeyOf(ts[n])) by { UniqueAppend(front, ts[n]); }
    }
  }

  /** One more incoming entry. */
  lemma FirstWinsStep(existing: seq<Technology>, front: seq<Technology>, t: Technology, i: nat)
    requires UniqueKeys(existing)
    requires forall k :: 0 <= k < |Merge(existing, front)| ==>
      FirstWins(Merge(existing, front)[k], Occurrences(existing + front, KeyOf(Merge(existing, front)[k])))
    requires i < |Absorb(Merge(existing, front), t)|
    ensures var e := Absorb(Merge(existing, front), t)[i]; FirstWins(e, Occurrences(existing + (front + [t]), KeyOf(e)))
  {
    hide FirstWins, LastWith, Merge, UniqueKeys, Occurrences;
    var ts := Merge(existing, front);
    var at := LastWith(ts, KeyOf(t));
    var e := Absorb(ts, t)[i];
    assert existing + (front + [t]) == (existing + front) + [t];
    OccurrencesAppend(existing + front, t, KeyOf(e));
    if at >= 0 {
      if i == at {
        FirstWinsMore(ts[i], Occurrences(existing + front, KeyOf(t)), t);
      } else {
        assert KeyOf(ts[i]) != KeyOf(ts[at]) by { MergeUnique(existing, front); KeysDiffer(ts, i, at); }
      }
    } else if i == |ts| {
      MergeKeys(existing, front, KeyOf(t));
      NoneInEither(existing, front, KeyOf(t));
      assert Occurrences(existing + front, KeyOf(t)) + [t] == [t];
      FirstWinsAlone(t);
    } else {
      assert KeyOf(ts[i]) != KeyOf(t) by { LastWithNone(ts, KeyOf(t), i); }
    }
  }

  lemma KeysDiffer(ts: seq<Technology>, i: nat, j: nat)
    requires UniqueKeys(ts) && i < |ts| && j < |ts| && i != j
    ensures KeyOf(ts[i]) != KeyOf(ts[j])
  {
  }

  lemma LastWithNone(ts: seq<Technology>, k: Key, i: nat)
    requires LastWith(ts, k) < 0 && i < |ts|
    ensures KeyOf(ts[i]) != k
  {
  }

  lemma {:induction false} NoneInEither(a: seq<Technology>, b: seq<Technology>, k: Key)
    requires LastWith(a, k) < 0 && LastWith(b, k) < 0
    ensures Occurrences(a + b, k) == []
  {
    if b == [] {
      assert a + b == a;
      NoOccurrences(a, k);
    } else {
      var n := |b| - 1;
      NoneInEither(a, b[..n], k);
      assert a + b == (a + b[..n]) + [b[n]];
      OccurrencesAppend(a + b[..n], b[n], k);
    }
  }

  /** First non-empty wins: with unique existing keys, each field of every merged entry is the first filled
      value among the existing and then the incoming entries of its key, and empty exactly when all are. */
  lemma {:induction false} MergeFirstWins(existing: seq<Technology>, incoming: seq<Technology>, i: nat)
    requires UniqueKeys(existing) && i < |Merge(existing, incoming)|
    ensures var e := Merge(existing, incoming)[i]; FirstWins(e, Occurrences(existing + incoming, KeyOf(e)))
    decreases |incoming|
  {
    hide FirstWins, LastWith, UniqueKeys, Occurrences, Absorb;
    if incoming == [] {
      assert existing + incoming == existing;
      OneOccurrence(existing, i);
      FirstWinsAlone(existing[i]);
    } else {
      var n := |incoming| - 1;
      var front := incoming[..n];
      forall k | 0 <= k < |Merge(existing, front)|
        ensures FirstWins(Merge(existing, front)[k], Occurrences(existing + front, KeyOf(Merge(existing, front)[k])))
      {
        MergeFirstWins(existing, front, k);
      }
      FirstWinsStep(existing, front, incoming[n], i);
      assert incoming == front + [incoming[n]];
    }
  }

  // ---------------------------------------------------------------- algebra

  lemma FillAssociates(e: Technology, t: Technology, u: Technology)
    ensures Fill(Fill(e, t), u) == Fill(e, Fill(t, u))
  {
  }

  lemma LastWithUpdate(ts: seq<Technology>, i: nat, e: Technology, k: Key)
    requires i < |ts| && KeyOf(e) == KeyOf(ts[i])
    ensures LastWith(ts[i := e], k) == LastWith(ts, k)
  {
    SameKeysSameIndex(ts, ts[i := e], k);
  }

  lemma LastWithAppend(ts: seq<Technology>, t: Technology, k: Key)
    ensures LastWith(ts + [t], k) == if k == KeyOf(t) then |ts| else LastWith(ts, k)
  {
    LastWithIs(ts + [t], k, if k == KeyOf(t) then |ts| else LastWith(ts, k));
  }

  /** Absorbing a filled entry is absorbing the entry and then what filled it. */
  lemma AbsorbFilled(ts: seq<Technology>, x: Technology, t: Technology)
    requires KeyOf(x) == KeyOf(t)
    ensures Absorb(ts, Fill(x, t)) == Absorb(Absorb(ts, x), t)
  {
    hide LastWith;
    var k := KeyOf(t);
    var i := LastWith(ts, k);
    if i >= 0 {
      LastWithUpdate(ts, i, Fill(ts[i], x), k);
      FillAssociates(ts[i], x, t);
    } else {
      LastWithAppend(ts, x, k);
    }
  }

  /** Entries with different keys may be absorbed in either order once the first key is present. */
  lemma AbsorbCommutes(ts: seq<Technology>, t: Technology, u: Technology)
    requires KeyOf(t) != KeyOf(u) && LastWith(ts, KeyOf(t)) >= 0
    ensures Absorb(Absorb(ts, u), t) == Absorb(Absorb(ts, t), u)
  {
    hide LastWith;
    var i := LastWith(ts, KeyOf(t));
    var j := LastWith(ts, KeyOf(u));
    LastWithUpdate(ts, i, Fill(ts[i], t), KeyOf(u));
    if j >= 0 {
      LastWithUpdate(ts, j, Fill(ts[j], u), KeyOf(t));
    } else {
      LastWithAppend(ts, u, KeyOf(t));
    }
  }

  /** An entry whose key is present and which is not repeated in `us` may be absorbed before or after
      all of `us`. */
  lemma {:induction false} AbsorbPast(ts: seq<Technology>, t: Technology, us: seq<Technology>)
    requires LastWith(ts, KeyOf(t)) >= 0 && forall i :: 0 <= i < |us| ==> KeyOf(us[i]) != KeyOf(t)
    ensures Absorb(Merge(ts, us), t) == Merge(Absorb(ts, t), us)
  {
    hide LastWith, Absorb;
    if us != [] {
      var n := |us| - 1;
      AbsorbPast(ts, t, us[..n]);
      MergeKeys(ts, us[..n], KeyOf(t));
      AbsorbCommutes(Merge(ts, us[..n]), t, us[n]);
    }
  }

  lemma {:induction false} MergeConcat(ts: seq<Technology>, us: seq<Technology>, vs: seq<Technology>)
    ensures Merge(ts, us + vs) == Merge(Merge(ts, us), vs)
  {
    hide Absorb;
    if vs == [] {
      assert us + vs == us;
    } else {
      var n := |vs| - 1;
      MergeConcat(ts, us, vs[..n]);
      assert (us + vs)[..|us + vs| - 1] == us + vs[..n];
    }
  }

  lemma MergeOne(ts: seq<Technology>, t: Technology)
    ensures Merge(ts, [t]) == Absorb(ts, t)
  {
    assert [t][..0] == [];
  }

  /** Merging a list into which `t` was absorbed is merging the list and then absorbing `t`. */
  lemma MergeAbsorbed(ts: seq<Technology>, us: seq<Technology>, t: Technology)
    ensures Merge(ts, Absorb(us, t)) == Absorb(Merge(ts, us), t)
  {
    var i := LastWith(us, KeyOf(t));
    if i >= 0 {
      var x := us[i];
      var front, back := us[..i], us[i + 1..];
      assert us == front + [x] + back;
      assert us[i := Fill(x, t)] == front + [Fill(x, t)] + back;
      hide LastWith;
      var a := Merge(ts, front);
      MergeConcat(ts, front + [x], back);
      MergeConcat(ts, front, [x]);
      MergeConcat(ts, front + [Fill(x, t)], back);
      MergeConcat(ts, front, [Fill(x, t)]);
      MergeOne(a, x);
      MergeOne(a, Fill(x, t));
      AbsorbFilled(a, x, t);
      AbsorbKeeps(a, x);
      AbsorbPast(Absorb(a, x), t, back);
    } else {
      MergeConcat(ts, us, [t]);
      MergeOne(Merge(ts, us), t);
    }
  }

  /** Merging is associative. */
  lemma {:induction false} MergeAssociative(ts: seq<Technology>, us: seq<Technology>, vs: seq<Technology>)
    ensures Merge(ts, Merge(us, vs)) == Merge(Merge(ts, us), vs)
  {
    hide Absorb;
    if vs != [] {
      var n := |vs| - 1;
      MergeAssociative(ts, us, vs[..n]);
      MergeAbsorbed(ts, Merge(us, vs[..n]), vs[n]);
    }
  }

  /** `t` has nothing to add to `ts`. */
  ghost predicate Settled(ts: seq<Technology>, t: Technology) {
    var i := LastWith(ts, KeyOf(t));
    i >= 0 && Fill(ts[i], t) == ts[i]
  }

  lemma AbsorbSettles(ts: seq<Technology>, t: Technology)
    ensures Settled(Absorb(ts, t), t)
  {
    hide LastWith;
    var i := LastWith(ts, KeyOf(t));
    if i >= 0 {
      LastWithUpdate(ts, i, Fill(ts[i], t), KeyOf(t));
    } else {
      LastWithAppend(ts, t, KeyOf(t));
    }
  }

  lemma AbsorbKeepsSettled(ts: seq<Technology>, t: Technology, u: Technology)
    requires Settled(ts, t)
    ensures Settled(Absorb(ts, u), t)
  {
    hide LastWith;
    var j := LastWith(ts, KeyOf(u));
    if j >= 0 {
      LastWithUpdate(ts, j, Fill(ts[j], u), KeyOf(t));
    } else {
      LastWithAppend(ts, u, KeyOf(t));
    }
  }

  lemma {:induction false} MergeSettles(ts: seq<Technology>, us: seq<Technology>, i: nat)
    requires i < |us|
    ensures Settled(Merge(ts, us), us[i])
  {
    hide Settled;
    var n := |us| - 1;
    if i == n {
      AbsorbSettles(Merge(ts, us[..n]), us[n]);
    } else {
      MergeSettles(ts, us[..n], i);
      AbsorbKeepsSettled(Merge(ts, us[..n]), us[i], us[n]);
    }
  }

  lemma {:induction false} MergeSettled(ts: seq<Technology>, us: seq<Technology>)
    requires forall i :: 0 <= i < |us| ==> Settled(ts, us[i])
    ensures Merge(ts, us) == ts
  {
    if us != [] {
      var n := |us| - 1;
      assert Settled(ts, us[n]);
      hide LastWith;
      MergeSettled(ts, us[..n]);
      assert ts[LastWith(ts, KeyOf(us[n])) := ts[LastWith(ts, KeyOf(us[n]))]] == ts;
    }
  }

  /** Merging the same list again changes nothing. */
  lemma MergeIdempotent(ts: seq<Technology>, us: seq<Technology>)
    ensures Merge(Merge(ts, us), us) == Merge(ts, us)
  {
    hide Merge, Settled;
    forall i | 0 <= i < |us| ensures Settled(Merge(ts, us), us[i]) { MergeSettles(ts, us, i); }
    MergeSettled(Merge(ts, us), us);
  }

  lemma {:induction false} MergeFromNothing(us: seq<Technology>)
    ensures |Merge([], us)| <= |us|
    ensures UniqueKeys(us) ==> Merge([], us) == us
    ensures !UniqueKeys(us) ==> |Merge([], us)| < |us|
  {
    hide UniqueKeys, LastWith, Absorb;
    if us != [] {
      var n := |us| - 1;
      var front := us[..n];
      MergeFromNothing(front);
      MergeKeys([], front, KeyOf(us[n]));
      UniqueAppend(front, us[n]);
      AbsorbSize(Merge([], front), us[n]);
      assert us == front + [us[n]];
    } else {
      assert UniqueKeys(us) by { NoKeys(); }
    }
  }

  lemma NoKeys()
    ensures UniqueKeys([])
  {
  }

  lemma UniqueAppend(ts: seq<Technology>, t: Technology)
    ensures UniqueKeys(ts + [t]) <==> UniqueKeys(ts) && LastWith(ts, KeyOf(t)) < 0
  {
    hide LastWith;
    var all := ts + [t];
    assert all[|ts|] == t && forall i :: 0 <= i < |ts| ==> all[i] == ts[i];
    if UniqueKeys(all) {
      forall i, j | 0 <= i < j < |ts| ensures KeyOf(ts[i]) != KeyOf(ts[j]) {
        assert KeyOf(all[i]) != KeyOf(all[j]);
      }
      forall i | 0 <= i < |ts| ensures KeyOf(ts[i]) != KeyOf(t) {
        assert KeyOf(all[i]) != KeyOf(all[|ts|]);
      }
    }
  }

  lemma AbsorbSize(ts: seq<Technology>, t: Technology)
    ensures LastWith(ts, KeyOf(t)) < 0 ==> Absorb(ts, t) == ts + [t]
    ensures LastWith(ts, KeyOf(t)) >= 0 ==> |Absorb(ts, t)| == |ts|
  {
    hide LastWith;
  }

  /** "An empty list is merged with to a copy of the incoming one" holds exactly when the incoming keys are
      unique; otherwise entries that share a key become one. */
  lemma NilMergeCopiesIff(us: seq<Technology>)
    ensures Merge([], us) == us <==> UniqueKeys(us)
  {
    MergeFromNothing(us);
  }

  /** Two entries for one technology become one. */
  lemma NilMergeJoins(t: Technology)
    ensures Merge([], [t, t]) == [t]
  {
    assert [t, t][..1] == [t] && [t][..0] == [];
    assert Merge([], [t]) == [t];
  }

  // ---------------------------------------------------------------- the manifest language

  datatype Ecosystem = Composer | PyPI | Maven | NuGet | RubyGems | Npm | OtherEcosystem

  function Language(e: Ecosystem): string {
    match e
    case Composer => "PHP"
    case PyPI => "Python"
    case Maven => "Java"
    case NuGet => "C#"
    case RubyGems => "Ruby"
    case Npm => "JavaScript"
    case OtherEcosystem => ""
  }

  /** Composer always decides; otherwise the first known ecosystem does. */
  function Primary(deps: seq<Ecosystem>): string {
    if deps == [] then ""
    else
      var p := Primary(deps[..|deps| - 1]);
      var d := deps[|deps| - 1];
      if d == Composer then "PHP" else if p == "" then Language(d) else p
  }

  /** The first known ecosystem of the list is at position `i`. */
  ghost predicate FirstKnown(deps: seq<Ecosystem>, i: nat) {
    i < |deps| && deps[i] != OtherEcosystem && forall j :: 0 <= j < i ==> deps[j] == OtherEcosystem
  }

  lemma {:induction false} ComposerDecides(deps: seq<Ecosystem>)
    requires Composer in deps
    ensures Primary(deps) == "PHP"
  {
    var n := |deps| - 1;
    assert deps == deps[..n] + [deps[n]];
    if deps[n] != Composer {
      ComposerDecides(deps[..n]);
    }
  }

  lemma {:induction false} NoneKnown(deps: seq<Ecosystem>)
    requires forall i :: 0 <= i < |deps| ==> deps[i] == OtherEcosystem
    ensures Primary(deps) == ""
  {
    if deps != [] {
      NoneKnown(deps[..|deps| - 1]);
    }
  }

  lemma {:induction false} FirstKnownDecides(deps: seq<Ecosystem>, i: nat)
    requires Composer !in deps && FirstKnown(deps, i)
    ensures Primary(deps) == Language(deps[i])
  {
    var n := |deps| - 1;
    assert deps == deps[..n] + [deps[n]];
    if i < n {
      FirstKnownDecides(deps[..n], i);
    } else {
      NoneKnown(deps[..n]);
    }
  }

  /** What decides, without the loop: Composer if it occurs, else the first known ecosystem, else
      nothing. */
  lemma PrimaryMeaning(deps: seq<Ecosystem>, i: nat)
    ensures Composer in deps ==> Primary(deps) == "PHP"
    ensures Composer !in deps && FirstKnown(deps, i) ==> Primary(deps) == Language(deps[i])
    ensures (forall j :: 0 <= j < |deps| ==> deps[j] == OtherEcosystem) ==> Primary(deps) == ""
  {
    hide Primary;
    if Composer in deps {
      ComposerDecides(deps);
    } else if FirstKnown(deps, i) {
      FirstKnownDecides(deps, i);
    }
    if forall j :: 0 <= j < |deps| ==> deps[j] == OtherEcosystem {
      NoneKnown(deps);
    }
  }

  /** The language of each package manager. */
  lemma PrimaryOfOne()
    ensures Primary([Composer]) == "PHP" && Primary([PyPI]) == "Python" && Primary([Maven]) == "Java"
    ensures Primary([NuGet]) == "C#" && Primary([RubyGems]) == "Ruby" && Primary([Npm]) == "JavaScript"
    ensures Primary([OtherEcosystem]) == ""
  {
    assert forall e: Ecosystem :: [e][..0] == [];
    forall e: Ecosystem ensures Primary([e]) == if e == Composer then "PHP" else Language(e) {
      assert [e][..0] == [];
    }
  }

  /** The priority list in the comment of the source: the lower the rank, the stronger the claim. */
  function PriorityRank(e: Ecosystem): nat {
    match e
    case Composer => 0
    case PyPI => 1
    case Maven => 2
    case NuGet => 3
    case RubyGems => 4
    case Npm => 5
    case OtherEcosystem => 6
  }

  /** The list says that `e` decides. */
  ghost predicate TopPriority(deps: seq<Ecosystem>, e: Ecosystem) {
    e in deps && e != OtherEcosystem && forall d :: d in deps ==> PriorityRank(e) <= PriorityRank(d)
  }

  /** The code does not follow the list: the first known ecosystem beats a stronger later one. */
  lemma PriorityIgnored()
    ensures Primary([Npm, PyPI]) == "JavaScript" && TopPriority([Npm, PyPI], PyPI) && Language(PyPI) == "Python"
  {
    assert [Npm, PyPI][..1] == [Npm] && [Npm][..0] == [];
    assert Primary([Npm]) == "JavaScript";
  }

  /** Exactly when it does: Composer is among the dependencies, or the strongest ecosystem is the first
      known one. */
  lemma PriorityFollowedIff(deps: seq<Ecosystem>, e: Ecosystem, i: nat)
    requires TopPriority(deps, e) && FirstKnown(deps, i)
    ensures Primary(deps) == Language(e) <==> Composer in deps || deps[i] == e
  {
    hide Primary, FirstKnown;
    PrimaryMeaning(deps, i);
    assert Composer in deps ==> e == Composer;
  }

  predicate IsHead(t: Technology, primary: string) {
    t.category == "language" && t.name == primary
  }

  function Others(ts: seq<Technology>, primary: string): seq<Technology> {
    if ts == [] then []
    else
      var n := |ts| - 1;
      Others(ts[..n], primary) + if IsHead(ts[n], primary) then [] else [ts[n]]
  }

  /** The last language entry named `primary` in front of all that are not. */
  function Boosted(ts: seq<Technology>, primary: string): seq<Technology> {
    var i := LastWith(ts, Key(primary, "language"));
    if primary == "" || i < 0 then ts else [ts[i]] + Others(ts, primary)
  }

  method BoostManifestLanguage(technologies: seq<Technology>, deps: seq<Ecosystem>) returns (r: seq<Technology>)
    ensures r == Boosted(technologies, Primary(deps))
  {
    var primary := "";
    for i := 0 to |deps|
      invariant primary == Primary(deps[..i])
    {
      assert deps[..i + 1][..i] == deps[..i];
      if deps[i] == Composer {
        primary := "PHP";
      } else if primary == "" {
        primary := Language(deps[i]);
      }
    }
    assert deps[..|deps|] == deps;
    if primary == "" {
      return technologies;
    }
    var result := [];
    var head := -1;
    for i := 0 to |technologies|
      invariant result == Others(technologies[..i], primary)
      invariant -1 <= head < i
      invariant head >= 0 ==> IsHead(technologies[head], primary)
      invariant forall j :: head < j < i ==> !IsHead(technologies[j], primary)
    {
      assert technologies[..i + 1][..i] == technologies[..i];
      if technologies[i].category == "language" && technologies[i].name == primary {
        head := i;
      } else {
        result := result + [technologies[i]];
      }
    }
    assert technologies[..|technologies|] == technologies;
    LastWithIs(technologies, Key(primary, "language"), head);
    if head < 0 {
      return technologies;
    }
    r := [technologies[head]] + result;
  }

  /** With unique keys, moving the head to the front is removing it from its place. */
  lemma {:induction false} OthersIsRemoval(ts: seq<Technology>, primary: string, i: nat)
    requires UniqueKeys(ts) && i < |ts| && IsHead(ts[i], primary)
    ensures Others(ts, primary) == ts[..i] + ts[i + 1..]
  {
    var n := |ts| - 1;
    assert UniqueKeys(ts[..n]);
    if i == n {
      NoHeadNoRemoval(ts[..n], primary);
      assert ts[n + 1..] == [];
    } else {
      OthersIsRemoval(ts[..n], primary, i);
      assert KeyOf(ts[n]) != KeyOf(ts[i]);
      assert ts[i + 1..] == ts[..n][i + 1..] + [ts[n]];
      assert ts[..n][..i] == ts[..i];
    }
  }

  lemma {:induction false} NoHeadNoRemoval(ts: seq<Technology>, primary: string)
    requires forall i :: 0 <= i < |ts| ==> !IsHead(ts[i], primary)
    ensures Others(ts, primary) == ts
  {
    if ts != [] {
      var n := |ts| - 1;
      NoHeadNoRemoval(ts[..n], primary);
      assert ts == ts[..n] + [ts[n]];
    }
  }

  /** The list with entry `i` moved to the front and the others in their order. */
  function MovedToFront(ts: seq<Technology>, i: nat): seq<Technology>
    requires i < |ts|
  {
    [ts[i]] + (ts[..i] + ts[i + 1..])
  }

  /** On any accumulation from nothing the boost is a permutation that moves at most one entry to
      the front and keeps the order of the rest. */
  lemma BoostPermutes(incoming: seq<Technology>, primary: string)
    ensures var ts := Merge([], incoming);
      && multiset(Boosted(ts, primary)) == multiset(ts)
      && (Boosted(ts, primary) == ts || exists i :: 0 <= i < |ts| && Boosted(ts, primary) == MovedToFront(ts, i))
  {
    assert UniqueKeys([]);
    hide Merge, Boosted, MovedToFront;
    MergeUnique([], incoming);
    BoostUnique(Merge([], incoming), primary);
  }

  /** When there is something to boost it stands first: the head is a language entry of the primary name, and
      without one, or without a primary, the list stays as it is. */
  lemma BoostFront(ts: seq<Technology>, primary: string)
    ensures primary != "" && (exists i :: 0 <= i < |ts| && ts[i].category == "language" && ts[i].name == primary) ==>
      var b := Boosted(ts, primary);
      && b != [] && b[0] in ts && b[0].category == "language" && b[0].name == primary
      && forall i :: 1 <= i < |b| ==> !(b[i].category == "language" && b[i].name == primary)
    ensures
      (primary == "" || forall i :: 0 <= i < |ts| ==> !(ts[i].category == "language" && ts[i].name == primary)) ==>
      Boosted(ts, primary) == ts
  {
    OthersAreOthers(ts, primary);
    hide Others;
    var i := LastWith(ts, Key(primary, "language"));
    if i >= 0 && primary != "" {
      assert KeyOf(ts[i]) == Key(primary, "language");
    }
    if k :| 0 <= k < |ts| && ts[k].category == "language" && ts[k].name == primary {
      assert KeyOf(ts[k]) == Key(primary, "language");
    }
  }

  lemma {:induction false} OthersAreOthers(ts: seq<Technology>, primary: string)
    ensures forall i :: 0 <= i < |Others(ts, primary)| ==> !IsHead(Others(ts, primary)[i], primary)
  {
    if ts != [] {
      OthersAreOthers(ts[..|ts| - 1], primary);
    }
  }

  lemma BoostUnique(ts: seq<Technology>, primary: string)
    requires UniqueKeys(ts)
    ensures multiset(Boosted(ts, primary)) == multiset(ts)
    ensures Boosted(ts, primary) == ts || exists i :: 0 <= i < |ts| && Boosted(ts, primary) == MovedToFront(ts, i)
  {
    hide Others, LastWith;
    var i := LastWith(ts, Key(primary, "language"));
    if i >= 0 && primary != "" {
      OthersIsRemoval(ts, primary, i);
      hide UniqueKeys;
      assert Boosted(ts, primary) == MovedToFront(ts, i);
      MovePermutes(ts, i);
    }
  }

  lemma MovePermutes(ts: seq<Technology>, i: nat)
    requires i < |ts|
    ensures multiset(MovedToFront(ts, i)) == multiset(ts)
  {
    MultisetWithout(ts, i);
  }

  function Heads(ts: seq<Technology>, primary: string): seq<Technology> {
    if ts == [] then []
    else
      var n := |ts| - 1;
      Heads(ts[..n], primary) + if IsHead(ts[n], primary) then [ts[n]] else []
  }

  lemma {:induction false} HeadsAndOthers(ts: seq<Technology>, primary: string)
    ensures multiset(ts) == multiset(Heads(ts, primary)) + multiset(Others(ts, primary))
  {
    if ts != [] {
      hide IsHead;
      var n := |ts| - 1;
      HeadsAndOthers(ts[..n], primary);
      assert ts == ts[..n] + [ts[n]];
    }
  }

  lemma {:induction false} HeadListed(ts: seq<Technology>, primary: string, i: nat)
    requires i < |ts| && IsHead(ts[i], primary)
    ensures ts[i] in Heads(ts, primary)
  {
    if i < |ts| - 1 {
      HeadListed(ts[..|ts| - 1], primary, i);
    }
  }

  /** On an arbitrary list the boost loses nothing exactly when at most one entry is a candidate. */
  lemma BoostPermutesIff(ts: seq<Technology>, primary: string)
    ensures multiset(Boosted(ts, primary)) == multiset(ts) <==> primary == "" || |Heads(ts, primary)| <= 1
  {
    HeadsAndOthers(ts, primary);
    var i := LastWith(ts, Key(primary, "language"));
    var heads, others := Heads(ts, primary), Others(ts, primary);
    hide Heads, Others, LastWith;
    assert |multiset(ts)| == |ts| && |multiset(heads)| == |heads| && |multiset(others)| == |others|;
    if i >= 0 && primary != "" {
      HeadListed(ts, primary, i);
      var b := [ts[i]] + others;
      assert |multiset(b)| == |b|;
      if |heads| == 1 {
        assert heads == [ts[i]];
      }
    } else if i < 0 {
      NoHeads(ts, primary);
    }
  }

  lemma {:induction false} NoHeads(ts: seq<Technology>, primary: string)
    requires forall i :: 0 <= i < |ts| ==> !IsHead(ts[i], primary)
    ensures Heads(ts, primary) == []
  {
    if ts != [] {
      NoHeads(ts[..|ts| - 1], primary);
    }
  }
}
