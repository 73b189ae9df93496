/** Go's string order and the contract of the sorting calls the workers make. */
module Ordering {

  /** Lexicographic order on strings: what `sort.Strings` and `<` on strings compare by. */
  predicate StringLe(a: string, b: string) {
    a == [] || (b != [] && (a[0] < b[0] || (a[0] == b[0] && StringLe(a[1..], b[1..]))))
  }

  lemma {:induction false} StringLeTotal(a: string, b: string)
    ensures StringLe(a, b) || StringLe(b, a)
  {
    if a != [] && b != [] && a[0] == b[0] {
      StringLeTotal(a[1..], b[1..]);
    }
  }

  lemma {:induction false} StringLeAntisymmetric(a: string, b: string)
    requires StringLe(a, b) && StringLe(b, a)
    ensures a == b
  {
    if a != [] && b != [] {
      StringLeAntisymmetric(a[1..], b[1..]);
      assert a == [a[0]] + a[1..] && b == [b[0]] + b[1..];
    }
  }

  lemma {:induction false} StringLeTransitive(a: string, b: string, c: string)
    requires StringLe(a, b) && StringLe(b, c)
    ensures StringLe(a, c)
  {
    if a != [] && b != [] && c != [] && a[0] == b[0] && b[0] == c[0] {
      StringLeTransitive(a[1..], b[1..], c[1..]);
    }
  }

  ghost predicate TotalPreorder<T(!new)>(le: (T, T) -> bool) {
    && (forall x, y :: le(x, y) || le(y, x))
    && (forall x, y, z :: le(x, y) && le(y, z) ==> le(x, z))
  }

  ghost predicate SortedBy<T(!new)>(s: seq<T>, le: (T, T) -> bool) {
    forall i, j :: 0 <= i < j < |s| ==> le(s[i], s[j])
  }

  lemma StringLePreorder()
    ensures TotalPreorder(StringLe)
  {
    forall x, y ensures StringLe(x, y) || StringLe(y, x) { StringLeTotal(x, y); }
    forall x, y, z | StringLe(x, y) && StringLe(y, z) ensures StringLe(x, z) { StringLeTransitive(x, y, z); }
  }

  /** One insertion into a sorted sequence. */
  method Insert<T(!new)>(s: seq<T>, x: T, le: (T, T) -> bool) returns (r: seq<T>)
    requires TotalPreorder(le) && SortedBy(s, le)
    ensures SortedBy(r, le) && multiset(r) == multiset(s) + multiset{x}
  {
    var k := |s|;
    while k > 0 && !le(s[k - 1], x)
      invariant 0 <= k <= |s|
      invariant forall i :: k <= i < |s| ==> le(x, s[i])
    {
      k := k - 1;
    }
    r := s[..k] + [x] + s[k..];
    assert s == s[..k] + s[k..];
    InsertedSorted(s, x, k, le);
  }

  lemma InsertedSorted<T(!new)>(s: seq<T>, x: T, k: nat, le: (T, T) -> bool)
    requires TotalPreorder(le) && SortedBy(s, le) && k <= |s|
    requires k > 0 ==> le(s[k - 1], x)
    requires forall i :: k <= i < |s| ==> le(x, s[i])
    ensures SortedBy(s[..k] + [x] + s[k..], le)
  {
    forall i | 0 <= i < k ensures le(s[i], x) {
      assert le(s[k - 1], x) && (i == k - 1 || le(s[i], s[k - 1]));
    }
    var r := s[..k] + [x] + s[k..];
    assert forall i :: 0 <= i < |r| ==> r[i] == if i < k then s[i] else if i == k then x else s[i - 1];
  }

  /** `sort.Slice` / `sort.Strings`: the caller learns only that the result is a sorted
      permutation, because Go's sort is not stable. */
  method Sort<T(!new)>(s: seq<T>, le: (T, T) -> bool) returns (r: seq<T>)
    requires TotalPreorder(le)
    ensures SortedBy(r, le)
    ensures multiset(r) == multiset(s)
  {
    r := [];
    for i := 0 to |s|
      invariant SortedBy(r, le)
      invariant multiset(r) == multiset(s[..i])
    {
      r := Insert(r, s[i], le);
      assert s[..i + 1] == s[..i] + [s[i]];
    }
    assert s[..|s|] == s;
  }

  /** Every list has a sorted permutation. */
  lemma {:induction false} SortExists<T(!new)>(s: seq<T>, le: (T, T) -> bool) returns (r: seq<T>)
    requires TotalPreorder(le)
    ensures SortedBy(r, le) && multiset(r) == multiset(s)
  {
    r := [];
    if s != [] {
      var n := |s| - 1;
      var t := SortExists(s[..n], le);
      var x := s[n];
      var k := |t|;
      while k > 0 && !le(t[k - 1], x)
        invariant 0 <= k <= |t|
        invariant forall i :: k <= i < |t| ==> le(x, t[i])
      {
        k := k - 1;
      }
      InsertedSorted(t, x, k, le);
      r := t[..k] + [x] + t[k..];
      assert t == t[..k] + t[k..] && s == s[..n] + [x];
    }
  }

  ghost predicate NoDuplicates<T(!new)>(s: seq<T>) {
    forall i, j :: 0 <= i < j < |s| ==> s[i] != s[j]
  }

  ghost function Elements<T(!new)>(s: seq<T>): set<T> { set x | x in s }

  /** Whether `le` tells the elements of `s` apart. */
  ghost predicate Separates<T(!new)>(s: seq<T>, le: (T, T) -> bool) {
    && (forall x :: x in s ==> le(x, x))
    && (forall x, y :: x in s && y in s && le(x, y) && le(y, x) ==> x == y)
  }

  lemma SortedHeadLeast<T(!new)>(s: seq<T>, x: T, le: (T, T) -> bool)
    requires SortedBy(s, le) && x in s && le(x, x)
    ensures le(s[0], x)
  {
    var i :| 0 <= i < |s| && s[i] == x;
  }

  lemma HeadOut<T(!new)>(s: seq<T>)
    requires s != []
    ensures multiset(s[1..]) == multiset(s) - multiset{s[0]}
  {
    assert s == [s[0]] + s[1..];
  }

  lemma SortedHeadsAgree<T(!new)>(s: seq<T>, t: seq<T>, le: (T, T) -> bool)
    requires SortedBy(s, le) && SortedBy(t, le) && Separates(s, le)
    requires multiset(s) == multiset(t) && s != []
    ensures |t| == |s| && s[0] == t[0] && multiset(s[1..]) == multiset(t[1..])
  {
    assert |multiset(s)| == |s| && |multiset(t)| == |t|;
    assert s[0] in multiset(t) && t[0] in multiset(s);
    SortedHeadLeast(s, t[0], le);
    SortedHeadLeast(t, s[0], le);
    HeadOut(s);
    HeadOut(t);
  }

  /** Sorting by an order that tells the elements apart has one possible outcome. */
  lemma {:induction false} SortedUnique<T(!new)>(s: seq<T>, t: seq<T>, le: (T, T) -> bool)
    requires SortedBy(s, le) && SortedBy(t, le) && Separates(s, le)
    requires multiset(s) == multiset(t)
    ensures s == t
  {
    if s == [] {
      assert |multiset(t)| == 0;
    } else {
      SortedHeadsAgree(s, t, le);
      SortedUnique(s[1..], t[1..], le);
      assert s == [s[0]] + s[1..] && t == [t[0]] + t[1..];
    }
  }

  lemma SortedListingUnique(s: seq<string>, t: seq<string>)
    requires SortedBy(s, StringLe) && SortedBy(t, StringLe)
    requires multiset(s) == multiset(t)
    ensures s == t
  {
    hide StringLe;
    forall x, y | StringLe(x, y) && StringLe(y, x) ensures x == y { StringLeAntisymmetric(x, y); }
    forall x ensures StringLe(x, x) { StringLeTotal(x, x); }
    SortedUnique(s, t, StringLe);
  }

  lemma SubsetCard<T>(a: set<T>, b: set<T>)
    requires a <= b
    ensures |a| <= |b|
  {
    assert b == a + (b - a);
  }

  lemma {:induction false} NoDuplicatesCard<T(!new)>(s: seq<T>)
    requires NoDuplicates(s)
    ensures |Elements(s)| == |s|
  {
    if s != [] {
      NoDuplicatesCard(s[1..]);
      assert Elements(s) == {s[0]} + Elements(s[1..]);
    }
  }

  lemma {:induction false} CardNoDuplicates<T(!new)>(s: seq<T>)
    requires |Elements(s)| == |s|
    ensures NoDuplicates(s)
  {
    if s != [] {
      ElementsCardBound(s[1..]);
      assert Elements(s) == {s[0]} + Elements(s[1..]);
      CardNoDuplicates(s[1..]);
    }
  }

  lemma {:induction false} ElementsCardBound<T(!new)>(s: seq<T>)
    ensures |Elements(s)| <= |s|
  {
    if s != [] {
      ElementsCardBound(s[1..]);
      assert Elements(s) == {s[0]} + Elements(s[1..]);
    }
  }

  /** Permuting a sequence keeps its elements and its freedom from duplicates. */
  lemma PermutationKeeps<T(!new)>(s: seq<T>, t: seq<T>)
    requires multiset(s) == multiset(t)
    ensures Elements(s) == Elements(t) && |s| == |t|
    ensures forall x :: x in s <==> x in t
    ensures NoDuplicates(s) ==> NoDuplicates(t)
  {
    assert |multiset(s)| == |s| && |multiset(t)| == |t|;
    forall x ensures x in s <==> x in t { assert x in s <==> x in multiset(s); assert x in t <==> x in multiset(t); }
    assert Elements(s) == Elements(t);
    if NoDuplicates(s) {
      NoDuplicatesCard(s);
      CardNoDuplicates(t);
    }
  }

  lemma {:induction false} NoDuplicatesMultiplicity<T(!new)>(s: seq<T>, x: T)
    requires NoDuplicates(s)
    ensures multiset(s)[x] == if x in s then 1 else 0
  {
    if s != [] {
      NoDuplicatesMultiplicity(s[1..], x);
      assert s == [s[0]] + s[1..];
    }
  }

  lemma SameElementsSameMultiset<T(!new)>(s: seq<T>, t: seq<T>)
    requires NoDuplicates(s) && NoDuplicates(t) && Elements(s) == Elements(t)
    ensures multiset(s) == multiset(t)
  {
    forall x ensures multiset(s)[x] == multiset(t)[x] {
      NoDuplicatesMultiplicity(s, x);
      NoDuplicatesMultiplicity(t, x);
      assert x in s <==> x in Elements(s);
      assert x in t <==> x in Elements(t);
    }
  }

  /** The last element of a sequence, found in a permutation of it. */
  lemma TakeOut<T(!new)>(a: seq<T>, b: seq<T>) returns (i: nat)
    requires a != [] && multiset(a) == multiset(b)
    ensures i < |b| == |a| && b[i] == a[|a| - 1]
    ensures multiset(a[..|a| - 1]) == multiset(b[..i] + b[i + 1..])
    ensures b == b[..i] + [b[i]] + b[i + 1..] && a == a[..|a| - 1] + [b[i]]
  {
    assert |multiset(a)| == |a| && |multiset(b)| == |b|;
    var x := a[|a| - 1];
    assert x in multiset(b);
    i :| 0 <= i < |b| && b[i] == x;
    MultisetWithout(b, i);
    assert a == a[..|a| - 1] + [x];
    assert multiset(a[..|a| - 1]) == multiset(a) - multiset{x};
  }

  lemma MultisetWithout<T(!new)>(b: seq<T>, i: nat)
    requires i < |b|
    ensures b == b[..i] + [b[i]] + b[i + 1..]
    ensures multiset(b[..i] + b[i + 1..]) == multiset(b) - multiset{b[i]}
  {
    assert b == b[..i] + [b[i]] + b[i + 1..];
  }

  function Mapped<T, U>(f: T -> U, s: seq<T>): seq<U> {
    seq(|s|, i requires 0 <= i < |s| => f(s[i]))
  }

  lemma MappedConcat<T, U>(f: T -> U, a: seq<T>, b: seq<T>)
    ensures Mapped(f, a + b) == Mapped(f, a) + Mapped(f, b)
  {
  }

  lemma {:induction false} MappedPermuted<T(!new), U>(f: T -> U, a: seq<T>, b: seq<T>)
    requires multiset(a) == multiset(b)
    ensures multiset(Mapped(f, a)) == multiset(Mapped(f, b))
    decreases |a|
  {
    if a == [] {
      assert |multiset(b)| == 0;
    } else {
      var n := |a| - 1;
      var i := TakeOut(a, b);
      MappedPermuted(f, a[..n], b[..i] + b[i + 1..]);
      MappedConcat(f, a[..n], [b[i]]);
      MappedConcat(f, b[..i], b[i + 1..]);
      MappedConcat(f, b[..i], [b[i]]);
      MappedConcat(f, b[..i] + [b[i]], b[i + 1..]);
      hide Mapped;
    }
  }

  ghost predicate Descending(a: seq<int>) {
    forall i, j :: 0 <= i < j < |a| ==> a[i] >= a[j]
  }

  lemma LastIsLeast(a: seq<int>, x: int)
    requires Descending(a) && x in a
    ensures a[|a| - 1] <= x
  {
  }

  lemma LeastLast(a: seq<int>, b: seq<int>)
    requires multiset(a) == multiset(b) && a != []
    requires Descending(a) && Descending(b)
    ensures |b| == |a| && a[|a| - 1] == b[|a| - 1] && multiset(a[..|a| - 1]) == multiset(b[..|a| - 1])
  {
    hide Descending;
    assert |multiset(a)| == |a| && |multiset(b)| == |b|;
    var n := |a| - 1;
    assert b[n] in multiset(a) && a[n] in multiset(b);
    LastIsLeast(a, b[n]);
    LastIsLeast(b, a[n]);
    LastOut(a);
    LastOut(b);
  }

  lemma LastOut(a: seq<int>)
    requires a != []
    ensures multiset(a[..|a| - 1]) == multiset(a) - multiset{a[|a| - 1]}
  {
    assert a == a[..|a| - 1] + [a[|a| - 1]];
  }

  /** Numbers in non-increasing order are determined by their multiset. */
  lemma {:induction false} DescendingUnique(a: seq<int>, b: seq<int>)
    requires multiset(a) == multiset(b)
    requires Descending(a) && Descending(b)
    ensures a == b
  {
    if a == [] {
      assert |multiset(b)| == 0;
    } else {
      var n := |a| - 1;
      LeastLast(a, b);
      DescendingUnique(a[..n], b[..n]);
      assert a == a[..n] + [a[n]] && b == b[..n] + [b[n]];
    }
  }

  /** A Go map's key set, collected in iteration order (arbitrary) and then sorted. */
  method SortedKeys(keys: set<string>) returns (r: seq<string>)
    ensures SortedBy(r, StringLe) && NoDuplicates(r) && Elements(r) == keys
  {
    var rest, out := keys, [];
    while rest != {}
      invariant rest !! Elements(out) && rest + Elements(out) == keys && NoDuplicates(out)
      decreases |rest|
    {
      var k :| k in rest;
      assert Elements(out + [k]) == Elements(out) + {k};
      rest, out := rest - {k}, out + [k];
    }
    StringLePreorder();
    r := Sort(out, StringLe);
    PermutationKeeps(out, r);
  }
}
