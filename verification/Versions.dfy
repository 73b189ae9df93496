/** `compareVersions`, `versionInt` and `versionStatus`. */
module Versions {
  import opened Text
  import opened Technologies

  const MAX_INT: nat := 0x7FFF_FFFF_FFFF_FFFF

  /** `strconv.Atoi` with the error dropped, on text without a sign: 0 for anything that is not a
      number, the largest integer for a number out of range. */
  function Number(s: string): nat {
    if s == [] || !AllDigits(s) then 0
    else if NatValue(s) > MAX_INT then MAX_INT
    else NatValue(s)
  }

  function VersionInt(parts: seq<string>, i: nat): nat {
    if i >= |parts| then 0
    else
      var j := IndexAny(parts[i], {'-', '+'});
      Number(if j >= 0 then parts[i][..j] else parts[i])
  }

  function Bare(v: string): string {
    TrimPrefix(TrimSpace(v), "v")
  }

  function Parts(v: string): seq<string> {
    SplitN(Bare(v), '.', 4)
  }

  /** The four natural numbers a version stands for. */
  function Components(v: string): (k: seq<nat>)
    ensures |k| == 4
  {
    seq(4, i requires 0 <= i < 4 => VersionInt(Parts(v), i))
  }

  /** Lexicographic comparison: -1, 0 or 1. */
  function Lex(a: seq<nat>, b: seq<nat>): int
    requires |a| == |b|
  {
    if a == [] then 0
    else if a[0] < b[0] then -1
    else if a[0] > b[0] then 1
    else Lex(a[1..], b[1..])
  }

  lemma {:induction false} LexFirstDifference(a: seq<nat>, b: seq<nat>, i: nat)
    requires |a| == |b| && i < |a| && a[..i] == b[..i] && a[i] != b[i]
    ensures Lex(a, b) == if a[i] < b[i] then -1 else 1
  {
    if i > 0 {
      assert a[0] == a[..i][0] == b[..i][0] == b[0];
      assert a[1..][..i - 1] == a[..i][1..] == b[..i][1..] == b[1..][..i - 1];
      LexFirstDifference(a[1..], b[1..], i - 1);
    }
  }

  lemma {:induction false} LexEqual(a: seq<nat>)
    ensures Lex(a, a) == 0
  {
    if a != [] {
      LexEqual(a[1..]);
    }
  }

  /** The loop of the source: it stops at the longer list of parts, and equals the comparison of the
      padded four-component keys. */
  method CompareVersions(a: string, b: string) returns (r: int)
    ensures r == Lex(Components(a), Components(b))
  {
    hide VersionInt, Lex, Components, TrimSpace, TrimPrefix, SplitN;
    var a' := TrimPrefix(TrimSpace(a), "v");
    var b' := TrimPrefix(TrimSpace(b), "v");
    if a' == b' {
      SameBare(a, b);
      LexEqual(Components(a));
      return 0;
    }
    var aParts := SplitN(a', '.', 4);
    var bParts := SplitN(b', '.', 4);
    var n := |aParts|;
    if |bParts| > n {
      n := |bParts|;
    }
    for i := 0 to n
      invariant forall j :: 0 <= j < i ==> VersionInt(aParts, j) == VersionInt(bParts, j)
    {
      var ai := VersionInt(aParts, i);
      var bi := VersionInt(bParts, i);
      if ai < bi {
        Decided(a, b, i);
        return -1;
      }
      if ai > bi {
        Decided(a, b, i);
        return 1;
      }
    }
    PaddedEqual(a, b, n);
    LexEqual(Components(a));
    return 0;
  }

  lemma SameBare(a: string, b: string)
    requires Bare(a) == Bare(b)
    ensures Components(a) == Components(b)
  {
    hide VersionInt, SplitN, Bare;
  }

  lemma Decided(a: string, b: string, i: nat)
    requires i < 4 && forall j :: 0 <= j < i ==> VersionInt(Parts(a), j) == VersionInt(Parts(b), j)
    requires VersionInt(Parts(a), i) != VersionInt(Parts(b), i)
    ensures Lex(Components(a), Components(b)) == if VersionInt(Parts(a), i) < VersionInt(Parts(b), i) then -1 else 1
  {
    hide VersionInt, Parts;
    assert Components(a)[..i] == Components(b)[..i];
    LexFirstDifference(Components(a), Components(b), i);
  }

  lemma PaddedEqual(a: string, b: string, n: nat)
    requires |Parts(a)| <= n && |Parts(b)| <= n
    requires forall j :: 0 <= j < n ==> VersionInt(Parts(a), j) == VersionInt(Parts(b), j)
    ensures Components(a) == Components(b)
  {
    forall j | 0 <= j < 4 ensures VersionInt(Parts(a), j) == VersionInt(Parts(b), j) {
    }
  }

  // ---------------------------------------------------------------- a total preorder

  function Compare(a: string, b: string): int {
    Lex(Components(a), Components(b))
  }

  lemma {:induction false} LexFlips(a: seq<nat>, b: seq<nat>)
    requires |a| == |b|
    ensures Lex(a, b) == -Lex(b, a) && Lex(a, b) in {-1, 0, 1}
    ensures Lex(a, b) == 0 <==> a == b
  {
    if a != [] {
      LexFlips(a[1..], b[1..]);
      assert a == [a[0]] + a[1..] && b == [b[0]] + b[1..];
    }
  }

  lemma {:induction false} LexChains(a: seq<nat>, b: seq<nat>, c: seq<nat>)
    requires |a| == |b| == |c| && Lex(a, b) <= 0 && Lex(b, c) <= 0
    ensures Lex(a, c) <= 0
    ensures Lex(a, b) < 0 || Lex(b, c) < 0 ==> Lex(a, c) < 0
  {
    if a != [] && a[0] == b[0] && b[0] == c[0] {
      LexChains(a[1..], b[1..], c[1..]);
    }
  }

  /** The comparison is antisymmetric in sign, total and transitive, and 0 exactly on equal keys. */
  lemma CompareIsPreorder(a: string, b: string, c: string)
    ensures Compare(a, b) == -Compare(b, a)
    ensures Compare(a, b) == 0 <==> Components(a) == Components(b)
    ensures Compare(a, b) <= 0 || Compare(b, a) <= 0
    ensures Compare(a, b) <= 0 && Compare(b, c) <= 0 ==> Compare(a, c) <= 0
  {
    hide Components;
    LexFlips(Components(a), Components(b));
    if Compare(a, b) <= 0 && Compare(b, c) <= 0 {
      LexChains(Components(a), Components(b), Components(c));
    }
  }

  method VersionStatus(detected: string, latest: string) returns (s: Status)
    ensures s == StatusOf(detected, latest)
  {
    if detected == "" || latest == "" {
      return Unspecified;
    }
    var c := CompareVersions(detected, latest);
    if c >= 0 {
      return Current;
    }
    return Outdated;
  }

  function StatusOf(detected: string, latest: string): Status {
    if detected == "" || latest == "" then Unspecified
    else if Compare(detected, latest) >= 0 then Current else Outdated
  }

  /** What the status means: none when either side is empty; outdated exactly when the first component in
      which the two differ is the smaller one; so equal versions are current. */
  lemma StatusMeaning(detected: string, latest: string)
    ensures StatusOf(detected, latest) == Unspecified <==> detected == "" || latest == ""
    ensures StatusOf(detected, latest) == Outdated <==>
      && detected != "" && latest != ""
      && exists i :: 0 <= i < 4 && FirstDiffersAt(Components(detected), Components(latest), i)
           && Components(detected)[i] < Components(latest)[i]
  {
    hide Components;
    var a, b := Components(detected), Components(latest);
    if a == b {
      LexEqual(a);
    } else {
      var i := FirstDifference(a, b);
      LexFirstDifference(a, b, i);
    }
  }

  ghost predicate FirstDiffersAt(a: seq<nat>, b: seq<nat>, i: nat) {
    i < |a| == |b| && a[..i] == b[..i] && a[i] != b[i]
  }

  lemma {:induction false} FirstDifference(a: seq<nat>, b: seq<nat>) returns (i: nat)
    requires |a| == |b| && a != b
    ensures FirstDiffersAt(a, b, i)
  {
    if a[0] != b[0] {
      i := 0;
    } else {
      assert a == [a[0]] + a[1..] && b == [b[0]] + b[1..];
      var j := FirstDifference(a[1..], b[1..]);
      i := j + 1;
      assert a[..i] == [a[0]] + a[1..][..j] && b[..i] == [b[0]] + b[1..][..j];
    }
  }

  /** A version that is outdated against one release stays outdated against any later release, and
      one that is current stays current against any earlier release. */
  lemma StatusIsMonotone(detected: string, latest: string, other: string)
    requires other != "" && latest != ""
    ensures StatusOf(detected, latest) == Outdated && Compare(latest, other) <= 0 ==>
      StatusOf(detected, other) == Outdated
    ensures StatusOf(detected, latest) == Current && Compare(other, latest) <= 0 ==>
      StatusOf(detected, other) == Current
  {
    hide Components;
    if StatusOf(detected, latest) == Outdated && Compare(latest, other) <= 0 {
      LexChains(Components(detected), Components(latest), Components(other));
    }
    if StatusOf(detected, latest) == Current && Compare(other, latest) <= 0 {
      CompareIsPreorder(detected, latest, other);
      CompareIsPreorder(other, latest, detected);
      CompareIsPreorder(detected, other, latest);
    }
  }

  // ---------------------------------------------------------------- plain versions

  /** Reading a printed number gives it back. */
  lemma {:induction false} ItoaRoundTrip(n: nat)
    ensures NatValue(Itoa(n)) == n
  {
    if n >= 10 {
      ItoaRoundTrip(n / 10);
      assert Itoa(n)[..|Itoa(n)| - 1] == Itoa(n / 10);
    } else {
      assert Itoa(n)[..0] == [];
    }
  }

  lemma DigitsOnly(s: string)
    requires AllDigits(s)
    ensures IndexAny(s, SIGNS) < 0 && '.' !in s
  {
    NoSign(s);
  }

  lemma NumberReads(n: nat)
    requires n <= MAX_INT
    ensures VersionInt([Itoa(n)], 0) == n
  {
    ItoaRoundTrip(n);
    DigitsOnly(Itoa(n));
    hide Itoa, NatValue;
  }

  /** A number out of range reads as the largest 64-bit integer. */
  lemma NumberClamps(n: nat)
    requires n >= 0x8000_0000_0000_0000
    ensures VersionInt([Itoa(n)], 0) == 0x7FFF_FFFF_FFFF_FFFF
  {
    ItoaRoundTrip(n);
    DigitsOnly(Itoa(n));
    hide Itoa, NatValue;
  }

  lemma DotAfter(s: string, rest: string, n: nat)
    requires '.' !in s && n > 1
    ensures SplitN(s + "." + rest, '.', n) == [s] + SplitN(rest, '.', n - 1)
  {
    hide SplitN, IndexAny;
    var all := s + "." + rest;
    FirstDot(all, |s|);
    SplitFirst(all, "", '.', n, |s|);
    assert all[..|s|] == s && all[|s| + 1..] == rest;
  }

  /** The components of a plain three-part version are its three numbers and a zero. */
  lemma PlainComponents(a: nat, b: nat, c: nat)
    requires a <= MAX_INT && b <= MAX_INT && c <= MAX_INT
    ensures Components(Itoa(a) + "." + Itoa(b) + "." + Itoa(c)) == [a, b, c, 0]
  {
    hide VersionInt, SplitN, Bare, Itoa;
    var v := Itoa(a) + "." + Itoa(b) + "." + Itoa(c);
    assert v == Itoa(a) + "." + (Itoa(b) + "." + Itoa(c));
    DigitsOnly(Itoa(a));
    DigitsOnly(Itoa(b));
    DigitsOnly(Itoa(c));
    DotAfter(Itoa(a), Itoa(b) + "." + Itoa(c), 4);
    DotAfter(Itoa(b), Itoa(c), 3);
    Whole(Itoa(c), 2);
    assert v[0] == Itoa(a)[0] && v[|v| - 1] == Itoa(c)[|Itoa(c)| - 1];
    BareDigits(v);
    assert Parts(v) == [Itoa(a), Itoa(b), Itoa(c)];
    ThreeNumbers(Parts(v), a, b, c);
  }

  lemma ThreeNumbers(parts: seq<string>, a: nat, b: nat, c: nat)
    requires parts == [Itoa(a), Itoa(b), Itoa(c)] && a <= MAX_INT && b <= MAX_INT && c <= MAX_INT
    ensures VersionInt(parts, 0) == a && VersionInt(parts, 1) == b && VersionInt(parts, 2) == c
    ensures VersionInt(parts, 3) == 0
  {
    hide VersionInt, Itoa;
    NumberReads(a);
    NumberReads(b);
    NumberReads(c);
    PartAlone(parts, 0);
    PartAlone(parts, 1);
    PartAlone(parts, 2);
    Missing(parts, 3);
  }

  // ---------------------------------------------------------------- pre-release and build suffixes

  const SIGNS: set<char> := {'-', '+'}

  lemma {:induction false} IndexAnyConcat(a: string, b: string, cs: set<char>)
    ensures IndexAny(a + b, cs) ==
      if IndexAny(a, cs) >= 0 then IndexAny(a, cs) else if IndexAny(b, cs) >= 0 then |a| + IndexAny(b, cs) else -1
  {
    if a == [] {
      assert a + b == b;
    } else {
      IndexAnyConcat(a[1..], b, cs);
      assert (a + b)[1..] == a[1..] + b;
    }
  }

  /** Splitting what is appended: the last part is continued, further dots give further parts. */
  lemma {:induction false} SplitAppended(a: string, b: string, sep: char, n: nat)
    requires n > 0
    ensures var p := SplitN(a, sep, n);
      var t := SplitN(b, sep, n - |p| + 1);
      SplitN(a + b, sep, n) == p[..|p| - 1] + [p[|p| - 1] + t[0]] + t[1..]
    decreases n
  {
    hide SplitN, IndexAny;
    var i := IndexAny(a, {sep});
    if n == 1 || i < 0 {
      SplitAfterLast(a, b, sep, n);
    } else {
      SplitAppended(a[i + 1..], b, sep, n - 1);
      SplitFirst(a, b, sep, n, i);
      var q := SplitN(a[i + 1..], sep, n - 1);
      ContinueLast(a[..i], q, SplitN(b, sep, n - |q|));
    }
  }

  lemma ContinueLast(x: string, q: seq<string>, t: seq<string>)
    requires q != [] && t != []
    ensures var p := [x] + q;
      [x] + (q[..|q| - 1] + [q[|q| - 1] + t[0]] + t[1..]) == p[..|p| - 1] + [p[|p| - 1] + t[0]] + t[1..]
  {
    var p := [x] + q;
    assert p[..|p| - 1] == [x] + q[..|q| - 1];
  }

  lemma SplitWhole(s: string, sep: char, n: nat)
    requires n == 1 || (n > 1 && IndexAny(s, {sep}) < 0)
    ensures SplitN(s, sep, n) == [s]
  {
  }

  lemma SplitAt(s: string, sep: char, n: nat, i: nat)
    requires n > 1 && IndexAny(s, {sep}) == i
    ensures SplitN(s, sep, n) == [s[..i]] + SplitN(s[i + 1..], sep, n - 1)
  {
    hide IndexAny;
  }

  lemma SplitAfterLast(a: string, b: string, sep: char, n: nat)
    requires n > 0 && (n == 1 || IndexAny(a, {sep}) < 0)
    ensures SplitN(a, sep, n) == [a] && SplitN(a + b, sep, n) == [a + SplitN(b, sep, n)[0]] + SplitN(b, sep, n)[1..]
  {
    hide SplitN, IndexAny;
    IndexAnyConcat(a, b, {sep});
    SplitWhole(a, sep, n);
    var j := IndexAny(b, {sep});
    if n > 1 && j >= 0 {
      SplitAt(b, sep, n, j);
      SplitAt(a + b, sep, n, |a| + j);
      assert (a + b)[..|a| + j] == a + b[..j] && (a + b)[|a| + j + 1..] == b[j + 1..];
    } else {
      SplitWhole(b, sep, n);
      SplitWhole(a + b, sep, n);
    }
  }

  lemma SplitFirst(a: string, b: string, sep: char, n: nat, i: nat)
    requires n > 1 && IndexAny(a, {sep}) == i
    ensures SplitN(a, sep, n) == [a[..i]] + SplitN(a[i + 1..], sep, n - 1)
    ensures SplitN(a + b, sep, n) == [a[..i]] + SplitN(a[i + 1..] + b, sep, n - 1)
  {
    hide SplitN, IndexAny;
    IndexAnyConcat(a, b, {sep});
    SplitAt(a, sep, n, i);
    SplitAt(a + b, sep, n, i);
    assert (a + b)[..i] == a[..i] && (a + b)[i + 1..] == a[i + 1..] + b;
  }

  /** Parts hold no character that the whole does not hold. */
  lemma {:induction false} PartsOfClean(a: string, sep: char, n: nat, i: nat)
    requires n > 0 && IndexAny(a, SIGNS) < 0 && i < |SplitN(a, sep, n)|
    ensures IndexAny(SplitN(a, sep, n)[i], SIGNS) < 0
    decreases n
  {
    hide SplitN, IndexAny;
    var k := IndexAny(a, {sep});
    if n > 1 && k >= 0 {
      SplitAt(a, sep, n, k);
      NoSign(a[..k]);
      NoSign(a[k + 1..]);
      if i > 0 {
        PartsOfClean(a[k + 1..], sep, n - 1, i - 1);
      }
    } else {
      SplitWhole(a, sep, n);
    }
  }

  lemma NoSign(a: string)
    ensures (forall j :: 0 <= j < |a| ==> a[j] !in SIGNS) ==> IndexAny(a, SIGNS) < 0
  {
  }

  lemma CutAtSign(a: string, b: string)
    requires IndexAny(a, SIGNS) < 0 && b != "" && b[0] in SIGNS
    ensures VersionInt([a + b], 0) == Number(a) == VersionInt([a], 0)
  {
    IndexAnyConcat(a, b, SIGNS);
    assert IndexAny(b, SIGNS) == 0;
    assert (a + b)[..|a|] == a;
  }

  lemma PartAlone(parts: seq<string>, i: nat)
    requires i < |parts|
    ensures VersionInt(parts, i) == VersionInt([parts[i]], 0)
  {
  }

  /** The components that the dots of a suffix add. */
  ghost predicate AddsNothing(core: string, suffix: string) {
    var t := SplitN(suffix, '.', 5 - |SplitN(core, '.', 4)|);
    forall i :: 1 <= i < |t| ==> VersionInt(t, i) == 0
  }

  /** How the components of a version with a suffix follow from its core and its suffix. */
  lemma SuffixedInts(core: string, suffix: string, i: nat)
    requires IndexAny(core, SIGNS) < 0 && suffix != "" && suffix[0] in SIGNS && i < 4
    ensures var p, q := SplitN(core, '.', 4), SplitN(core + suffix, '.', 4);
      var t := SplitN(suffix, '.', 5 - |p|);
      VersionInt(q, i) == if i < |p| then VersionInt(p, i) else VersionInt(t, i - |p| + 1)
  {
    hide VersionInt, SplitN, IndexAny, Number;
    SplitAppended(core, suffix, '.', 4);
    var p, q := SplitN(core, '.', 4), SplitN(core + suffix, '.', 4);
    var t := SplitN(suffix, '.', 5 - |p|);
    if i < |q| {
      PartAlone(q, i);
      if i < |p| {
        PartAlone(p, i);
      }
      if i == |p| - 1 {
        PartsOfClean(core, '.', 4, i);
        FirstPartSigned(suffix, 5 - |p|);
        CutAtSign(p[i], t[0]);
      } else if i >= |p| {
        PartAlone(t, i - |p| + 1);
      }
    } else {
      Missing(q, i);
      Missing(t, i - |p| + 1);
    }
  }

  lemma Missing(parts: seq<string>, i: nat)
    requires i >= |parts|
    ensures VersionInt(parts, i) == 0
  {
  }

  lemma FirstPartSigned(suffix: string, n: nat)
    requires n > 0 && suffix != "" && suffix[0] in SIGNS
    ensures SplitN(suffix, '.', n)[0] != "" && SplitN(suffix, '.', n)[0][0] in SIGNS
  {
    assert suffix[0] != '.';
  }

  /** When a pre-release or build suffix is stripped, as the source says: `v` compares equal to the version
      without its suffix if and only if what follows the dots inside the suffix counts as zero. */
  lemma SuffixIgnoredIff(v: string, w: string, core: string, suffix: string)
    requires Bare(v) == core + suffix && Bare(w) == core
    requires IndexAny(core, SIGNS) < 0 && suffix != "" && suffix[0] in SIGNS
    ensures Compare(v, w) == 0 <==> AddsNothing(core, suffix)
  {
    hide Bare, VersionInt, SplitN, Lex;
    CompareIsPreorder(v, w, w);
    var p, q := Parts(w), Parts(v);
    var t := SplitN(suffix, '.', 5 - |p|);
    forall i | 0 <= i < 4 ensures VersionInt(q, i) == if i < |p| then VersionInt(p, i) else VersionInt(t, i - |p| + 1) {
      SuffixedInts(core, suffix, i);
    }
    forall i | |p| <= i < 4 ensures VersionInt(p, i) == 0 { Missing(p, i); }
    if Components(v) == Components(w) {
      forall i | 1 <= i < |t| ensures VersionInt(t, i) == 0 {
        assert Components(v)[|p| + i - 1] == Components(w)[|p| + i - 1];
      }
    } else {
      var i :| 0 <= i < 4 && Components(v)[i] != Components(w)[i];
      assert i >= |p| && VersionInt(t, i - |p| + 1) != 0;
      if i - |p| + 1 >= |t| {
        Missing(t, i - |p| + 1);
      }
    }
  }

  /** In particular a suffix without a dot is always stripped. */
  lemma PlainSuffixIgnored(v: string, w: string, core: string, suffix: string)
    requires Bare(v) == core + suffix && Bare(w) == core
    requires IndexAny(core, SIGNS) < 0 && suffix != "" && suffix[0] in SIGNS && '.' !in suffix
    ensures Compare(v, w) == 0
  {
    hide Bare, VersionInt, SplitN;
    SuffixIgnoredIff(v, w, core, suffix);
    Whole(suffix, 5 - |SplitN(core, '.', 4)|);
  }

  /** The suffix that the source names as an example is not: it adds a fourth component. */
  lemma BuildSuffixCounts()
    ensures Compare("1.0.0+build.1", "1.0.0") != 0
  {
    hide Bare, SplitN, VersionInt, IndexAny, Compare;
    var core, suffix := "1.0.0", "+build.1";
    BareExamples();
    ThreeParts();
    TwoParts();
    OneIsOne();
    SuffixIgnoredIff("1.0.0+build.1", "1.0.0", core, suffix);
  }

  lemma BareExamples()
    ensures Bare("1.0.0+build.1") == "1.0.0" + "+build.1" && Bare("1.0.0") == "1.0.0"
    ensures IndexAny("1.0.0", SIGNS) < 0
  {
    hide Bare;
    NoSign("1.0.0");
    BareDigits("1.0.0");
    BareDigits("1.0.0+build.1");
    assert "1.0.0" + "+build.1" == "1.0.0+build.1";
  }

  lemma BareDigits(v: string)
    requires v != "" && IsDigit(v[0]) && IsDigit(v[|v| - 1])
    ensures Bare(v) == v
  {
  }

  lemma OneIsOne()
    ensures VersionInt(["+build", "1"], 1) == 1
  {
    assert "1"[..0] == "";
    assert NatValue("1") == 1;
    assert IndexAny("1", SIGNS) < 0;
  }

  /** The first dot of a text. */
  lemma {:induction false} FirstDot(s: string, i: nat)
    requires i < |s| && s[i] == '.' && forall j :: 0 <= j < i ==> s[j] != '.'
    ensures IndexAny(s, {'.'}) == i
  {
    if i > 0 {
      FirstDot(s[1..], i - 1);
    }
  }

  lemma ThreeParts()
    ensures SplitN("1.0.0", '.', 4) == ["1", "0", "0"]
  {
    hide SplitN, IndexAny;
    FirstDot("1.0.0", 1);
    FirstDot("0.0", 1);
    SplitFirst("1.0.0", "", '.', 4, 1);
    SplitFirst("0.0", "", '.', 3, 1);
    assert "1.0.0"[..1] == "1" && "1.0.0"[2..] == "0.0" && "0.0"[..1] == "0" && "0.0"[2..] == "0";
    Whole("0", 2);
  }

  lemma Whole(s: string, n: nat)
    requires n > 0 && '.' !in s
    ensures SplitN(s, '.', n) == [s]
  {
    assert IndexAny(s, {'.'}) < 0;
  }

  lemma TwoParts()
    ensures SplitN("+build.1", '.', 2) == ["+build", "1"]
  {
    hide SplitN, IndexAny;
    var s := "+build.1";
    FirstDot(s, 6);
    SplitFirst(s, "", '.', 2, 6);
    assert s[..6] == "+build" && s[7..] == "1";
    Whole("1", 1);
  }
}
