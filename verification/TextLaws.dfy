/** What the string operations mean, said without their definitions. */
module TextLaws {
  import opened Text

  /** A text contains another exactly when it reads as something before, the other, something after. */
  lemma ContainsMeans(s: string, p: string)
    ensures Contains(s, p) <==> exists a, b :: s == a + p + b
  {
    if Contains(s, p) {
      var i :| 0 <= i <= |s| && OccursAt(s, p, i);
      assert s == s[..i] + p + s[i + |p|..];
    }
    if a, b :| s == a + p + b {
      assert OccursAt(s, p, |a|);
    }
  }

  lemma SuffixMeans(s: string, p: string)
    ensures HasSuffix(s, p) <==> exists a :: s == a + p
  {
    if HasSuffix(s, p) {
      assert s == s[..|s| - |p|] + p;
    }
  }

  lemma PrefixMeans(s: string, p: string)
    ensures HasPrefix(s, p) <==> exists b :: s == p + b
    ensures TrimPrefix(p + s, p) == s
  {
    if HasPrefix(s, p) {
      assert s == p + s[|p|..];
    }
    assert (p + s)[|p|..] == s;
  }

  /** Lowering keeps the length, turns every ASCII capital into its small letter and keeps small letters,
      digits and everything else in ASCII. */
  lemma LowerMeans(s: string, i: nat)
    requires i < |s|
    ensures |ToLower(s)| == |s|
    ensures 'A' <= s[i] <= 'Z' ==> ToLower(s)[i] as int == s[i] as int + 32
    ensures s[i] < 'A' || 'Z' < s[i] < '\U{80}' ==> ToLower(s)[i] == s[i]
  {
  }

  lemma {:induction false} TrimLeftMeans(s: string)
    ensures |TrimLeft(s)| <= |s| && s[|s| - |TrimLeft(s)|..] == TrimLeft(s)
    ensures forall i :: 0 <= i < |s| - |TrimLeft(s)| ==> IsSpace(s[i])
    ensures TrimLeft(s) != "" ==> !IsSpace(TrimLeft(s)[0])
  {
    if s != [] && IsSpace(s[0]) {
      TrimLeftMeans(s[1..]);
      assert forall i :: 1 <= i < |s| ==> s[i] == s[1..][i - 1];
    }
  }

  lemma {:induction false} TrimRightMeans(s: string)
    ensures |TrimRight(s)| <= |s| && s[..|TrimRight(s)|] == TrimRight(s)
    ensures forall i :: |TrimRight(s)| <= i < |s| ==> IsSpace(s[i])
    ensures TrimRight(s) != "" ==> !IsSpace(TrimRight(s)[|TrimRight(s)| - 1])
  {
    if s != [] && IsSpace(s[|s| - 1]) {
      TrimRightMeans(s[..|s| - 1]);
    }
  }

  /** Trimming cuts white space at both ends and nothing else. */
  lemma TrimMeans(s: string) returns (before: string, after: string)
    ensures s == before + TrimSpace(s) + after
    ensures (forall c :: c in before ==> IsSpace(c)) && (forall c :: c in after ==> IsSpace(c))
    ensures TrimSpace(s) != "" ==> !IsSpace(TrimSpace(s)[0]) && !IsSpace(TrimSpace(s)[|TrimSpace(s)| - 1])
  {
    hide IsSpace;
    var t := TrimLeft(s);
    TrimLeftMeans(s);
    TrimRightMeans(t);
    before, after := s[..|s| - |t|], t[|TrimRight(t)|..];
    assert s == before + t && t == TrimRight(t) + after;
  }

  function Glue(parts: seq<string>, sep: char): string {
    if parts == [] then "" else if |parts| == 1 then parts[0] else parts[0] + [sep] + Glue(parts[1..], sep)
  }

  /** Splitting loses nothing: the parts with the separator between them are the text, and only the last of
      as many parts as are allowed may hold a separator. */
  lemma {:induction false} SplitMeans(s: string, sep: char, n: nat)
    requires n > 0
    ensures Glue(SplitN(s, sep, n), sep) == s
    ensures forall i :: 0 <= i < |SplitN(s, sep, n)| && (i + 1 < |SplitN(s, sep, n)| || |SplitN(s, sep, n)| < n) ==>
      sep !in SplitN(s, sep, n)[i]
    decreases n
  {
    var i := IndexAny(s, {sep});
    if n > 1 && i >= 0 {
      var rest := SplitN(s[i + 1..], sep, n - 1);
      SplitMeans(s[i + 1..], sep, n - 1);
      assert s == s[..i] + [sep] + s[i + 1..];
      var parts := [s[..i]] + rest;
      assert SplitN(s, sep, n) == parts && parts[1..] == rest;
    }
  }

  /** A joined list shows its parts in order. */
  lemma {:induction false} JoinAppend(parts: seq<string>, last: string, sep: string)
    requires parts != []
    ensures Join(parts + [last], sep) == Join(parts, sep) + sep + last
  {
    var all := parts + [last];
    assert all[1..] == parts[1..] + [last];
    if |parts| > 1 {
      JoinAppend(parts[1..], last, sep);
    } else {
      assert all[1..] == [last];
    }
  }
}
