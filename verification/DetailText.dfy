/** The prose details that the scorer prints and the roadmap parses back. */
module DetailText {
  import opened Text
  import opened Scorer
  import opened Distiller
  import opened Wrappers

  /** `parseHubModule`. */
  function ParseHubModule(detail: string): string {
    var i := Index(detail, FAN_IN_MARK);
    if i > 0 then detail[..i] else detail
  }

  /** `strings.Fields`: the maximal runs of non-space characters. */
  function Fields(s: string): seq<string>
    decreases |s|
  {
    if s == "" then []
    else if IsSpace(s[0]) then Fields(s[1..])
    else
      var n := WordLength(s);
      [s[..n]] + Fields(s[n..])
  }

  function WordLength(s: string): (n: nat)
    ensures n <= |s|
    ensures s != "" && !IsSpace(s[0]) ==> n > 0
    ensures forall i :: 0 <= i < n ==> !IsSpace(s[i])
    ensures n < |s| ==> IsSpace(s[n])
  {
    if s == "" || IsSpace(s[0]) then 0 else 1 + WordLength(s[1..])
  }

  /** `parseGodModules`. */
  function ParseGodModules(detail: string): seq<string> {
    var start := Index(detail, "[");
    var end := Index(detail, "]");
    if start >= 0 && end > start + 1 then Fields(detail[start + 1..end]) else []
  }

  /** How the hub detail begins, which is read back. */
  lemma HubDetailBegins(d: Digest)
    requires d.hubs != []
    ensures HasPrefix(HubDetail(d), d.hubs[0].name + " fan-in=" + Itoa(d.hubs[0].fanIn))
  {
    hide HubTail, Itoa, HubRatio, HasPrefix;
    var f, r := d.hubs[0].fanIn, HubRatio(d.hubs[0].fanIn, |d.nodes|);
    TailBegins(f, r);
    Longer(d.hubs[0].name + FAN_IN_MARK, Itoa(f), HubTail(f, r));
  }

  /** How the god-module detail begins. */
  lemma GodDetailBegins(gods: seq<string>)
    requires gods != []
    ensures HasPrefix(GodDetail(gods), Itoa(|gods|) + " god-module(s): " + "[" + Spaced(gods) + "]")
  {
    hide Itoa, Spaced, GodTail;
  }

  lemma TailBegins(fanIn: nat, ratio: Option<real>)
    ensures HasPrefix(HubTail(fanIn, ratio), Itoa(fanIn))
  {
    hide Itoa;
  }

  lemma Longer(a: string, b: string, s: string)
    requires HasPrefix(s, b)
    ensures HasPrefix(a + s, a + b)
  {
  }

  // ---------------------------------------------------------------- hubs

  /** The mark cannot overlap its own beginning, so appending it to a text without it creates exactly
      one first occurrence. */
  lemma MarkFirst(m: string, tail: string)
    requires !Contains(m, FAN_IN_MARK)
    ensures Index(m + FAN_IN_MARK + tail, FAN_IN_MARK) == |m|
  {
    var s := m + FAN_IN_MARK + tail;
    assert s[|m|..|m| + |FAN_IN_MARK|] == FAN_IN_MARK;
    assert OccursAt(s, FAN_IN_MARK, |m|);
    forall j | 0 <= j < |m| ensures !OccursAt(s, FAN_IN_MARK, j) {
      NoEarlierMark(m, tail, j);
    }
  }

  lemma NoEarlierMark(m: string, tail: string, j: nat)
    requires !Contains(m, FAN_IN_MARK) && j < |m|
    ensures !OccursAt(m + FAN_IN_MARK + tail, FAN_IN_MARK, j)
  {
    var s := m + FAN_IN_MARK + tail;
    var n := |FAN_IN_MARK|;
    if j + n <= |m| {
      assert s[j..j + n] == m[j..j + n];
      assert !OccursAt(m, FAN_IN_MARK, j);
    } else {
      var k := |m| - j;
      assert s[j..j + n][k] == s[|m|] == ' ';
      assert FAN_IN_MARK[k] != ' ';
    }
  }

  /** The hub detail parses back to the hub's module exactly for names that are not empty and do not
      contain the mark. */
  lemma HubRoundTripIff(m: string, tail: string)
    ensures ParseHubModule(m + FAN_IN_MARK + tail) == m <==> m != "" && !Contains(m, FAN_IN_MARK)
  {
    var s := m + FAN_IN_MARK + tail;
    if !Contains(m, FAN_IN_MARK) {
      MarkFirst(m, tail);
      assert s[..|m|] == m;
    } else {
      var j :| 0 <= j <= |m| && OccursAt(m, FAN_IN_MARK, j);
      assert s[j..j + |FAN_IN_MARK|] == m[j..j + |FAN_IN_MARK|];
      assert OccursAt(s, FAN_IN_MARK, j);
      assert Index(s, FAN_IN_MARK) <= j < |m|;
    }
  }

  /** The scorer's own hub detail, read by the roadmap. */
  lemma ScoredHubParses(d: Digest)
    requires d.hubs != [] && d.hubs[0].name != "" && !Contains(d.hubs[0].name, FAN_IN_MARK)
    ensures ParseHubModule(HubDetail(d)) == d.hubs[0].name
  {
    HubRoundTripIff(d.hubs[0].name, HubTail(d.hubs[0].fanIn, HubRatio(d.hubs[0].fanIn, |d.nodes|)));
  }

  // ---------------------------------------------------------------- god-modules

  /** A name that survives printing and parsing. */
  ghost predicate Clean(m: string) {
    m != "" && ']' !in m && forall i :: 0 <= i < |m| ==> !IsSpace(m[i])
  }

  lemma CharIndex(s: string, c: char, i: nat)
    requires i < |s| && s[i] == c && forall j :: 0 <= j < i ==> s[j] != c
    ensures Index(s, [c]) == i
  {
    assert s[i..i + 1] == [c];
    assert OccursAt(s, [c], i);
    forall j | 0 <= j < i ensures !OccursAt(s, [c], j) {
      assert s[j..j + 1][0] == s[j];
    }
  }

  lemma {:induction false} FieldsOfSpaced(names: seq<string>)
    requires forall i :: 0 <= i < |names| ==> Clean(names[i])
    ensures Fields(Spaced(names)) == names
  {
    if |names| == 1 {
      OneField(names[0], "");
      assert names[0] + "" == names[0];
      assert Fields("") == [];
    } else if |names| > 1 {
      FieldsOfSpaced(names[1..]);
      var rest := Spaced(names[1..]);
      OneField(names[0], " " + rest);
      assert names[0] + " " + rest == names[0] + (" " + rest);
      assert (" " + rest)[1..] == rest;
      assert IsSpace((" " + rest)[0]);
      assert Fields(" " + rest) == Fields(rest);
    }
  }

  lemma OneField(m: string, tail: string)
    requires Clean(m) && (tail == "" || IsSpace(tail[0]))
    ensures Fields(m + tail) == [m] + Fields(tail)
  {
    var s := m + tail;
    assert s[0] == m[0];
    WordIs(s, |m|);
    assert s[..|m|] == m && s[|m|..] == tail;
  }

  lemma {:induction false} WordIs(s: string, n: nat)
    requires n <= |s| && (forall i :: 0 <= i < n ==> !IsSpace(s[i])) && (n < |s| ==> IsSpace(s[n]))
    ensures WordLength(s) == n
  {
    if n > 0 {
      WordIs(s[1..], n - 1);
    }
  }

  /** Fields are non-empty, free of white space, and made of characters of the text. */
  lemma {:induction false} FieldsClean(s: string)
    requires ']' !in s
    ensures forall i :: 0 <= i < |Fields(s)| ==> Clean(Fields(s)[i])
    decreases |s|
  {
    if s != "" {
      if IsSpace(s[0]) {
        FieldsClean(s[1..]);
      } else {
        FieldsClean(s[WordLength(s)..]);
      }
    }
  }

  lemma PrefixPlain(n: nat)
    ensures forall i :: 0 <= i < |GodPrefix(n)| ==> GodPrefix(n)[i] != '[' && GodPrefix(n)[i] != ']'
  {
    var a := Itoa(n);
    assert forall i :: 0 <= i < |a| ==> IsDigit(a[i]);
    hide Itoa;
  }

  /** Parsing a printed list: what lies between the first opening and the first closing bracket. */
  lemma BracketsFound(prefix: string, body: string, tail: string)
    requires forall i :: 0 <= i < |prefix| ==> prefix[i] != '[' && prefix[i] != ']'
    requires ']' !in body && body != ""
    ensures ParseGodModules(prefix + "[" + body + "]" + tail) == Fields(body)
  {
    hide Fields, Index;
    OpeningFound(prefix, body, tail);
    ClosingFound(prefix, body, tail);
    var s := prefix + "[" + body + "]" + tail;
    assert s[|prefix| + 1..|prefix| + 1 + |body|] == body;
  }

  lemma OpeningFound(prefix: string, body: string, tail: string)
    requires forall i :: 0 <= i < |prefix| ==> prefix[i] != '['
    ensures Index(prefix + "[" + body + "]" + tail, "[") == |prefix|
  {
    CharIndex(prefix + "[" + body + "]" + tail, '[', |prefix|);
  }

  lemma ClosingFound(prefix: string, body: string, tail: string)
    requires (forall i :: 0 <= i < |prefix| ==> prefix[i] != ']') && ']' !in body
    ensures Index(prefix + "[" + body + "]" + tail, "]") == |prefix| + 1 + |body|
  {
    var s := prefix + "[" + body + "]" + tail;
    var p := |prefix|;
    forall j | 0 <= j < p + 1 + |body| ensures s[j] != ']' {
      if j > p {
        assert s[j] == body[j - p - 1];
      }
    }
    CharIndex(s, ']', p + 1 + |body|);
  }

  /** Whatever is parsed consists of clean names. */
  lemma ParsedIsClean(detail: string)
    ensures forall i :: 0 <= i < |ParseGodModules(detail)| ==> Clean(ParseGodModules(detail)[i])
  {
    var start := Index(detail, "[");
    var end := Index(detail, "]");
    if start >= 0 && end > start + 1 {
      var body := detail[start + 1..end];
      forall i | 0 <= i < |body| ensures body[i] != ']' {
        assert !OccursAt(detail, "]", start + 1 + i);
        assert detail[start + 1 + i..start + 2 + i] == [detail[start + 1 + i]];
      }
      FieldsClean(body);
    }
  }

  lemma {:induction false} SpacedKeepsOutBracket(names: seq<string>)
    requires forall i :: 0 <= i < |names| ==> Clean(names[i])
    ensures ']' !in Spaced(names) && (names != [] ==> Spaced(names) != "")
  {
    if |names| > 1 {
      SpacedKeepsOutBracket(names[1..]);
    }
  }

  /** The god-module detail parses back to the listed modules exactly when every name is non-empty,
      without white space and without a closing bracket. */
  lemma GodRoundTripIff(gods: seq<string>)
    requires gods != []
    ensures ParseGodModules(GodDetail(gods)) == gods <==> forall i :: 0 <= i < |gods| ==> Clean(gods[i])
  {
    hide Fields, Itoa, Clean;
    ParsedIsClean(GodDetail(gods));
    if forall i :: 0 <= i < |gods| ==> Clean(gods[i]) {
      SpacedKeepsOutBracket(gods);
      PrefixPlain(|gods|);
      BracketsFound(GodPrefix(|gods|), Spaced(gods), GodTail());
      FieldsOfSpaced(gods);
    }
  }
}
