/** `detectPathConflicts`: the gate in front of a push, and what it guarantees about the tree that
    the push writes. */
module PathConflicts {
  import opened Ordering
  import opened Text

  datatype File = File(path: string, content: string, service: string)

  /** The first content seen for a path and the services whose content is listed against it. */
  datatype Entry = Entry(content: string, services: seq<string>)

  /** Every path has one content. */
  predicate SingleContent(files: seq<File>) {
    forall i, j | 0 <= i < |files| && 0 <= j < |files| :: files[i].path == files[j].path ==>
      files[i].content == files[j].content
  }

  function Record(byPath: map<string, Entry>, f: File): map<string, Entry> {
    if f.path !in byPath then byPath[f.path := Entry(f.content, [f.service])]
    else
      var e := byPath[f.path];
      if f.content != e.content then byPath[f.path := e.(services := e.services + [f.service])] else byPath
  }

  function Collected(files: seq<File>): map<string, Entry> {
    if files == [] then map[] else Record(Collected(files[..|files| - 1]), files[|files| - 1])
  }

  /** An entry holds a content seen for its path, and lists a second service exactly when some file
      disagrees with that content. */
  ghost predicate EntryFaithful(files: seq<File>, p: string, e: Entry) {
    && (exists i :: 0 <= i < |files| && files[i].path == p && files[i].content == e.content)
    && |e.services| >= 1
    && (|e.services| > 1 <==> exists i :: 0 <= i < |files| && files[i].path == p && files[i].content != e.content)
  }

  ghost predicate EntriesFaithful(files: seq<File>, byPath: map<string, Entry>) {
    && (forall i :: 0 <= i < |files| ==> files[i].path in byPath)
    && (forall p :: p in byPath ==> EntryFaithful(files, p, byPath[p]))
  }

  lemma {:induction false} CollectedFaithful(files: seq<File>)
    ensures EntriesFaithful(files, Collected(files))
  {
    if files != [] {
      var n := |files| - 1;
      CollectedFaithful(files[..n]);
      RecordFaithful(files[..n], Collected(files[..n]), files[n]);
      assert files == files[..n] + [files[n]];
    }
  }

  lemma EntryGrows(files: seq<File>, f: File, p: string, e: Entry)
    requires EntryFaithful(files, p, e)
    requires p != f.path || f.content == e.content
    ensures EntryFaithful(files + [f], p, e)
  {
    var all := files + [f];
    assert forall i :: 0 <= i < |files| ==> all[i] == files[i];
    var i :| 0 <= i < |files| && files[i].path == p && files[i].content == e.content;
    assert all[i] == files[i];
    if k :| 0 <= k < |files| && files[k].path == p && files[k].content != e.content {
      assert all[k] == files[k];
    }
  }

  lemma RecordFaithful(files: seq<File>, byPath: map<string, Entry>, f: File)
    requires EntriesFaithful(files, byPath)
    ensures EntriesFaithful(files + [f], Record(byPath, f))
  {
    var all := files + [f];
    var r := Record(byPath, f);
    assert all[|files|] == f && forall i :: 0 <= i < |files| ==> all[i] == files[i];
    forall p | p in r ensures EntryFaithful(all, p, r[p]) {
      if p in byPath && (p != f.path || f.content == byPath[p].content) {
        assert EntryFaithful(files, p, byPath[p]);
        EntryGrows(files, f, p, byPath[p]);
      } else if p in byPath {
        assert EntryFaithful(files, p, byPath[p]);
        var i :| 0 <= i < |files| && files[i].path == p && files[i].content == byPath[p].content;
        assert all[i] == files[i];
      }
    }
  }

  /** One line of the conflict report: the path and the sorted services. */
  ghost predicate Describes(line: string, p: string, services: seq<string>) {
    exists sorted :: SortedBy(sorted, StringLe) && multiset(sorted) == multiset(services) &&
      line == p + " (services: " + Join(sorted, ", ") + ")"
  }

  method CollectEntries(files: seq<File>) returns (byPath: map<string, Entry>)
    ensures byPath == Collected(files)
  {
    byPath := map[];
    for i := 0 to |files|
      invariant byPath == Collected(files[..i])
    {
      var f := files[i];
      assert files[..i + 1][..i] == files[..i];
      if f.path !in byPath {
        byPath := byPath[f.path := Entry(f.content, [f.service])];
      } else {
        var e := byPath[f.path];
        if f.content != e.content {
          byPath := byPath[f.path := e.(services := e.services + [f.service])];
        }
      }
    }
    assert files[..|files|] == files;
  }

  /** The paths among `paths` with more than one content. */
  ghost function Conflicting(byPath: map<string, Entry>, paths: set<string>): set<string> {
    set p | p in paths && p in byPath && |byPath[p].services| > 1
  }

  /** The line is that of some conflicting path among `paths`. */
  ghost predicate TrueLine(byPath: map<string, Entry>, paths: set<string>, line: string) {
    exists p :: p in byPath && p in paths && |byPath[p].services| > 1 && Describes(line, p, byPath[p].services)
  }

  ghost predicate HasLine(lines: seq<string>, p: string, services: seq<string>) {
    exists line :: line in lines && Describes(line, p, services)
  }

  /** Every line describes a conflicting path among `paths`, and every such path has a line. */
  ghost predicate LinesCover(byPath: map<string, Entry>, paths: set<string>, lines: seq<string>) {
    && (forall line :: line in lines ==> TrueLine(byPath, paths, line))
    && (forall p :: p in byPath && p in paths && |byPath[p].services| > 1 ==> HasLine(lines, p, byPath[p].services))
  }

  /** `lines` has one line for each conflicting path among `paths` and no other line. */
  ghost predicate LinesExact(byPath: map<string, Entry>, paths: set<string>, lines: seq<string>) {
    |lines| == |Conflicting(byPath, paths)| && LinesCover(byPath, paths, lines)
  }

  /** The list of conflict lines; the push is refused unless it is empty. The lines are sorted, and
      there is one for each path with more than one content and for no other. */
  method DetectPathConflicts(files: seq<File>) returns (conflicts: seq<string>)
    ensures conflicts == [] <==> SingleContent(files)
    ensures SortedBy(conflicts, StringLe)
    ensures LinesExact(Collected(files), Collected(files).Keys, conflicts)
  {
    hide LinesExact, Collected, SingleContent, StringLe;
    var byPath := CollectEntries(files);
    var lines := ConflictLines(byPath);
    StringLePreorder();
    conflicts := Sort(lines, StringLe);
    LinesPermuted(byPath, byPath.Keys, lines, conflicts);
    NoConflictIffSingle(files);
    NoLinesIff(byPath, conflicts);
  }

  lemma LinesPermuted(byPath: map<string, Entry>, paths: set<string>, lines: seq<string>, other: seq<string>)
    requires LinesExact(byPath, paths, lines) && multiset(lines) == multiset(other)
    ensures LinesExact(byPath, paths, other)
  {
    hide Describes;
    PermutationKeeps(lines, other);
  }

  lemma NoLinesIff(byPath: map<string, Entry>, lines: seq<string>)
    requires LinesExact(byPath, byPath.Keys, lines)
    ensures lines == [] <==> forall p :: p in byPath ==> |byPath[p].services| <= 1
  {
    hide Describes;
    assert |lines| == 0 <==> Conflicting(byPath, byPath.Keys) == {};
  }

  method ConflictLines(byPath: map<string, Entry>) returns (lines: seq<string>)
    ensures LinesExact(byPath, byPath.Keys, lines)
  {
    lines := [];
    var rest := byPath.Keys;
    LinesNone(byPath);
    hide LinesExact, StringLe, Describes;
    assert byPath.Keys - rest == {};
    while rest != {}
      invariant rest <= byPath.Keys
      invariant LinesExact(byPath, byPath.Keys - rest, lines)
      decreases |rest|
    {
      var p :| p in rest;
      ghost var before := lines;
      if |byPath[p].services| > 1 {
        StringLePreorder();
        var sorted := Sort(byPath[p].services, StringLe);
        var line := p + " (services: " + Join(sorted, ", ") + ")";
        lines := lines + [line];
        LineDescribes(line, p, sorted, byPath[p].services);
        LinesAdd(byPath, byPath.Keys - rest, before, p, line);
      } else {
        LinesSkip(byPath, byPath.Keys - rest, before, p);
      }
      assert byPath.Keys - (rest - {p}) == byPath.Keys - rest + {p};
      rest := rest - {p};
    }
    assert byPath.Keys - {} == byPath.Keys;
  }

  lemma LinesNone(byPath: map<string, Entry>)
    ensures LinesExact(byPath, {}, [])
  {
  }

  lemma LineDescribes(line: string, p: string, sorted: seq<string>, services: seq<string>)
    requires SortedBy(sorted, StringLe) && multiset(sorted) == multiset(services)
    requires line == p + " (services: " + Join(sorted, ", ") + ")"
    ensures Describes(line, p, services)
  {
  }

  lemma ConflictingAdd(byPath: map<string, Entry>, paths: set<string>, p: string)
    requires p in byPath && p !in paths
    ensures Conflicting(byPath, paths + {p}) == Conflicting(byPath, paths) +
      if |byPath[p].services| > 1 then {p} else {}
    ensures p !in Conflicting(byPath, paths)
  {
  }

  lemma LinesAdd(byPath: map<string, Entry>, paths: set<string>, lines: seq<string>, p: string, line: string)
    requires LinesExact(byPath, paths, lines) && p in byPath && p !in paths && |byPath[p].services| > 1
    requires Describes(line, p, byPath[p].services)
    ensures LinesExact(byPath, paths + {p}, lines + [line])
  {
    hide Conflicting, LinesCover;
    ConflictingAdd(byPath, paths, p);
    CoverAdd(byPath, paths, lines, p, line);
  }

  lemma CoverAdd(byPath: map<string, Entry>, paths: set<string>, lines: seq<string>, p: string, line: string)
    requires LinesCover(byPath, paths, lines) && p in byPath && |byPath[p].services| > 1 &&
      Describes(line, p, byPath[p].services)
    ensures LinesCover(byPath, paths + {p}, lines + [line])
  {
    hide TrueLine, HasLine, Describes;
    forall l | l in lines + [line] ensures TrueLine(byPath, paths + {p}, l) {
      if l in lines {
        TrueLineGrows(byPath, paths, p, l);
      } else {
        ThisLineTrue(byPath, paths + {p}, p, line);
      }
    }
    forall q | q in byPath && q in paths + {p} && |byPath[q].services| > 1
      ensures HasLine(lines + [line], q, byPath[q].services)
    {
      if q in paths {
        HasLineGrows(lines, line, q, byPath[q].services);
      } else {
        ThisLineThere(lines, line, q, byPath[q].services);
      }
    }
  }

  lemma TrueLineGrows(byPath: map<string, Entry>, paths: set<string>, p: string, line: string)
    requires TrueLine(byPath, paths, line)
    ensures TrueLine(byPath, paths + {p}, line)
  {
    hide Describes;
  }

  lemma ThisLineTrue(byPath: map<string, Entry>, paths: set<string>, p: string, line: string)
    requires p in byPath && p in paths && |byPath[p].services| > 1 && Describes(line, p, byPath[p].services)
    ensures TrueLine(byPath, paths, line)
  {
    hide Describes;
  }

  lemma HasLineGrows(lines: seq<string>, line: string, p: string, services: seq<string>)
    requires HasLine(lines, p, services)
    ensures HasLine(lines + [line], p, services)
  {
    hide Describes;
    var l :| l in lines && Describes(l, p, services);
    assert l in lines + [line];
  }

  lemma ThisLineThere(lines: seq<string>, line: string, p: string, services: seq<string>)
    requires Describes(line, p, services)
    ensures HasLine(lines + [line], p, services)
  {
    hide Describes;
    assert line in lines + [line];
  }

  lemma LinesSkip(byPath: map<string, Entry>, paths: set<string>, lines: seq<string>, p: string)
    requires LinesExact(byPath, paths, lines) && p in byPath && p !in paths && |byPath[p].services| <= 1
    ensures LinesExact(byPath, paths + {p}, lines)
  {
    hide Describes, Conflicting;
    ConflictingAdd(byPath, paths, p);
  }

  lemma NoConflictIffSingle(files: seq<File>)
    ensures (forall p :: p in Collected(files) ==> |Collected(files)[p].services| <= 1) <==> SingleContent(files)
  {
    CollectedFaithful(files);
    hide Collected;
    var byPath := Collected(files);
    if forall p :: p in byPath ==> |byPath[p].services| <= 1 {
      forall i | 0 <= i < |files| ensures files[i].content == byPath[files[i].path].content {
        assert files[i].path in byPath;
      }
    }
    if SingleContent(files) {
      forall p | p in byPath ensures |byPath[p].services| <= 1 {
        var i :| 0 <= i < |files| && files[i].path == p && files[i].content == byPath[p].content;
      }
    }
  }

  // ---------------------------------------------------------------- the pushed tree

  type Tree = map<string, string>

  /** Writing files one after the other: the last write to a path wins. */
  function WriteAll(tree: Tree, files: seq<File>): Tree {
    if files == [] then tree
    else WriteAll(tree, files[..|files| - 1])[files[|files| - 1].path := files[|files| - 1].content]
  }

  lemma {:induction false} WrittenContent(tree: Tree, files: seq<File>, p: string)
    ensures (forall i :: 0 <= i < |files| ==> files[i].path != p) ==>
      (p in WriteAll(tree, files) <==> p in tree) && (p in tree ==> WriteAll(tree, files)[p] == tree[p])
    ensures (exists i :: 0 <= i < |files| && files[i].path == p) ==>
      p in WriteAll(tree, files) && exists i ::
        0 <= i < |files| && files[i] == File(p, WriteAll(tree, files)[p], files[i].service)
  {
    if files != [] {
      var n := |files| - 1;
      WrittenContent(tree, files[..n], p);
      assert forall i :: 0 <= i < n ==> files[..n][i] == files[i];
      if files[n].path == p {
        assert files[n] == File(p, WriteAll(tree, files)[p], files[n].service);
      } else if i :| 0 <= i < |files| && files[i].path == p {
        assert files[..n][i].path == p;
        var k :| 0 <= k < n && files[..n][k] == File(p, WriteAll(tree, files[..n])[p], files[..n][k].service);
        assert files[k] == files[..n][k];
      }
    }
  }

  lemma SameMembers(files: seq<File>, other: seq<File>)
    requires multiset(files) == multiset(other)
    ensures forall f :: f in files <==> f in other
  {
    forall f ensures f in files <==> f in other {
      assert f in files <==> f in multiset(files);
      assert f in other <==> f in multiset(other);
    }
  }

  lemma WrittenOnce(tree: Tree, files: seq<File>, f: File)
    requires SingleContent(files) && f in files
    ensures f.path in WriteAll(tree, files) && WriteAll(tree, files)[f.path] == f.content
  {
    hide WriteAll;
    WrittenContent(tree, files, f.path);
    var k :| 0 <= k < |files| && files[k] == f;
  }

  lemma AcceptedOneTree(tree: Tree, files: seq<File>, other: seq<File>)
    requires SingleContent(files) && multiset(files) == multiset(other)
    ensures WriteAll(tree, files) == WriteAll(tree, other)
  {
    hide WriteAll;
    SameMembers(files, other);
    assert SingleContent(other) by {
      forall i, j | 0 <= i < |other| && 0 <= j < |other| && other[i].path == other[j].path
        ensures other[i].content == other[j].content
      {
        assert other[i] in files && other[j] in files;
      }
    }
    forall p ensures (p in WriteAll(tree, files) <==> p in WriteAll(tree, other)) &&
      (p in WriteAll(tree, files) ==> WriteAll(tree, files)[p] == WriteAll(tree, other)[p])
    {
      if i :| 0 <= i < |files| && files[i].path == p {
        WrittenOnce(tree, files, files[i]);
        WrittenOnce(tree, other, files[i]);
      } else {
        WrittenContent(tree, files, p);
        WrittenContent(tree, other, p);
        assert forall i :: 0 <= i < |other| ==> other[i] in files;
      }
    }
  }

  /** The order that moves two files to the end. */
  function MoveToEnd(files: seq<File>, i: nat, j: nat): seq<File>
    requires i < j < |files|
  {
    files[..i] + files[i + 1..j] + files[j + 1..] + [files[i], files[j]]
  }

  lemma MoveToEndPermutes(files: seq<File>, i: nat, j: nat)
    requires i < j < |files|
    ensures multiset(MoveToEnd(files, i, j)) == multiset(files)
  {
    assert files == files[..i] + [files[i]] + files[i + 1..j] + [files[j]] + files[j + 1..];
  }

  /** The gate is exact: an accepted list gives one tree in whatever order its files are written,
      and a refused list has two orders whose trees differ. */
  lemma AcceptedIffOrderFree(tree: Tree, files: seq<File>)
    ensures SingleContent(files) <==>
      forall other :: multiset(other) == multiset(files) ==> WriteAll(tree, other) == WriteAll(tree, files)
  {
    if SingleContent(files) {
      forall other | multiset(other) == multiset(files) ensures WriteAll(tree, other) == WriteAll(tree, files) {
        AcceptedOneTree(tree, files, other);
      }
    } else {
      var i, j :| 0 <= i < |files| && 0 <= j < |files| && files[i].path == files[j].path &&
        files[i].content != files[j].content;
      if i < j {
        ConflictHasTwoTrees(tree, files, i, j);
      } else {
        ConflictHasTwoTrees(tree, files, j, i);
      }
    }
  }

  lemma ConflictHasTwoTrees(tree: Tree, files: seq<File>, i: nat, j: nat)
    requires i < j < |files| && files[i].path == files[j].path && files[i].content != files[j].content
    ensures exists other :: multiset(other) == multiset(files) && WriteAll(tree, other) != WriteAll(tree, files)
  {
    hide WriteAll;
    MoveToEndPermutes(files, i, j);
    var a := MoveToEnd(files, i, j);
    var rest := files[..i] + files[i + 1..j] + files[j + 1..];
    var b := rest + [files[j], files[i]];
    assert a == rest + [files[i], files[j]];
    assert multiset(b) == multiset(a);
    assert a[|a| - 1] == files[j] && b[|b| - 1] == files[i];
    LastWins(tree, a);
    LastWins(tree, b);
  }

  lemma LastWins(tree: Tree, files: seq<File>)
    requires files != []
    ensures files[|files| - 1].path in WriteAll(tree, files)
    ensures WriteAll(tree, files)[files[|files| - 1].path] == files[|files| - 1].content
  {
  }
}
