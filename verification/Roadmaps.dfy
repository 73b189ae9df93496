/** `assembleRoadmap`: what the restructuring roadmap of a migration says, from the assessment or, in
    its absence, from the score stored with the analysis. */
module Roadmaps {
  import opened Ordering
  import opened Scorer
  import opened ActionPlan
  import opened DetailText
  import opened Distiller
  import opened Wrappers

  /** The verdict on a migration; the score is absent when the analysis has none. */
  datatype Assessment = Assessment(
    verdict: string, summary: string, confidence: string, blockers: seq<string>, score: Option<int>,
    signals: seq<Signal>)

  datatype Diagnosis = Diagnosis(verdict: string, summary: string, confidence: string, blockers: seq<string>,
      score: Option<int>)

  datatype Problem = Problem(signal: string, penalty: int, detail: string)

  datatype Roadmap = Roadmap(diagnosis: Diagnosis, problems: seq<Problem>, actions: seq<ActionItem>,
      explanation: string)

  const NO_ROADMAP := Roadmap(Diagnosis("", "", "", [], None), [], [], "")

  /** The part of an analysis summary a roadmap is made from: infrastructure modules, and the score with
      its signals. */
  datatype Summary = Summary(infra: seq<string>, score: Option<(int, seq<Signal>)>)

  const UNAVAILABLE := Assessment("UNAVAILABLE", "Diagnosis unavailable", "", [], None, [])

  /** The assessment a roadmap is based on: the stored one, else one made from the stored score, else a
      marker. */
  function Basis(stored: Option<Assessment>, fetched: Option<Summary>, explanation: string): Assessment {
    if stored.Some? then stored.value
    else if fetched.Some? && fetched.value.score.Some? && fetched.value.score.value.1 != []
    then Assessment("NO_SERVICE_BOUNDARIES", explanation, "", [], Some(fetched.value.score.value.0),
      fetched.value.score.value.1)
    else UNAVAILABLE
  }

  function Infra(fetched: Option<Summary>): seq<string> {
    if fetched.Some? then fetched.value.infra else []
  }

  function Problems(signals: seq<Signal>): seq<Problem> {
    if signals == [] then []
    else
      var sig := signals[|signals| - 1];
      Problems(signals[..|signals| - 1]) + if sig.penalty > 0 then [Problem(sig.name, sig.penalty, sig.detail)] else []
  }

  predicate CostlierProblem(a: Problem, b: Problem) { a.penalty >= b.penalty }

  lemma CostlierProblemPreorder()
    ensures TotalPreorder(CostlierProblem)
  {
  }

  ghost predicate RoadmapOf(a: Assessment, explanation: string, infra: seq<string>, r: Roadmap) {
    && r.diagnosis == Diagnosis(a.verdict, a.summary, a.confidence, a.blockers, a.score)
    && r.explanation == explanation
    && multiset(r.problems) == multiset(Problems(a.signals)) && SortedBy(r.problems, CostlierProblem)
    && exists ranked :: PlanOf(a.signals, infra, ranked, r.actions)
  }

  method AssembleRoadmap(a: Assessment, explanation: string, infra: seq<string>) returns (r: Roadmap)
    ensures RoadmapOf(a, explanation, infra, r)
  {
    hide PlanOf;
    var found := [];
    for i := 0 to |a.signals|
      invariant found == Problems(a.signals[..i])
    {
      var sig := a.signals[i];
      assert a.signals[..i + 1][..i] == a.signals[..i];
      if sig.penalty > 0 {
        found := found + [Problem(sig.name, sig.penalty, sig.detail)];
      }
    }
    assert a.signals[..|a.signals|] == a.signals;
    CostlierProblemPreorder();
    var problems := Sort(found, CostlierProblem);
    var actions, ranked := BuildActionPlan(a.signals, infra);
    r := Roadmap(Diagnosis(a.verdict, a.summary, a.confidence, a.blockers, a.score), problems, actions, explanation);
  }

  /** What a roadmap is based on: the stored assessment whenever there is one, else the stored score when it
      has signals, else nothing but a marker without signals. */
  lemma BasisSays(stored: Option<Assessment>, fetched: Option<Summary>, explanation: string)
    ensures stored.Some? ==> Basis(stored, fetched, explanation) == stored.value
    ensures stored.None? && fetched.Some? && fetched.value.score.Some? && fetched.value.score.value.1 != [] ==>
      var b := Basis(stored, fetched, explanation);
      && b.verdict == "NO_SERVICE_BOUNDARIES" && b.summary == explanation
      && b.score == Some(fetched.value.score.value.0) && b.signals == fetched.value.score.value.1
    ensures stored.None? && (fetched.None? || fetched.value.score.None? || fetched.value.score.value.1 == []) ==>
      var b := Basis(stored, fetched, explanation); b.verdict == "UNAVAILABLE" && b.score == None && b.signals == []
    ensures Infra(fetched) == match fetched case Some(summary) => summary.infra case None => []
  {
  }

  /** The problems are the active signals, each with its cost and detail. */
  lemma {:induction false} ProblemsMembers(signals: seq<Signal>, p: Problem)
    ensures p in Problems(signals) <==>
      exists sig :: sig in signals && sig.penalty > 0 && p == Problem(sig.name, sig.penalty, sig.detail)
  {
    if signals != [] {
      var n := |signals| - 1;
      ProblemsMembers(signals[..n], p);
      assert signals == signals[..n] + [signals[n]];
    }
  }

  // ---------------------------------------------------------------- what a roadmap says

  function PenaltyOf(p: Problem): int { p.penalty }

  function ImpactOf(e: Entry): int { e.item.impact }

  ghost predicate ActiveKnown(signals: seq<Signal>) {
    forall i :: 0 <= i < |signals| && signals[i].penalty > 0 ==> Known(signals[i].name)
  }

  /** Every active signal is a problem and, when it is known, a step of the same cost. */
  lemma {:induction false} ProblemsMatchEntries(signals: seq<Signal>, infra: seq<string>)
    requires ActiveKnown(signals)
    ensures Mapped(PenaltyOf, Problems(signals)) == Mapped(ImpactOf, Entries(signals, infra))
  {
    if signals != [] {
      ProblemsMatchEntries(signals[..|signals| - 1], infra);
      LastImpact(signals, infra);
      LastPenalty(signals);
      hide Problems, Entries, Mapped;
    }
  }

  lemma LastImpact(signals: seq<Signal>, infra: seq<string>)
    requires signals != [] && (signals[|signals| - 1].penalty > 0 ==> Known(signals[|signals| - 1].name))
    ensures var sig := signals[|signals| - 1];
      Mapped(ImpactOf, Entries(signals, infra)) ==
        Mapped(ImpactOf, Entries(signals[..|signals| - 1], infra)) + if sig.penalty > 0 then [sig.penalty] else []
  {
    hide ItemFor, Known;
    var sig := signals[|signals| - 1];
    if sig.penalty > 0 {
      KnownHasItem(sig, infra);
      var e := Entry(ItemFor(sig, infra).value.(impact := sig.penalty), sig.name);
      MappedConcat(ImpactOf, Entries(signals[..|signals| - 1], infra), [e]);
      GainsAre([e]);
      hide Mapped;
    }
  }

  lemma KnownHasItem(sig: Signal, infra: seq<string>)
    ensures ItemFor(sig, infra).Some? <==> Known(sig.name)
  {
    hide ParseHubModule, ParseGodModules, ModuleList;
  }

  lemma LastPenalty(signals: seq<Signal>)
    requires signals != []
    ensures var sig := signals[|signals| - 1];
      Mapped(PenaltyOf, Problems(signals)) == Mapped(PenaltyOf, Problems(signals[..|signals| - 1])) +
        if sig.penalty > 0 then [sig.penalty] else []
  {
    var sig := signals[|signals| - 1];
    if sig.penalty > 0 {
      var p := Problem(sig.name, sig.penalty, sig.detail);
      MappedConcat(PenaltyOf, Problems(signals[..|signals| - 1]), [p]);
      CostsAre([p]);
      hide Mapped;
    }
  }

  /** The diagnosis and the plan tell the same story: place by place, the problems cost what the steps
      gain. */
  lemma ProblemsMatchActions(a: Assessment, explanation: string, infra: seq<string>, r: Roadmap)
    requires RoadmapOf(a, explanation, infra, r) && ActiveKnown(a.signals)
    ensures |r.problems| == |r.actions| && forall i :: 0 <= i < |r.actions| ==>
      r.problems[i].penalty == r.actions[i].impact
  {
    hide Problems, Entries, ActiveKnown, Link, Mapped;
    var ranked :| PlanOf(a.signals, infra, ranked, r.actions);
    ProblemsMatchEntries(a.signals, infra);
    MappedPermuted(PenaltyOf, r.problems, Problems(a.signals));
    MappedPermuted(ImpactOf, ranked, Entries(a.signals, infra));
    SortedCosts(r.problems);
    SortedGains(ranked);
    DescendingUnique(Mapped(PenaltyOf, r.problems), Mapped(ImpactOf, ranked));
    CostsAre(r.problems);
    GainsAre(ranked);
  }

  lemma {:induction false} StepsPerProblem(signals: seq<Signal>, infra: seq<string>)
    ensures |Entries(signals, infra)| <= |Problems(signals)|
    ensures |Entries(signals, infra)| == |Problems(signals)| <==> ActiveKnown(signals)
  {
    if signals != [] {
      StepsPerProblem(signals[..|signals| - 1], infra);
      LastCounts(signals, infra);
      LastActive(signals);
      hide Entries, Problems, Known, ActiveKnown;
    }
  }

  lemma LastCounts(signals: seq<Signal>, infra: seq<string>)
    requires signals != []
    ensures var sig, front := signals[|signals| - 1], signals[..|signals| - 1];
      && |Problems(signals)| == |Problems(front)| + (if sig.penalty > 0 then 1 else 0)
      && |Entries(signals, infra)| == |Entries(front, infra)| + (if sig.penalty > 0 && Known(sig.name) then 1 else 0)
  {
    hide ItemFor, Known;
    KnownHasItem(signals[|signals| - 1], infra);
  }

  lemma LastActive(signals: seq<Signal>)
    requires signals != []
    ensures var sig := signals[|signals| - 1];
      ActiveKnown(signals) <==> ActiveKnown(signals[..|signals| - 1]) && (sig.penalty > 0 ==> Known(sig.name))
  {
    hide Known;
    var front := signals[..|signals| - 1];
    assert forall i :: 0 <= i < |front| ==> front[i] == signals[i];
  }

  /** "One step per active signal" holds exactly when every active signal is a known one; otherwise the
      plan has fewer steps than the diagnosis has problems. */
  lemma OneStepPerProblemIff(a: Assessment, explanation: string, infra: seq<string>, r: Roadmap)
    requires RoadmapOf(a, explanation, infra, r)
    ensures |r.actions| <= |r.problems|
    ensures |r.actions| == |r.problems| <==> ActiveKnown(a.signals)
  {
    hide Problems, Entries, ActiveKnown, Link, SortedBy;
    var ranked :| PlanOf(a.signals, infra, ranked, r.actions);
    assert |multiset(ranked)| == |ranked| && |multiset(Entries(a.signals, infra))| == |Entries(a.signals, infra)|;
    assert |multiset(r.problems)| == |r.problems| && |multiset(Problems(a.signals))| == |Problems(a.signals)|;
    StepsPerProblem(a.signals, infra);
  }

  /** Such a diagnosis: a problem without a step. */
  lemma ProblemWithoutStep(infra: seq<string>)
    ensures |Problems([Signal("test_coverage", 5, "", [])])| == 1 &&
      Entries([Signal("test_coverage", 5, "", [])], infra) == []
  {
    var s := [Signal("test_coverage", 5, "", [])];
    assert s[..0] == [];
    KnownHasItem(s[0], infra);
    hide ItemFor;
  }

  lemma CostsAre(problems: seq<Problem>)
    ensures |Mapped(PenaltyOf, problems)| == |problems|
    ensures forall i :: 0 <= i < |problems| ==> Mapped(PenaltyOf, problems)[i] == problems[i].penalty
  {
    forall i | 0 <= i < |problems| ensures Mapped(PenaltyOf, problems)[i] == problems[i].penalty {
      assert Mapped(PenaltyOf, problems)[i] == PenaltyOf(problems[i]);
    }
  }

  lemma GainsAre(ranked: seq<Entry>)
    ensures |Mapped(ImpactOf, ranked)| == |ranked|
    ensures forall i :: 0 <= i < |ranked| ==> Mapped(ImpactOf, ranked)[i] == ranked[i].item.impact
  {
    forall i | 0 <= i < |ranked| ensures Mapped(ImpactOf, ranked)[i] == ranked[i].item.impact {
      assert Mapped(ImpactOf, ranked)[i] == ImpactOf(ranked[i]);
    }
  }

  lemma SortedCosts(problems: seq<Problem>)
    requires SortedBy(problems, CostlierProblem)
    ensures Descending(Mapped(PenaltyOf, problems))
  {
    hide Mapped;
    CostsAre(problems);
    forall i, j | 0 <= i < j < |problems| ensures problems[i].penalty >= problems[j].penalty {
      assert CostlierProblem(problems[i], problems[j]);
    }
  }

  lemma SortedGains(ranked: seq<Entry>)
    requires SortedBy(ranked, ImpactLe)
    ensures Descending(Mapped(ImpactOf, ranked))
  {
    hide Mapped;
    GainsAre(ranked);
    forall i, j | 0 <= i < j < |ranked| ensures ranked[i].item.impact >= ranked[j].item.impact {
      assert ImpactLe(ranked[i], ranked[j]);
    }
  }

  /** A roadmap made from a score explains it: its steps add up to what the score lost, and its problems
      cost the same place by place. */
  lemma RoadmapExplainsScore(d: Digest, s: MigrabilityScore, a: Assessment, explanation: string, infra: seq<string>,
      r: Roadmap)
    requires SignalsOf(d, s.breakdown) && s.value == 100 - PenaltySum(s.breakdown)
    requires a.signals == s.breakdown && a.score == Some(s.value) && RoadmapOf(a, explanation, infra, r)
    ensures r.diagnosis.score.Some? && ImpactSum(r.actions) == 100 - r.diagnosis.score.value
    ensures |r.problems| == |r.actions| && forall i :: 0 <= i < |r.actions| ==>
      r.problems[i].penalty == r.actions[i].impact
  {
    hide SignalsOf, PenaltySum, PlanOf, Known, ImpactSum, Problems;
    ScoredSignalsKnown(d, s.breakdown);
    assert ActiveKnown(a.signals);
    ProblemsMatchActions(a, explanation, infra, r);
    var ranked :| PlanOf(a.signals, infra, ranked, r.actions);
    ImpactsExplainScore(d, s, infra, ranked, r.actions);
  }
}
