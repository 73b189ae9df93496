/** What each event of the life cycle does, said of the repository before and after it: how every state
    is entered, what becomes of every field, and when a use case succeeds. */
module LifecycleEntries {
  import opened PathConflicts
  import opened Plans
  import opened Roadmaps
  import opened Lifecycle
  import opened LifecycleSafety
  import opened Wrappers

  predicate Enters(a: Adapters, r: Repository, ev: Event, id: nat, p: Phase) {
    PhaseOf(Next(a, r, ev), id) == p && PhaseOf(r, id) != p
  }

  /** The event concerns a migration that can be found, in the given state. */
  predicate On(r: Repository, ev: Event, id: nat, p: Phase) {
    !ev.Create? && ev.id == id && Visible(r, id) && r[id].phase == p
  }

  /** A request that passes every check and whose calls all work. */
  predicate Accepted(request: Option<Migration>, e: CreateEnv) {
    && request.Some? && request.value.owner != 0 && request.value.repository != 0
    && request.value.target.Some?
    && request.value.target.value.language != 0 && request.value.target.value.database != 0
    && e.ownerKnown && !e.lookup.NoUrl? && e.saved
  }

  /** A start on the path that adopts an existing analysis. */
  predicate Reuses(r: Repository, ev: Event, id: nat) {
    && ev.Start? && On(r, ev, id, Pending) && ReachedHandover(r[id], ev.start)
    && r[id].sourceSummary != 0 && ev.start.handedOver
  }

  lemma Elsewhere(a: Adapters, r: Repository, ev: Event, id: nat)
    requires id != ev.id
    ensures forall p :: !Enters(a, r, ev, id, p)
  {
    EventIsLocal(a, r, ev, id);
  }

  /** PENDING is entered exactly by an accepted creation under a free identifier. */
  lemma EntersPending(a: Adapters, r: Repository, ev: Event, id: nat)
    ensures Enters(a, r, ev, id, Pending) <==>
      ev.Create? && ev.id == id && id != 0 && id !in r && Accepted(ev.request, ev.create)
  {
    if ev.id != id { Elsewhere(a, r, ev, id); }
  }

  /** ANALYZING is entered exactly by a start that hands a new analysis over, or that can neither hand over
      nor roll back. */
  lemma EntersAnalyzing(a: Adapters, r: Repository, ev: Event, id: nat)
    ensures Enters(a, r, ev, id, Analyzing) <==>
      && ev.Start? && On(r, ev, id, Pending) && ReachedHandover(r[id], ev.start)
      && (if ev.start.handedOver then r[id].sourceSummary == 0 else !ev.start.rolledBack)
  {
    if ev.id != id { Elsewhere(a, r, ev, id); }
  }

  /** DESIGNING is entered exactly by adopting an analysis, at the start or through the worker. */
  lemma EntersDesigning(a: Adapters, r: Repository, ev: Event, id: nat)
    ensures Enters(a, r, ev, id, Designing) <==>
      Reuses(r, ev, id) || ((ev.AnalysisWritten? || ev.AnalysisReused?) && On(r, ev, id, Analyzing))
  {
    if ev.id != id { Elsewhere(a, r, ev, id); }
  }

  /** AWAITING_APPROVAL is entered exactly by writing a plan: from DESIGNING, or from anywhere with the
      shipped adapters. */
  lemma EntersAwaitingApproval(a: Adapters, r: Repository, ev: Event, id: nat)
    ensures Enters(a, r, ev, id, AwaitingApproval) <==>
      && ev.PlanWritten? && ev.id == id && Visible(r, id)
      && (r[id].phase == Designing || (a.Shipped? && r[id].phase != AwaitingApproval))
  {
    if ev.id != id { Elsewhere(a, r, ev, id); }
  }

  /** READY is entered exactly by the generation worker's success. */
  lemma EntersReady(a: Adapters, r: Repository, ev: Event, id: nat)
    ensures Enters(a, r, ev, id, Ready) <==>
      && ev.GenerationReady? && ev.id == id && Visible(r, id)
      && (r[id].phase == Generating || (a.Shipped? && r[id].phase != Ready))
  {
    if ev.id != id { Elsewhere(a, r, ev, id); }
  }

  /** PUSHED is entered exactly by publishing a READY migration to some target with files of which no two
      disagree on a path, when the push and the state write work. */
  lemma EntersPushed(a: Adapters, r: Repository, ev: Event, id: nat)
    ensures Enters(a, r, ev, id, Pushed) <==>
      && ev.Publish? && On(r, ev, id, Ready) && ev.target != ""
      && ev.publish.listed && ev.publish.files != [] && ev.publish.pushed && ev.publish.saved
      && forall f, g :: f in ev.publish.files && g in ev.publish.files && f.path == g.path ==> f.content == g.content
  {
    if ev.id != id {
      Elsewhere(a, r, ev, id);
    } else if ev.Publish? {
      SameContents(ev.publish.files);
    }
  }

  lemma SameContents(files: seq<File>)
    ensures SingleContent(files) <==>
      forall f, g :: f in files && g in files && f.path == g.path ==> f.content == g.content
  {
    if SingleContent(files) {
      forall f, g | f in files && g in files && f.path == g.path ensures f.content == g.content {
        var i :| 0 <= i < |files| && files[i] == f;
        var j :| 0 <= j < |files| && files[j] == g;
      }
    } else {
      var i, j :|
        0 <= i < |files| && 0 <= j < |files| && files[i].path == files[j].path && files[i].content != files[j].content;
      assert files[i] in files && files[j] in files;
    }
  }

  /** FAILED is entered exactly by a failure that a worker reports for the stage the migration is in; the
      generation worker's report from anywhere with the shipped adapters. */
  lemma EntersFailed(a: Adapters, r: Repository, ev: Event, id: nat)
    ensures Enters(a, r, ev, id, Failed) <==>
      || (ev.AnalysisFailed? && On(r, ev, id, Analyzing))
      || (ev.DesignFailed? && On(r, ev, id, Designing))
      || (ev.GenerationFailed? && ev.id == id && Visible(r, id)
          && (r[id].phase == Generating || (a.Shipped? && r[id].phase != Failed)))
  {
    if ev.id != id { Elsewhere(a, r, ev, id); }
  }

  /** CANCELLED is entered exactly by a saved cancellation of a migration that has not ended, or by a saved
      rejection of one that awaits approval. */
  lemma EntersCancelled(a: Adapters, r: Repository, ev: Event, id: nat)
    ensures Enters(a, r, ev, id, Cancelled) <==>
      || (ev == Cancel(id, true) && Visible(r, id) && r[id].phase !in {Pushed, Failed, Cancelled, RestructuringReady})
      || (ev == Approve(id, false, true) && Visible(r, id) && r[id].phase == AwaitingApproval)
  {
    if ev.id != id { Elsewhere(a, r, ev, id); }
  }

  /** TESTING is never entered, and no migration loses its state. */
  lemma NeverEntered(a: Adapters, r: Repository, ev: Event, id: nat)
    ensures !Enters(a, r, ev, id, Testing) && !Enters(a, r, ev, id, Unspecified)
  {
    if ev.id != id {
      Elsewhere(a, r, ev, id);
    } else if id in r {
      AfterKeepsState(a, r[id], ev);
      hide AfterEvent;
    }
  }

  lemma AfterKeepsState(a: Adapters, m: Migration, ev: Event)
    ensures var p := AfterEvent(a, m, ev).phase; p == m.phase || (p != Testing && p != Unspecified)
  {
    hide AfterStart, IsTerminal;
    if ev.Start? {
      StartKeepsState(m, ev.start);
    }
  }

  lemma StartKeepsState(m: Migration, e: StartEnv)
    ensures var p := AfterStart(m, e).phase; p == m.phase || (p != Testing && p != Unspecified)
  {
  }

  // ---------------------------------------------------------------- the other fields

  /** What a creation stores. */
  lemma CreatedFields(a: Adapters, r: Repository, ev: Event)
    requires ev.Create? && Enters(a, r, ev, ev.id, Pending)
    ensures var m, n := ev.request.value, Next(a, r, ev)[ev.id];
      && !n.deleted && !n.reused && n.url == (if ev.create.lookup.Url? then ev.create.lookup.url else m.url)
      && n.owner == m.owner && n.repository == m.repository && n.target == m.target
      && n.sourceSummary == m.sourceSummary && n.branch == m.branch
  {
  }

  /** The plan and the roadmap of an existing migration after any event. */
  lemma PlanFields(a: Adapters, r: Repository, ev: Event, id: nat)
    requires id in r
    ensures id in Next(a, r, ev)
    ensures Next(a, r, ev)[id].plan ==
      if ev.PlanWritten? && ev.id == id && Visible(r, id) && (a.Shipped? || r[id].phase == Designing)
      then Some(ev.plan) else r[id].plan
    ensures Next(a, r, ev)[id].roadmap ==
      if Enters(a, r, ev, id, RestructuringReady) then Some(ev.roadmap) else r[id].roadmap
  {
    if ev.id != id { EventIsLocal(a, r, ev, id); }
  }

  /** The assessment and the override after any event. */
  lemma VerdictFields(a: Adapters, r: Repository, ev: Event, id: nat)
    requires id in r
    ensures id in Next(a, r, ev)
    ensures Next(a, r, ev)[id].assessment ==
      if ev.Assess? && ev.id == id && Visible(r, id) && r[id].summary != 0 && ev.assessed.Some? && ev.saved
      then ev.assessed else r[id].assessment
    ensures Next(a, r, ev)[id].override ==
      if ev.Override? && ev.id == id && Visible(r, id) && ev.saved then ev.value else r[id].override
  {
    if ev.id != id { EventIsLocal(a, r, ev, id); }
  }

  /** Where the analysis comes from after any event. */
  lemma AnalysisFields(a: Adapters, r: Repository, ev: Event, id: nat)
    requires id in r
    ensures id in Next(a, r, ev)
    ensures var m, n := r[id], Next(a, r, ev)[id];
      && n.summary == (if Reuses(r, ev, id) then m.sourceSummary
                       else if (ev.AnalysisWritten? || ev.AnalysisReused?) && On(r, ev, id, Analyzing) then ev.summary
                       else m.summary)
      && n.reused == (m.reused || Reuses(r, ev, id) || (ev.AnalysisReused? && On(r, ev, id, Analyzing)))
      && n.branch ==
           (if Reuses(r, ev, id) && m.branch == "" && ev.start.lookup.Found? then ev.start.lookup.branch else m.branch)
  {
    if ev.id != id { EventIsLocal(a, r, ev, id); }
  }

  /** Deletion and the flags of the roadmap after any event. */
  lemma FlagFields(a: Adapters, r: Repository, ev: Event, id: nat)
    requires id in r
    ensures id in Next(a, r, ev)
    ensures var m, n := r[id], Next(a, r, ev)[id];
      && (n.deleted <==> m.deleted || (ev == Delete(id, true) && Visible(r, id)
                                       && m.phase in {Pushed, Failed, Cancelled, RestructuringReady}))
      && (n.enriched <==> m.enriched || (ev == Enrich(id, true) && On(r, ev, id, RestructuringReady) && HasSteps(m)))
      && (n.blueprint <==> m.blueprint || (ev == MakeBlueprint(id, true) && On(r, ev, id, RestructuringReady)
                                           && m.summary != 0 && HasSteps(m)))
  {
    if ev.id != id { EventIsLocal(a, r, ev, id); }
  }

  /** Owner, source and target never change. */
  lemma FixedFields(a: Adapters, r: Repository, ev: Event, id: nat)
    requires id in r
    ensures id in Next(a, r, ev)
    ensures var m, n := r[id], Next(a, r, ev)[id];
      && n.owner == m.owner && n.repository == m.repository && n.url == m.url && n.target == m.target
      && n.sourceSummary == m.sourceSummary
  {
    if ev.id != id { EventIsLocal(a, r, ev, id); }
  }

  predicate HasSteps(m: Migration) {
    m.roadmap.Some? && |m.roadmap.value.actions| > 0
  }

  /** What a roadmap rests on: the stored assessment if there is one; otherwise the score of the summary,
      which is only asked for when the migration has one; it carries the plan's explanation. */
  lemma RoadmapSays(m: Migration, fetched: Option<Summary>, roadmap: Roadmap)
    requires RoadmapFor(m, fetched, roadmap)
    ensures m.plan.Some? ==> roadmap.explanation == m.plan.value.explanation
    ensures m.assessment.Some? ==>
      roadmap.diagnosis.verdict == m.assessment.value.verdict && roadmap.diagnosis.score == m.assessment.value.score
    ensures m.assessment.None? && (m.summary == 0 || fetched.None?) ==>
      roadmap.diagnosis.verdict == "UNAVAILABLE" && roadmap.problems == []
    ensures m.assessment.None? && m.summary != 0 && fetched.Some? && fetched.value.score.Some? ==>
      fetched.value.score.value.1 != [] ==> roadmap.diagnosis.score == Some(fetched.value.score.value.0)
  {
    var explanation := if m.plan.Some? then m.plan.value.explanation else "";
    var summary := if m.summary != 0 then fetched else None;
    BasisSays(m.assessment, summary, explanation);
    if m.assessment.None? && summary.None? {
      assert |multiset(roadmap.problems)| == |roadmap.problems|;
    }
  }

  // ---------------------------------------------------------------- answers

  /** When each use case succeeds. */
  lemma SucceedsIff(r: Repository, ev: Event)
    requires Visible(r, ev.id) && !ev.Create? && !ev.Start?
    ensures var m := r[ev.id];
      Answered(r, ev) == Ok <==>
        match ev
        case Approve(_, approved, saved) =>
          && saved && m.phase == AwaitingApproval
          && (approved ==> !(m.plan.Some? && m.plan.value.noServiceBoundaries))
          && (approved ==> m.override || !(m.assessment.Some? && m.assessment.value.verdict == "NOT_MIGRABLE"))
        case Cancel(_, saved) => saved && m.phase !in {Pushed, Failed, Cancelled, RestructuringReady}
        case Delete(_, saved) => saved && m.phase in {Pushed, Failed, Cancelled, RestructuringReady}
        case Assess(_, assessed, saved) => m.summary != 0 && assessed.Some? && saved
        case Override(_, _, saved) => saved
        case MakeRoadmap(_, _, saved) =>
          && saved && m.phase == AwaitingApproval
          && ((m.assessment.Some? && m.assessment.value.verdict == "NOT_MIGRABLE") ||
              (m.plan.Some? && m.plan.value.noServiceBoundaries))
        case Enrich(_, enriched) => enriched && m.phase == RestructuringReady && HasSteps(m)
        case MakeBlueprint(_, made) => made && m.phase == RestructuringReady && m.summary != 0 && HasSteps(m)
        case Publish(_, target, e) =>
          && target != "" && m.phase in {Ready, Pushed}
          && e.listed && e.files != [] && SingleContent(e.files) && e.pushed
          && (m.phase == Ready ==> e.saved)
        case _ => true
  {
  }

  /** Which requests name nothing that can be worked on. */
  lemma RefusedLookup(r: Repository, ev: Event)
    requires !ev.Create?
    ensures Answered(r, ev) == MissingIdentifier <==> ev.id == 0
    ensures Answered(r, ev) == MissingPayload <==> ev.id != 0 && ev.Publish? && ev.target == ""
    ensures Answered(r, ev) == NotFoundError <==> ev.id != 0 && !Visible(r, ev.id) && (ev.Publish? ==> ev.target != "")
  {
  }

  /** Which gate refuses an approval: boundaries first, then the verdict. */
  lemma RefusedApproval(r: Repository, ev: Event)
    requires !ev.Create?
    ensures Answered(r, ev) == NoBoundaries <==>
      && ev.Approve? && ev.approved && On(r, ev, ev.id, AwaitingApproval)
      && r[ev.id].plan.Some? && r[ev.id].plan.value.noServiceBoundaries
    ensures Answered(r, ev) == NotMigrableBlocked <==>
      && ev.Approve? && ev.approved && On(r, ev, ev.id, AwaitingApproval)
      && !(r[ev.id].plan.Some? && r[ev.id].plan.value.noServiceBoundaries) && !r[ev.id].override
      && r[ev.id].assessment.Some? && r[ev.id].assessment.value.verdict == "NOT_MIGRABLE"
  {
  }

  /** Which gate refuses a publication: no files first, then disagreeing files. */
  lemma RefusedPublication(r: Repository, ev: Event)
    requires !ev.Create?
    ensures Answered(r, ev) == ArtifactConflict <==>
      && ev.Publish? && ev.target != "" && (On(r, ev, ev.id, Ready) || On(r, ev, ev.id, Pushed))
      && ev.publish.listed && ev.publish.files != [] && !SingleContent(ev.publish.files)
    ensures Answered(r, ev) == NoArtifacts <==>
      && ev.Publish? && ev.target != "" && (On(r, ev, ev.id, Ready) || On(r, ev, ev.id, Pushed))
      && ev.publish.listed && ev.publish.files == []
  {
    hide SingleContent;
  }

  /** Which gate refuses what has to do with the assessment and the roadmap. */
  lemma RefusedRoadmap(r: Repository, ev: Event)
    requires !ev.Create?
    ensures Answered(r, ev) == RoadmapUnavailable <==>
      && ev.MakeRoadmap? && On(r, ev, ev.id, AwaitingApproval)
      && !(r[ev.id].plan.Some? && r[ev.id].plan.value.noServiceBoundaries)
      && !(r[ev.id].assessment.Some? && r[ev.id].assessment.value.verdict == "NOT_MIGRABLE")
    ensures Answered(r, ev) == NoAnalysisSummary <==> ev.Assess? && Visible(r, ev.id) && r[ev.id].summary == 0
    ensures Answered(r, ev) == NoRoadmap <==>
      && (ev.Enrich? || ev.MakeBlueprint?) && On(r, ev, ev.id, RestructuringReady) && !HasSteps(r[ev.id])
      && (ev.MakeBlueprint? ==> r[ev.id].summary != 0)
    ensures Answered(r, ev) == NoBlueprintAnalysis <==>
      ev.MakeBlueprint? && On(r, ev, ev.id, RestructuringReady) && r[ev.id].summary == 0
  {
  }

  /** A use case is refused for the state of the migration exactly when that is not one it starts from. */
  lemma WrongStateIff(r: Repository, ev: Event)
    requires Visible(r, ev.id) && !ev.Create? && (ev.Publish? ==> ev.target != "")
    ensures var p := r[ev.id].phase;
      Answered(r, ev) == InvalidTransition <==>
        || (ev.Start? && p != Pending)
        || ((ev.Approve? || ev.MakeRoadmap?) && p != AwaitingApproval)
        || (ev.Cancel? && p in {Pushed, Failed, Cancelled, RestructuringReady})
        || (ev.Delete? && p !in {Pushed, Failed, Cancelled, RestructuringReady})
        || ((ev.Enrich? || ev.MakeBlueprint?) && p != RestructuringReady)
        || (ev.Publish? && p != Ready && p != Pushed)
  {
  }

  /** Which reuse is refused: of an analysis that is not found, of another repository, or not completed. */
  lemma ReuseRefusedIff(r: Repository, ev: Event)
    requires Visible(r, ev.id) && ev.Start?
    ensures Answered(r, ev) == SourceAnalysisNotFound <==>
      r[ev.id].phase == Pending && r[ev.id].sourceSummary != 0 && ev.start.lookup.NotFound?
    ensures Answered(r, ev) == SourceAnalysisInvalid <==>
      && r[ev.id].phase == Pending && r[ev.id].sourceSummary != 0 && ev.start.lookup.Found?
      && (ev.start.lookup.repository != r[ev.id].repository || !ev.start.lookup.completed)
  {
  }

  /** A creation is answered Ok exactly when it is accepted, and otherwise with the first check that fails. */
  lemma CreationAnswers(request: Option<Migration>, e: CreateEnv)
    ensures AnswerCreate(request, e) == Ok <==> Accepted(request, e)
    ensures AnswerCreate(request, e) == MissingPayload <==> request.None?
    ensures request.Some? ==> (AnswerCreate(request, e) == MissingOwner <==> request.value.owner == 0)
    ensures request.Some? && request.value.owner != 0 ==>
      (AnswerCreate(request, e) == MissingRepository <==> request.value.repository == 0)
    ensures AnswerCreate(request, e) in {OwnerUnknown, RepositoryUnavailable, CallFailed} ==>
      && request.Some? && request.value.target.Some?
      && request.value.target.value.language != 0 && request.value.target.value.database != 0
    ensures AnswerCreate(request, e) == OwnerUnknown ==> !e.ownerKnown
    ensures AnswerCreate(request, e) == RepositoryUnavailable ==> e.ownerKnown && e.lookup.NoUrl?
    ensures AnswerCreate(request, e) == CallFailed ==> e.ownerKnown && !e.lookup.NoUrl? && !e.saved
  {
  }
}
