/** The use cases of the migration service as methods over its repository. Each one leaves the
    repository in the state that the life-cycle model gives for its event, and tells the caller what
    the model says. */
module MigrationService {
  import opened PathConflicts
  import opened Lifecycle
  import opened Roadmaps
  import opened Wrappers

  class Service {
    var records: Repository
    const adapters: Adapters

    constructor (adapters: Adapters)
      ensures records == map[] && this.adapters == adapters
    {
      records := map[];
      this.adapters := adapters;
    }

    /** `UpdateState`: writes the state of a visible migration unless the store fails. */
    method UpdateState(id: nat, phase: Phase, works: bool) returns (done: bool)
      modifies this
      ensures done == (Visible(old(records), id) && works)
      ensures records == if done then old(records)[id := old(records)[id].(phase := phase)] else old(records)
    {
      done := Visible(records, id) && works;
      if done {
        records := records[id := records[id].(phase := phase)];
      }
    }

    method CreateMigration(id: nat, request: Option<Migration>, e: CreateEnv) returns (answer: Answer)
      requires id != 0 && id !in records
      modifies this
      ensures records == Next(adapters, old(records), Create(id, request, e))
      ensures answer == Answered(old(records), Create(id, request, e))
      ensures answer == Ok ==> Visible(records, id) && records[id].phase == Pending
    {
      if request.None? {
        return MissingPayload;
      }
      var m := request.value;
      if m.owner == 0 {
        return MissingOwner;
      }
      if m.repository == 0 {
        return MissingRepository;
      }
      if m.target.None? || m.target.value.language == 0 || m.target.value.database == 0 {
        return InvalidTarget;
      }
      if !e.ownerKnown {
        return OwnerUnknown;
      }
      if e.lookup.NoUrl? {
        return RepositoryUnavailable;
      }
      if e.lookup.Url? {
        m := m.(url := e.lookup.url);
      }
      m := m.(phase := Pending);
      if !e.saved {
        return CallFailed;
      }
      // the repository's Create stores a visible record that reuses nothing yet
      records := records[id := m.(deleted := false, reused := false)];
      answer := Ok;
    }

    method StartMigration(id: nat, e: StartEnv) returns (answer: Answer)
      modifies this
      ensures records == Next(adapters, old(records), Start(id, e))
      ensures answer == Answered(old(records), Start(id, e))
    {
      if id == 0 {
        return MissingIdentifier;
      }
      if !Visible(records, id) {
        return NotFoundError;
      }
      var m := records[id];
      if m.phase != Pending {
        assert records[id := m] == records;
        return InvalidTransition;
      }
      if m.sourceSummary != 0 {
        answer := StartWithReuse(id, e);
      } else {
        answer := StartNormal(id, e);
      }
    }

    method StartWithReuse(id: nat, e: StartEnv) returns (answer: Answer)
      requires Visible(records, id) && records[id].phase == Pending && records[id].sourceSummary != 0
      modifies this
      ensures records == old(records)[id := AfterStart(old(records)[id], e)]
      ensures answer == AnswerStart(old(records)[id], e)
    {
      var m := records[id];
      assert records[id := m] == records;
      if e.lookup.NotFound? {
        return SourceAnalysisNotFound;
      }
      if e.lookup.Found? {
        if e.lookup.repository != m.repository || !e.lookup.completed {
          return SourceAnalysisInvalid;
        }
      }
      if !e.probe {
        return CallFailed;
      }
      var branch := m.branch;
      if branch == "" && e.lookup.Found? {
        branch := e.lookup.branch;
      }
      var done := UpdateState(id, Analyzing, e.saved);
      if !done {
        return CallFailed;
      }
      if !e.handedOver {
        var _ := UpdateState(id, Pending, e.rolledBack);
        return CallFailed;
      }
      // AdoptAnalysis
      records := records[id := records[id].(phase := Designing, summary := m.sourceSummary, reused := true,
        branch := branch)];
      answer := Ok;
    }

    method StartNormal(id: nat, e: StartEnv) returns (answer: Answer)
      requires Visible(records, id) && records[id].phase == Pending && records[id].sourceSummary == 0
      modifies this
      ensures records == old(records)[id := AfterStart(old(records)[id], e)]
      ensures answer == AnswerStart(old(records)[id], e)
    {
      assert records[id := records[id]] == records;
      if !e.probe {
        return CallFailed;
      }
      var done := UpdateState(id, Analyzing, e.saved);
      if !done {
        return CallFailed;
      }
      if !e.handedOver {
        var _ := UpdateState(id, Pending, e.rolledBack);
        return CallFailed;
      }
      answer := Ok;
    }

    method ApproveDesign(id: nat, approved: bool, saved: bool) returns (answer: Answer)
      modifies this
      ensures records == Next(adapters, old(records), Approve(id, approved, saved))
      ensures answer == Answered(old(records), Approve(id, approved, saved))
    {
      if id == 0 {
        return MissingIdentifier;
      }
      if !Visible(records, id) {
        return NotFoundError;
      }
      var m := records[id];
      assert records[id := m] == records;
      if m.phase != AwaitingApproval {
        return InvalidTransition;
      }
      if approved && PlanBlocks(m) {
        return NoBoundaries;
      }
      if approved && MigrabilityBlocked(m) {
        return NotMigrableBlocked;
      }
      var nextPhase := Generating;
      if !approved {
        nextPhase := Cancelled;
      }
      var done := UpdateState(id, nextPhase, saved);
      answer := if done then Ok else CallFailed;
    }

    method CancelMigration(id: nat, saved: bool) returns (answer: Answer)
      modifies this
      ensures records == Next(adapters, old(records), Cancel(id, saved))
      ensures answer == Answered(old(records), Cancel(id, saved))
    {
      if id == 0 {
        return MissingIdentifier;
      }
      if !Visible(records, id) {
        return NotFoundError;
      }
      assert records[id := records[id]] == records;
      if IsTerminal(records[id].phase) {
        return InvalidTransition;
      }
      var done := UpdateState(id, Cancelled, saved);
      answer := if done then Ok else CallFailed;
    }

    method DeleteMigration(id: nat, saved: bool) returns (answer: Answer)
      modifies this
      ensures records == Next(adapters, old(records), Delete(id, saved))
      ensures answer == Answered(old(records), Delete(id, saved))
    {
      if id == 0 {
        return MissingIdentifier;
      }
      if !Visible(records, id) {
        return NotFoundError;
      }
      assert records[id := records[id]] == records;
      if !IsTerminal(records[id].phase) {
        return InvalidTransition;
      }
      if !saved {
        return CallFailed;
      }
      records := records[id := records[id].(deleted := true)];
      answer := Ok;
    }

    /** `fetched` is the analysis summary the service gets when it asks for one. The roadmap stored is the
        one assembled from the assessment, or from the stored score when there is none. */
    method GenerateRestructuringRoadmap(id: nat, fetched: Option<Summary>, saved: bool)
      returns (answer: Answer, roadmap: Roadmap)
      modifies this
      ensures records == Next(adapters, old(records), MakeRoadmap(id, roadmap, saved))
      ensures answer == Answered(old(records), MakeRoadmap(id, roadmap, saved))
      ensures answer == Ok ==> RoadmapFor(old(records)[id], fetched, roadmap)
    {
      hide RoadmapFor;
      roadmap := NO_ROADMAP;
      if id == 0 {
        return MissingIdentifier, roadmap;
      }
      if !Visible(records, id) {
        return NotFoundError, roadmap;
      }
      var m := records[id];
      assert records[id := m] == records;
      if m.phase != AwaitingApproval {
        return InvalidTransition, roadmap;
      }
      var isNotMigrable := m.assessment.Some? && m.assessment.value.verdict == NOT_MIGRABLE;
      var isNoServiceBoundaries := m.plan.Some? && m.plan.value.noServiceBoundaries;
      if !isNotMigrable && !isNoServiceBoundaries {
        return RoadmapUnavailable, roadmap;
      }
      roadmap := ComposeRoadmap(m, fetched);
      if !saved {
        return CallFailed, roadmap;
      }
      // SetRestructuringRoadmap: roadmap and state in one guarded write
      records := records[id := m.(phase := RestructuringReady, roadmap := Some(roadmap))];
      answer := Ok;
    }

    static method ComposeRoadmap(m: Migration, fetched: Option<Summary>) returns (roadmap: Roadmap)
      ensures RoadmapFor(m, fetched, roadmap)
    {
      hide RoadmapOf;
      var explanation := if m.plan.Some? then m.plan.value.explanation else "";
      var summary := if m.summary != 0 then fetched else None;
      roadmap := AssembleRoadmap(Basis(m.assessment, summary, explanation), explanation, Infra(summary));
    }

    method EnrichRoadmap(id: nat, enriched: bool) returns (answer: Answer)
      modifies this
      ensures records == Next(adapters, old(records), Enrich(id, enriched))
      ensures answer == Answered(old(records), Enrich(id, enriched))
    {
      if id == 0 {
        return MissingIdentifier;
      }
      if !Visible(records, id) {
        return NotFoundError;
      }
      var m := records[id];
      assert records[id := m] == records;
      if m.phase != RestructuringReady {
        return InvalidTransition;
      }
      if m.roadmap.None? || |m.roadmap.value.actions| == 0 {
        return NoRoadmap;
      }
      if !enriched {
        return CallFailed;
      }
      records := records[id := m.(enriched := true)];
      answer := Ok;
    }

    method GenerateBlueprint(id: nat, made: bool) returns (answer: Answer)
      modifies this
      ensures records == Next(adapters, old(records), MakeBlueprint(id, made))
      ensures answer == Answered(old(records), MakeBlueprint(id, made))
    {
      if id == 0 {
        return MissingIdentifier;
      }
      if !Visible(records, id) {
        return NotFoundError;
      }
      var m := records[id];
      assert records[id := m] == records;
      if m.phase != RestructuringReady {
        return InvalidTransition;
      }
      if m.summary == 0 {
        return NoBlueprintAnalysis;
      }
      if m.roadmap.None? || |m.roadmap.value.actions| == 0 {
        return NoRoadmap;
      }
      if !made {
        return CallFailed;
      }
      records := records[id := m.(blueprint := true)];
      answer := Ok;
    }

    method PublishMigration(id: nat, target: string, e: PublishEnv) returns (answer: Answer)
      modifies this
      ensures records == Next(adapters, old(records), Publish(id, target, e))
      ensures answer == Answered(old(records), Publish(id, target, e))
    {
      if id == 0 {
        return MissingIdentifier;
      }
      assert Visible(records, id) ==> records[id := records[id]] == records;
      if target == "" {
        return MissingPayload;
      }
      if !Visible(records, id) {
        return NotFoundError;
      }
      var m := records[id];
      if m.phase != Ready && m.phase != Pushed {
        return InvalidTransition;
      }
      if !e.listed {
        return CallFailed;
      }
      if |e.files| == 0 {
        return NoArtifacts;
      }
      var conflicts := DetectPathConflicts(e.files);
      if conflicts != [] {
        return ArtifactConflict;
      }
      if !e.pushed {
        return CallFailed;
      }
      if m.phase != Pushed {
        var done := UpdateState(id, Pushed, e.saved);
        if !done {
          return CallFailed;
        }
      }
      answer := Ok;
    }
  }
}
