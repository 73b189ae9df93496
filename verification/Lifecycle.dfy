/** The life of a migration: the records of the repository, every use case and worker write as one
    atomic event, and what each event answers. */
module Lifecycle {
  import opened PathConflicts
  import opened Plans
  import opened Roadmaps
  import opened Wrappers

  datatype Phase =
    | Unspecified | Pending | Analyzing | Designing | AwaitingApproval | Generating | Testing
    | Ready | Pushed | Failed | Cancelled | RestructuringReady

  const NOT_MIGRABLE := "NOT_MIGRABLE"

  /** Language and database of the target; 0 is "unspecified". */
  datatype Target = Target(language: nat, database: nat)

  datatype Migration = Migration(
    phase: Phase, deleted: bool, owner: nat, repository: nat, url: string, target: Option<Target>,
    sourceSummary: nat, summary: nat, reused: bool,
    branch: string, plan: Option<Plan>, assessment: Option<Assessment>, override: bool,
    roadmap: Option<Roadmap>, enriched: bool, blueprint: bool)

  type Repository = map<nat, Migration>

  /** Whether the workers' store adapters guard their writes by the state that the port comments
      name, or write whatever the state is, as the shipped MongoDB adapters do for plans and for the
      final state of a generation. */
  datatype Adapters = PortContract | Shipped

  /** What asking for the repository's URL yields. */
  datatype UrlLookup = NoRepositoryClient | NoUrl | Url(url: string)

  /** The outcomes of the calls a creation makes: owner check, URL look-up, insert. */
  datatype CreateEnv = CreateEnv(ownerKnown: bool, lookup: UrlLookup, saved: bool)

  /** What `GetAnalysisSummary` yields on the reuse path. */
  datatype Lookup = NoClient | NotFound | Found(repository: nat, completed: bool, branch: string)

  /** The outcomes of the calls a start makes: connection probe, state write, adoption or dispatch,
      and the rollback write. */
  datatype StartEnv = StartEnv(lookup: Lookup, probe: bool, saved: bool, handedOver: bool, rolledBack: bool)

  datatype PublishEnv = PublishEnv(listed: bool, files: seq<File>, pushed: bool, saved: bool)

  datatype Event =
    // use cases of the service; `saved` tells whether the repository write succeeds
    | Create(id: nat, request: Option<Migration>, create: CreateEnv)
    | Start(id: nat, start: StartEnv)
    | Approve(id: nat, approved: bool, saved: bool)
    | Cancel(id: nat, saved: bool)
    | Delete(id: nat, saved: bool)
    | Assess(id: nat, assessed: Option<Assessment>, saved: bool)
    | Override(id: nat, value: bool, saved: bool)
    | MakeRoadmap(id: nat, roadmap: Roadmap, saved: bool)
    | Enrich(id: nat, enriched: bool)
    | MakeBlueprint(id: nat, made: bool)
    | Publish(id: nat, target: string, publish: PublishEnv)
    // writes of the analysis, decomposition and generation workers
    | AnalysisWritten(id: nat, summary: nat)
    | AnalysisReused(id: nat, summary: nat)
    | AnalysisFailed(id: nat)
    | PlanWritten(id: nat, plan: Plan)
    | DesignFailed(id: nat)
    | GenerationReady(id: nat)
    | GenerationFailed(id: nat)

  datatype Answer =
    | Ok | MissingIdentifier | MissingPayload | MissingOwner | MissingRepository | InvalidTarget | OwnerUnknown
    | RepositoryUnavailable | NotFoundError | InvalidTransition | NoBoundaries | NotMigrableBlocked
    | RoadmapUnavailable | NoRoadmap | NoBlueprintAnalysis | NoAnalysisSummary
    | SourceAnalysisNotFound | SourceAnalysisInvalid | NoArtifacts | ArtifactConflict | CallFailed

  predicate IsTerminal(p: Phase) {
    p == Pushed || p == Failed || p == Cancelled || p == RestructuringReady
  }

  predicate PlanBlocks(m: Migration) {
    m.plan.Some? && m.plan.value.noServiceBoundaries
  }

  predicate VerdictNotMigrable(m: Migration) {
    m.assessment.Some? && m.assessment.value.verdict == NOT_MIGRABLE
  }

  /** `migrabilityBlocked`. */
  predicate MigrabilityBlocked(m: Migration) {
    VerdictNotMigrable(m) && !m.override
  }

  /** A migration that `GetByID` finds; the identifier 0 is refused before any lookup. */
  predicate Visible(r: Repository, id: nat) {
    id != 0 && id in r && !r[id].deleted
  }

  // ---------------------------------------------------------------- the migration after an event

  function AfterStart(m: Migration, e: StartEnv): Migration {
    if m.phase != Pending then m
    else if m.sourceSummary != 0 then
      if e.lookup.NotFound? || (e.lookup.Found? && (e.lookup.repository != m.repository || !e.lookup.completed)) then m
      else if !e.probe || !e.saved then m
      else if !e.handedOver then (if e.rolledBack then m else m.(phase := Analyzing))
      else
        var branch := if m.branch == "" && e.lookup.Found? then e.lookup.branch else m.branch;
        m.(phase := Designing, summary := m.sourceSummary, reused := true, branch := branch)
    else if !e.probe || !e.saved then m
    else if !e.handedOver then (if e.rolledBack then m else m.(phase := Analyzing))
    else m.(phase := Analyzing)
  }

  function AfterApprove(m: Migration, approved: bool, saved: bool): Migration {
    if m.phase != AwaitingApproval || (approved && (PlanBlocks(m) || MigrabilityBlocked(m))) || !saved then m
    else m.(phase := if approved then Generating else Cancelled)
  }

  function AfterRoadmap(m: Migration, roadmap: Roadmap, saved: bool): Migration {
    if m.phase == AwaitingApproval && (VerdictNotMigrable(m) || PlanBlocks(m)) && saved
    then m.(phase := RestructuringReady, roadmap := Some(roadmap))
    else m
  }

  /** The roadmap that the code assembles for a migration, given the summary it can fetch. */
  ghost predicate RoadmapFor(m: Migration, fetched: Option<Summary>, roadmap: Roadmap) {
    var explanation := if m.plan.Some? then m.plan.value.explanation else "";
    var summary := if m.summary != 0 then fetched else None;
    RoadmapOf(Basis(m.assessment, summary, explanation), explanation, Infra(summary), roadmap)
  }

  function AfterPublish(m: Migration, target: string, e: PublishEnv): Migration {
    if target != "" && m.phase == Ready && e.listed && e.files != [] && SingleContent(e.files) && e.pushed && e.saved
    then m.(phase := Pushed)
    else m
  }

  predicate HasActions(m: Migration) {
    m.roadmap.Some? && m.roadmap.value.actions != []
  }

  function AfterEvent(a: Adapters, m: Migration, ev: Event): Migration {
    match ev
    case Create(_, _, _) => m
    case Start(_, e) => AfterStart(m, e)
    case Approve(_, approved, saved) => AfterApprove(m, approved, saved)
    case Cancel(_, saved) => if IsTerminal(m.phase) || !saved then m else m.(phase := Cancelled)
    case Delete(_, saved) => if IsTerminal(m.phase) && saved then m.(deleted := true) else m
    case Assess(_, assessed, saved) =>
      if m.summary != 0 && assessed.Some? && saved then m.(assessment := assessed) else m
    case Override(_, value, saved) => if saved then m.(override := value) else m
    case MakeRoadmap(_, roadmap, saved) => AfterRoadmap(m, roadmap, saved)
    case Enrich(_, enriched) =>
      if m.phase == RestructuringReady && HasActions(m) && enriched then m.(enriched := true) else m
    case MakeBlueprint(_, made) =>
      if m.phase == RestructuringReady && m.summary != 0 && HasActions(m) && made then m.(blueprint := true) else m
    case Publish(_, target, e) => AfterPublish(m, target, e)
    case AnalysisWritten(_, summary) =>
      if m.phase == Analyzing then m.(phase := Designing, summary := summary) else m
    case AnalysisReused(_, summary) =>
      if m.phase == Analyzing then m.(phase := Designing, summary := summary, reused := true) else m
    case AnalysisFailed(_) => if m.phase == Analyzing then m.(phase := Failed) else m
    case PlanWritten(_, plan) =>
      if a.Shipped? || m.phase == Designing then m.(phase := AwaitingApproval, plan := Some(plan)) else m
    case DesignFailed(_) => if m.phase == Designing then m.(phase := Failed) else m
    case GenerationReady(_) => if a.Shipped? || m.phase == Generating then m.(phase := Ready) else m
    case GenerationFailed(_) => if a.Shipped? || m.phase == Generating then m.(phase := Failed) else m
  }

  /** The repository after an event. A request for a used identifier or for an invisible migration
      changes nothing. */
  function Next(a: Adapters, r: Repository, ev: Event): Repository {
    if ev.Create? then
      if ev.id == 0 || ev.id in r || AnswerCreate(ev.request, ev.create) != Ok then r
      else r[ev.id := Created(ev.request.value, ev.create)]
    else if !Visible(r, ev.id) then r
    else r[ev.id := AfterEvent(a, r[ev.id], ev)]
  }

  /** The record a creation stores. */
  function Created(m: Migration, e: CreateEnv): Migration {
    m.(phase := Pending, deleted := false, reused := false, url := if e.lookup.Url? then e.lookup.url else m.url)
  }

  function Replay(a: Adapters, r: Repository, evs: seq<Event>): Repository {
    if evs == [] then r else Next(a, Replay(a, r, evs[..|evs| - 1]), evs[|evs| - 1])
  }

  // ---------------------------------------------------------------- what the caller is told

  function AnswerCreate(request: Option<Migration>, e: CreateEnv): Answer {
    if request.None? then MissingPayload
    else
      var m := request.value;
      if m.owner == 0 then MissingOwner
      else if m.repository == 0 then MissingRepository
      else if m.target.None? || m.target.value.language == 0 || m.target.value.database == 0 then InvalidTarget
      else if !e.ownerKnown then OwnerUnknown
      else if e.lookup.NoUrl? then RepositoryUnavailable
      else if !e.saved then CallFailed
      else Ok
  }

  function AnswerEnrich(m: Migration, enriched: bool): Answer {
    if m.phase != RestructuringReady then InvalidTransition
    else if !HasActions(m) then NoRoadmap
    else if enriched then Ok else CallFailed
  }

  function AnswerBlueprint(m: Migration, made: bool): Answer {
    if m.phase != RestructuringReady then InvalidTransition
    else if m.summary == 0 then NoBlueprintAnalysis
    else if !HasActions(m) then NoRoadmap
    else if made then Ok else CallFailed
  }

  function AnswerStart(m: Migration, e: StartEnv): Answer {
    if m.phase != Pending then InvalidTransition
    else if m.sourceSummary != 0 && e.lookup.NotFound? then SourceAnalysisNotFound
    else if m.sourceSummary != 0 && e.lookup.Found? &&
      (e.lookup.repository != m.repository || !e.lookup.completed) then SourceAnalysisInvalid
    else if !e.probe || !e.saved || !e.handedOver then CallFailed
    else Ok
  }

  function AnswerApprove(m: Migration, approved: bool, saved: bool): Answer {
    if m.phase != AwaitingApproval then InvalidTransition
    else if approved && PlanBlocks(m) then NoBoundaries
    else if approved && MigrabilityBlocked(m) then NotMigrableBlocked
    else if !saved then CallFailed
    else Ok
  }

  function AnswerRoadmap(m: Migration, saved: bool): Answer {
    if m.phase != AwaitingApproval then InvalidTransition
    else if !VerdictNotMigrable(m) && !PlanBlocks(m) then RoadmapUnavailable
    else if !saved then CallFailed
    else Ok
  }

  function AnswerPublish(m: Migration, e: PublishEnv): Answer {
    if m.phase != Ready && m.phase != Pushed then InvalidTransition
    else if !e.listed then CallFailed
    else if e.files == [] then NoArtifacts
    else if !SingleContent(e.files) then ArtifactConflict
    else if !e.pushed || (m.phase != Pushed && !e.saved) then CallFailed
    else Ok
  }

  /** The answer of a use case that names an existing migration. */
  function AnswerTo(m: Migration, ev: Event): Answer {
    match ev
    case Start(_, e) => AnswerStart(m, e)
    case Approve(_, approved, saved) => AnswerApprove(m, approved, saved)
    case Cancel(_, saved) => if IsTerminal(m.phase) then InvalidTransition else if saved then Ok else CallFailed
    case Delete(_, saved) => if !IsTerminal(m.phase) then InvalidTransition else if saved then Ok else CallFailed
    case Assess(_, assessed, saved) =>
      if m.summary == 0 then NoAnalysisSummary else if assessed.Some? && saved then Ok else CallFailed
    case Override(_, _, saved) => if saved then Ok else CallFailed
    case MakeRoadmap(_, _, saved) => AnswerRoadmap(m, saved)
    case Enrich(_, enriched) => AnswerEnrich(m, enriched)
    case MakeBlueprint(_, made) => AnswerBlueprint(m, made)
    case Publish(_, _, e) => AnswerPublish(m, e)
    case _ => Ok
  }

  function Answered(r: Repository, ev: Event): Answer {
    if ev.Create? then AnswerCreate(ev.request, ev.create)
    else if ev.id == 0 then MissingIdentifier
    else if ev.Publish? && ev.target == "" then MissingPayload
    else if !Visible(r, ev.id) then NotFoundError
    else AnswerTo(r[ev.id], ev)
  }
}
