/** Safety of the migration life cycle over every sequence of events. */
module LifecycleSafety {
  import opened Lifecycle
  import opened Plans
  import opened Wrappers

  // ---------------------------------------------------------------- one event

  /** An event touches no migration but its own. */
  lemma EventIsLocal(a: Adapters, r: Repository, ev: Event, id: nat)
    requires id != ev.id
    ensures id in Next(a, r, ev) <==> id in r
    ensures id in r ==> Next(a, r, ev)[id] == r[id]
  {
  }

  /** The state of a migration, or Unspecified when there is none. */
  function PhaseOf(r: Repository, id: nat): Phase {
    if id in r then r[id].phase else Unspecified
  }

  /** The gates an approval has to pass. */
  ghost predicate GatesPass(r: Repository, id: nat) {
    && Visible(r, id)
    && r[id].phase == AwaitingApproval
    && !PlanBlocks(r[id])
    && !(VerdictNotMigrable(r[id]) && !r[id].override)
  }

  /** GENERATING is entered exactly by an approval that passes the gates, whatever the adapters. */
  lemma GeneratingOnlyByApproval(a: Adapters, r: Repository, ev: Event, id: nat)
    ensures PhaseOf(Next(a, r, ev), id) == Generating && PhaseOf(r, id) != Generating <==>
      ev == Approve(id, true, true) && GatesPass(r, id)
  {
    if ev.id != id {
      EventIsLocal(a, r, ev, id);
    }
  }

  /** RESTRUCTURING_READY is entered exactly from AWAITING_APPROVAL by storing a roadmap for a migration
      that is NOT_MIGRABLE or has no boundaries. */
  lemma RestructuringOnlyByRoadmap(a: Adapters, r: Repository, ev: Event, id: nat)
    ensures PhaseOf(Next(a, r, ev), id) == RestructuringReady && PhaseOf(r, id) != RestructuringReady <==>
      && ev.MakeRoadmap? && ev.id == id && ev.saved && Visible(r, id) && r[id].phase == AwaitingApproval
      && (VerdictNotMigrable(r[id]) || PlanBlocks(r[id]))
    ensures PhaseOf(Next(a, r, ev), id) == RestructuringReady && PhaseOf(r, id) != RestructuringReady ==>
      ev.MakeRoadmap? && Next(a, r, ev)[id].roadmap == Some(ev.roadmap)
  {
    if ev.id != id {
      EventIsLocal(a, r, ev, id);
    }
  }

  /** Under the port contracts a terminal state is final. */
  lemma TerminalIsFinal(r: Repository, ev: Event, id: nat)
    requires id in r && IsTerminal(r[id].phase)
    ensures id in Next(PortContract, r, ev) && Next(PortContract, r, ev)[id].phase == r[id].phase
  {
    if ev.id != id {
      EventIsLocal(PortContract, r, ev, id);
    }
  }

  /** The start got as far as handing the work over, with the migration already in ANALYZING. */
  predicate ReachedHandover(m: Migration, e: StartEnv) {
    && m.phase == Pending && e.probe && e.saved
    && (m.sourceSummary != 0 ==>
          && !e.lookup.NotFound?
          && (e.lookup.Found? ==> e.lookup.repository == m.repository && e.lookup.completed))
  }

  /** A start either advances the migration and says so, or refuses; a refused start leaves it exactly as
      it was, so that it can be retried, if and only if it never reached the handover or the rollback
      write worked. Otherwise the migration is left in ANALYZING. */
  lemma StartMeaning(m: Migration, e: StartEnv)
    ensures AnswerStart(m, e) == Ok <==> ReachedHandover(m, e) && e.handedOver
    ensures AnswerStart(m, e) == Ok ==>
      AfterStart(m, e).phase == (if m.sourceSummary != 0 then Designing else Analyzing)
    ensures AnswerStart(m, e) == Ok && m.sourceSummary != 0 ==>
      AfterStart(m, e).summary == m.sourceSummary && AfterStart(m, e).reused
    ensures AnswerStart(m, e) != Ok ==> (AfterStart(m, e) == m <==> e.rolledBack || !ReachedHandover(m, e))
    ensures AnswerStart(m, e) != Ok && AfterStart(m, e) != m ==> AfterStart(m, e) == m.(phase := Analyzing)
  {
  }

  /** The event is a start whose handover and rollback both fail. */
  predicate Strands(r: Repository, ev: Event) {
    ev.Start? && Visible(r, ev.id) && ReachedHandover(r[ev.id], ev.start) && !ev.start.rolledBack
  }

  /** A use case that answers with an error has changed nothing, if and only if it is not such a start. */
  lemma RefusalChangesNothing(a: Adapters, r: Repository, ev: Event)
    requires Answered(r, ev) != Ok
    ensures Next(a, r, ev) == r <==> !Strands(r, ev)
  {
    if !ev.Create? && Visible(r, ev.id) {
      var m := r[ev.id];
      if ev.Start? {
        StartMeaning(m, ev.start);
      } else {
        RefusedUnchanged(a, m, ev);
      }
      hide AfterEvent, AnswerTo, ReachedHandover;
      assert Next(a, r, ev)[ev.id] == AfterEvent(a, m, ev);
      assert r[ev.id := m] == r;
    }
  }

  lemma RefusedUnchanged(a: Adapters, m: Migration, ev: Event)
    requires !ev.Start? && (AnswerTo(m, ev) != Ok || (ev.Publish? && ev.target == ""))
    ensures AfterEvent(a, m, ev) == m
  {
  }

  /** Which migrations can be deleted: those in one of the four terminal states, a restructured one
      included. */
  lemma DeletableIff(a: Adapters, r: Repository, id: nat)
    requires Visible(r, id)
    ensures Next(a, r, Delete(id, true))[id].deleted <==> r[id].phase in {Pushed, Failed, Cancelled, RestructuringReady}
  {
  }

  // ---------------------------------------------------------------- whole histories

  lemma {:induction false} TerminalForever(r: Repository, evs: seq<Event>, id: nat)
    requires id in r && IsTerminal(r[id].phase)
    ensures id in Replay(PortContract, r, evs) && Replay(PortContract, r, evs)[id].phase == r[id].phase
  {
    hide Next;
    if evs != [] {
      var n := |evs| - 1;
      TerminalForever(r, evs[..n], id);
      TerminalIsFinal(Replay(PortContract, r, evs[..n]), evs[n], id);
    }
  }

  /** What holds of every migration of a reachable repository, under the port contracts. */
  ghost predicate Healthy(m: Migration) {
    && (m.phase == RestructuringReady ==> m.roadmap.Some?)
    && (m.phase in {AwaitingApproval, Generating, Ready, Pushed, RestructuringReady} ==> m.plan.Some?)
    && (m.phase in {Generating, Ready, Pushed} ==> !PlanBlocks(m))
    && (m.phase in {Pending, Analyzing, Designing, AwaitingApproval, Generating, Ready} ==> !m.deleted)
    && m.phase != Unspecified && m.phase != Testing
  }

  ghost predicate AllHealthy(r: Repository) {
    forall id :: id in r ==> Healthy(r[id])
  }

  lemma EventKeepsHealthy(m: Migration, ev: Event)
    requires Healthy(m) && !m.deleted
    ensures Healthy(AfterEvent(PortContract, m, ev))
  {
  }

  lemma NextKeepsHealthy(r: Repository, ev: Event)
    requires AllHealthy(r)
    ensures AllHealthy(Next(PortContract, r, ev))
  {
    hide AfterEvent, Healthy;
    if ev.Create? {
      if ev.request.Some? {
        FreshIsHealthy(ev.request.value, ev.create);
      }
    } else if Visible(r, ev.id) {
      EventKeepsHealthy(r[ev.id], ev);
    }
  }

  lemma FreshIsHealthy(m: Migration, e: CreateEnv)
    ensures Healthy(Created(m, e))
  {
  }

  /** Every reachable repository is healthy: a migration in GENERATING, READY or PUSHED has a plan
      with boundaries, one in RESTRUCTURING_READY has a roadmap, only terminal ones are deleted. */
  lemma {:induction false} ReachableHealthy(evs: seq<Event>)
    ensures AllHealthy(Replay(PortContract, map[], evs))
  {
    hide Next, Healthy;
    if evs != [] {
      var n := |evs| - 1;
      ReachableHealthy(evs[..n]);
      NextKeepsHealthy(Replay(PortContract, map[], evs[..n]), evs[n]);
    }
  }

  /** READY is entered from GENERATING only, PUSHED from READY only. */
  lemma LatePhases(r: Repository, ev: Event, id: nat)
    ensures PhaseOf(Next(PortContract, r, ev), id) == Ready && PhaseOf(r, id) != Ready ==> PhaseOf(r, id) == Generating
    ensures PhaseOf(Next(PortContract, r, ev), id) == Pushed && PhaseOf(r, id) != Pushed ==> PhaseOf(r, id) == Ready
  {
    if ev.id != id {
      EventIsLocal(PortContract, r, ev, id);
    }
  }

  /** In every history, a migration that is in GENERATING, READY or PUSHED was approved at some point
      at which its plan had boundaries and its verdict was not NOT_MIGRABLE without override. */
  lemma {:induction false} GeneratedWasApproved(evs: seq<Event>, id: nat) returns (k: nat)
    requires PhaseOf(Replay(PortContract, map[], evs), id) in {Generating, Ready, Pushed}
    ensures k < |evs| && evs[k] == Approve(id, true, true) && GatesPass(Replay(PortContract, map[], evs[..k]), id)
  {
    hide Next, GatesPass;
    var n := |evs| - 1;
    if evs == [] {
      assert false;
    } else {
      var before := Replay(PortContract, map[], evs[..n]);
      LatePhases(before, evs[n], id);
      if PhaseOf(before, id) in {Generating, Ready, Pushed} {
        k := GeneratedWasApproved(evs[..n], id);
        assert evs[..n][..k] == evs[..k];
      } else {
        GeneratingOnlyByApproval(PortContract, before, evs[n], id);
        k := n;
      }
    }
  }

  /** Waiting for approval, or ended, with a plan without boundaries. */
  ghost predicate NoWayForward(r: Repository, id: nat) {
    id in r && PlanBlocks(r[id]) && r[id].phase in {AwaitingApproval, RestructuringReady, Cancelled}
  }

  lemma NoWayForwardStays(r: Repository, ev: Event, id: nat)
    requires NoWayForward(r, id)
    ensures NoWayForward(Next(PortContract, r, ev), id)
  {
    if ev.id != id {
      EventIsLocal(PortContract, r, ev, id);
    }
  }

  /** A migration that awaits approval with a no-boundaries plan never reaches GENERATING, READY or
      PUSHED, whatever happens afterwards. */
  lemma {:induction false} BlockedPlanNeverGenerates(r: Repository, evs: seq<Event>, id: nat)
    requires id in r && r[id].phase == AwaitingApproval && PlanBlocks(r[id])
    ensures NoWayForward(Replay(PortContract, r, evs), id)
    ensures PhaseOf(Replay(PortContract, r, evs), id) !in {Generating, Ready, Pushed}
  {
    hide Next;
    if evs != [] {
      var n := |evs| - 1;
      BlockedPlanNeverGenerates(r, evs[..n], id);
      NoWayForwardStays(Replay(PortContract, r, evs[..n]), evs[n], id);
    }
  }

  // ---------------------------------------------------------------- the shipped adapters

  /** A worker write that finds the migration in another state than its port comment says, and that
      changes it. */
  ghost predicate Stray(m: Migration, ev: Event) {
    match ev
    case PlanWritten(_, plan) => m.phase != Designing && !(m.phase == AwaitingApproval && m.plan == Some(plan))
    case GenerationReady(_) => m.phase != Generating && m.phase != Ready
    case GenerationFailed(_) => m.phase != Generating && m.phase != Failed
    case _ => false
  }

  /** The shipped adapters do what the ports promise exactly on events that are not stray. */
  lemma ShippedAgreesIffNotStray(r: Repository, ev: Event)
    ensures Next(Shipped, r, ev) == Next(PortContract, r, ev) <==> !(Visible(r, ev.id) && Stray(r[ev.id], ev))
  {
    if Visible(r, ev.id) && !ev.Create? {
      AfterEventAgrees(r[ev.id], ev);
      hide AfterEvent;
      assert Next(Shipped, r, ev)[ev.id] == AfterEvent(Shipped, r[ev.id], ev);
      assert Next(PortContract, r, ev)[ev.id] == AfterEvent(PortContract, r[ev.id], ev);
    }
  }

  lemma AfterEventAgrees(m: Migration, ev: Event)
    ensures AfterEvent(Shipped, m, ev) == AfterEvent(PortContract, m, ev) <==> !Stray(m, ev)
  {
  }

  /** With the shipped adapters a terminal state is left exactly by a late plan, a late READY, or a
      late FAILED on a state other than FAILED. */
  lemma ShippedTerminalIff(r: Repository, ev: Event, id: nat)
    requires id in r && IsTerminal(r[id].phase)
    ensures PhaseOf(Next(Shipped, r, ev), id) == r[id].phase <==> !(ev.id == id && Visible(r, id) && Stray(r[id], ev))
  {
    if ev.id != id {
      EventIsLocal(Shipped, r, ev, id);
    }
  }

  ghost predicate NoStray(r: Repository, evs: seq<Event>) {
    forall k :: 0 <= k < |evs| ==>
      var before := Replay(Shipped, r, evs[..k]);
      !(Visible(before, evs[k].id) && Stray(before[evs[k].id], evs[k]))
  }

  /** A history without stray writes is the same under both adapters, so everything proved for the
      port contracts holds of it. */
  lemma {:induction false} NoStrayReplaysAlike(r: Repository, evs: seq<Event>)
    requires NoStray(r, evs)
    ensures Replay(Shipped, r, evs) == Replay(PortContract, r, evs)
  {
    hide Next, Stray;
    if evs != [] {
      var n := |evs| - 1;
      var front := evs[..n];
      assert NoStray(r, front) by {
        forall k | 0 <= k < |front|
          ensures var before := Replay(Shipped, r, front[..k]);
            !(Visible(before, front[k].id) && Stray(before[front[k].id], front[k]))
        {
          assert front[..k] == evs[..k] && front[k] == evs[k];
        }
      }
      NoStrayReplaysAlike(r, front);
      ShippedAgreesIffNotStray(Replay(Shipped, r, front), evs[n]);
    }
  }

  // ---------------------------------------------------------------- two histories from the empty repository

  const REQUEST := Migration(
    Unspecified, false, 7, 8, "", Some(Target(1, 1)), 0, 0, false, "", None, None, false, None, false, false)

  const CREATE := Create(1, Some(REQUEST), CreateEnv(true, Url("u"), true))

  /** What the creation stores. */
  const CREATED := REQUEST.(phase := Pending, url := "u")

  const SPLIT_PLAN := Plan([ProposedService("s", "", [], [], [])], [], false, false, "")

  lemma OneMore(a: Adapters, r: Repository, evs: seq<Event>, ev: Event)
    ensures Replay(a, r, evs + [ev]) == Next(a, Replay(a, r, evs), ev)
  {
    assert (evs + [ev])[..|evs|] == evs;
  }

  lemma CreatedFirst(a: Adapters)
    ensures Replay(a, map[], [CREATE]) == map[1 := CREATED]
  {
    assert Replay(a, map[], []) == map[];
    assert [] + [CREATE] == [CREATE];
    OneMore(a, map[], [], CREATE);
  }

  /** One event on the only migration there is. */
  lemma Onward(a: Adapters, evs: seq<Event>, m: Migration, ev: Event)
    requires Replay(a, map[], evs) == map[1 := m] && !m.deleted && ev.id == 1 && !ev.Create?
    ensures Replay(a, map[], evs + [ev]) == map[1 := AfterEvent(a, m, ev)]
  {
    hide AfterEvent, Replay;
    OneMore(a, map[], evs, ev);
  }

  /** A start whose dispatch and rollback both fail: the caller gets an error, the migration stays in
      ANALYZING, and starting it again is refused. */
  lemma StrandedStart(a: Adapters)
    ensures var failing := Start(1, StartEnv(NoClient, true, true, false, false));
      && Answered(Replay(a, map[], [CREATE]), failing) == CallFailed
      && var r := Replay(a, map[], [CREATE] + [failing]);
         PhaseOf(r, 1) == Analyzing && forall e :: Answered(r, Start(1, e)) == InvalidTransition
  {
    hide Replay;
    CreatedFirst(a);
    Onward(a, [CREATE], CREATED, Start(1, StartEnv(NoClient, true, true, false, false)));
  }

  /** A history of the shipped system that leaves a terminal state: an approved migration is cancelled
      while the generation worker is busy, and the worker's final write makes it READY. */
  lemma CancelledBecomesReady() returns (evs: seq<Event>)
    ensures PhaseOf(Replay(Shipped, map[], evs), 1) == Cancelled
    ensures PhaseOf(Replay(Shipped, map[], evs + [GenerationReady(1)]), 1) == Ready
  {
    hide Replay;
    var m;
    evs, m := GeneratingHistory();
    Onward(Shipped, evs, m, Cancel(1, true));
    evs, m := evs + [Cancel(1, true)], m.(phase := Cancelled);
    Onward(Shipped, evs, m, GenerationReady(1));
  }

  lemma GeneratingHistory() returns (evs: seq<Event>, m: Migration)
    ensures Replay(Shipped, map[], evs) == map[1 := m] && m.phase == Generating && !m.deleted
  {
    hide Replay;
    evs, m := DesigningHistory();
    Onward(Shipped, evs, m, PlanWritten(1, SPLIT_PLAN));
    evs, m := evs + [PlanWritten(1, SPLIT_PLAN)], m.(phase := AwaitingApproval, plan := Some(SPLIT_PLAN));
    Onward(Shipped, evs, m, Approve(1, true, true));
    evs, m := evs + [Approve(1, true, true)], m.(phase := Generating);
  }

  lemma DesigningHistory() returns (evs: seq<Event>, m: Migration)
    ensures Replay(Shipped, map[], evs) == map[1 := m] && m.phase == Designing && !m.deleted && m.assessment == None
  {
    hide Replay;
    CreatedFirst(Shipped);
    var start := Start(1, StartEnv(NoClient, true, true, true, true));
    evs, m := [CREATE], CREATED;
    Onward(Shipped, evs, m, start);
    evs, m := evs + [start], m.(phase := Analyzing);
    Onward(Shipped, evs, m, AnalysisWritten(1, 5));
    evs, m := evs + [AnalysisWritten(1, 5)], m.(phase := Designing, summary := 5);
  }
}
