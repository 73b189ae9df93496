/** `Pipeline.Run` of the generation worker as interleaved atomic steps: the spawning loop, one
    goroutine per service under a weighted semaphore, the record store, cancellation and the final
    READY/FAILED decision. */
module Generation {
  import opened Retry

  datatype Spec = Spec(name: string, incomplete: bool, reason: string)

  type Store = map<string, Record>

  /** What is fixed while one run lasts: the selected services, the records found at the start and
      the semaphore's weight. */
  datatype Config = Config(services: seq<Spec>, before: Store, concurrency: int)

  /** The services a run works on: those named by the filter, or all when the filter is empty. */
  function Selected(services: seq<Spec>, filter: seq<string>): seq<Spec> {
    if filter == [] then services else Keep(services, filter)
  }

  function Keep(services: seq<Spec>, filter: seq<string>): seq<Spec> {
    if services == [] then []
    else
      var n := |services| - 1;
      Keep(services[..n], filter) + if services[n].name in filter then [services[n]] else []
  }

  method SelectServices(services: seq<Spec>, filter: seq<string>) returns (r: seq<Spec>)
    ensures r == Selected(services, filter)
  {
    if |filter| == 0 {
      return services;
    }
    var filterSet := {};
    for i := 0 to |filter|
      invariant filterSet == set n | n in filter[..i]
    {
      filterSet := filterSet + {filter[i]};
      assert filter[..i + 1] == filter[..i] + [filter[i]];
    }
    assert filter[..|filter|] == filter;
    r := [];
    for i := 0 to |services|
      invariant r == Keep(services[..i], filter)
    {
      assert services[..i + 1][..i] == services[..i];
      if services[i].name in filterSet {
        r := r + [services[i]];
      }
    }
    assert services[..|services|] == services;
  }

  /** Exactly the named services are kept, in their order. */
  lemma {:induction false} KeepMembers(services: seq<Spec>, filter: seq<string>, svc: Spec)
    ensures svc in Keep(services, filter) <==> svc in services && svc.name in filter
  {
    if services != [] {
      var n := |services| - 1;
      KeepMembers(services[..n], filter, svc);
      assert services == services[..n] + [services[n]];
    }
  }

  /** Who is selected: everybody without a filter, and with one exactly the services it names. */
  lemma SelectedMembers(services: seq<Spec>, filter: seq<string>, svc: Spec)
    ensures svc in Selected(services, filter) <==> svc in services && (filter == [] || svc.name in filter)
    ensures filter == [] ==> Selected(services, filter) == services
  {
    KeepMembers(services, filter, svc);
  }

  ghost predicate Distinct(services: seq<Spec>) {
    forall i, j :: 0 <= i < j < |services| ==> services[i].name != services[j].name
  }

  /** Selecting keeps names distinct, so the run-wide properties apply to any filter. */
  lemma {:induction false} SelectedDistinct(services: seq<Spec>, filter: seq<string>)
    requires Distinct(services)
    ensures Distinct(Selected(services, filter))
  {
    if services != [] && filter != [] {
      var n := |services| - 1;
      SelectedDistinct(services[..n], filter);
      var kept := Keep(services[..n], filter);
      forall i | 0 <= i < |kept| ensures kept[i].name != services[n].name {
        KeepMembers(services[..n], filter, kept[i]);
      }
    }
  }

  /** Where a service is. `written` tells whether the last record of the service reached the store;
      the source only logs or drops that error. */
  datatype Job =
    | NotStarted
    | Skipped                              // done in an earlier run
    | Rejected(written: bool)              // incomplete specification
    | Queued                               // waiting for the semaphore
    | Refused(written: bool)               // the context ended while waiting
    | Opening                              // about to write "generating"
    | Calling(log: seq<Invocation>)        // the agent is running
    | Waiting(log: seq<Invocation>)        // backing off before a retry
    | Persisting(log: seq<Invocation>, cut: Err)
    | Storing(log: seq<Invocation>, cut: Err, written: bool)
    | Exited(log: seq<Invocation>, cut: Err, written: bool)

  /** How the run ended: which of the two state updates it called and whether the call worked, or that
      the final listing failed. */
  datatype Verdict = Undecided | MarkedReady(worked: bool) | MarkedFailed(worked: bool) | ListError

  datatype State = State(
    next: nat, jobs: seq<Job>, store: Store, artifacts: map<string, seq<Artifact>>,
    held: nat, cancelled: bool, verdict: Verdict)

  datatype Step =
    | Skip
    | Reject(wrote: bool)
    | Spawn
    | Acquire(i: nat)
    | Refuse(i: nat, wrote: bool)
    | MarkGenerating(i: nat, wrote: bool)
    | CallReturns(i: nat, answer: Invocation)
    | BackoffOver(i: nat)
    | BackoffCut(i: nat, why: string)
    | Persist(i: nat, wrote: bool)
    | StoreArtifacts(i: nat, wrote: bool)
    | Cancel
    | Decide(worked: bool)
    | ListFails

  predicate DoneIn(store: Store, name: string) {
    name in store && store[name].status == Done
  }

  predicate FailedIn(store: Store, name: string) {
    name in store && store[name].status == Failed
  }

  predicate Holds(j: Job) {
    j.Opening? || j.Calling? || j.Waiting? || j.Persisting? || j.Storing?
  }

  predicate Ended(j: Job) {
    j.Skipped? || j.Rejected? || j.Refused? || j.Exited?
  }

  function Init(c: Config): State {
    State(0, seq(|c.services|, i => NotStarted), c.before, map[], 0, false, Undecided)
  }

  /** Which kind of step the goroutine of service `i` may take. */
  predicate JobMay(c: Config, s: State, i: nat, st: Step) {
    && i < |s.jobs| && i < |c.services|
    && match st
       case Acquire(_) => s.jobs[i].Queued? && s.held < c.concurrency
       case Refuse(_, _) => s.jobs[i].Queued? && s.cancelled
       case MarkGenerating(_, _) => s.jobs[i].Opening?
       case CallReturns(_, _) => s.jobs[i].Calling?
       case BackoffOver(_) => s.jobs[i].Waiting?
       case BackoffCut(_, _) => s.jobs[i].Waiting? && s.cancelled
       case Persist(_, _) => s.jobs[i].Persisting?
       case StoreArtifacts(_, _) => s.jobs[i].Storing?
       case _ => false
  }

  predicate IsJobStep(st: Step) {
    !st.Skip? && !st.Reject? && !st.Spawn? && !st.Cancel? && !st.Decide? && !st.ListFails?
  }

  predicate Finished(c: Config, s: State) {
    s.next == |c.services| && forall i :: 0 <= i < |s.jobs| ==> Ended(s.jobs[i])
  }

  predicate Enabled(c: Config, s: State, st: Step) {
    && s.verdict == Undecided
    && (if IsJobStep(st) then JobMay(c, s, st.i, st)
        else if st.Cancel? then !s.cancelled
        else if st.Decide? || st.ListFails? then Finished(c, s)
        else
          && s.next < |c.services| && s.next < |s.jobs|
          && var svc := c.services[s.next];
             match st
             case Skip => DoneIn(c.before, svc.name)
             case Reject(_) => !DoneIn(c.before, svc.name) && svc.incomplete
             case _ => !DoneIn(c.before, svc.name) && !svc.incomplete)
  }

  function Put(store: Store, name: string, rec: Record, wrote: bool): Store {
    if wrote then store[name := rec] else store
  }

  const GENERATING := Record(Generating, false, "", 0, NO_USAGE)

  function FailedRecord(reason: string): Record {
    Record(Failed, false, reason, 0, NO_USAGE)
  }

  const NOT_STARTED_REASON := "context cancelled before generation started"

  /** Where the goroutine goes next. */
  function NextJob(j: Job, st: Step): Job {
    match (j, st)
    case (Queued, Acquire(_)) => Opening
    case (Queued, Refuse(_, wrote)) => Refused(wrote)
    case (Opening, MarkGenerating(_, _)) => Calling([])
    case (Calling(log), CallReturns(_, answer)) =>
      if Retriable(answer) && |log| + 1 < MAX_ATTEMPTS then Waiting(log + [answer])
      else Persisting(log + [answer], NoError)
    case (Waiting(log), BackoffOver(_)) => Calling(log)
    case (Waiting(log), BackoffCut(_, why)) => Persisting(log, Error(why))
    case (Persisting(log, cut), Persist(_, wrote)) => Storing(log, cut, wrote)
    case (Storing(log, cut, written), StoreArtifacts(_, _)) => Exited(log, cut, written)
    case _ => j
  }

  /** The record the goroutine's step writes, if it writes one. */
  function NextStore(store: Store, name: string, j: Job, st: Step): Store {
    match st
    case Refuse(_, wrote) => Put(store, name, FailedRecord(NOT_STARTED_REASON), wrote)
    case MarkGenerating(_, wrote) => Put(store, name, GENERATING, wrote)
    case Persist(_, wrote) =>
      if j.Persisting? && j.log != [] then Put(store, name, FinalRecord(j.log, j.cut), wrote) else store
    case _ => store
  }

  function NextArtifacts(artifacts: map<string, seq<Artifact>>, name: string, j: Job, st: Step)
    : map<string, seq<Artifact>>
  {
    if st.StoreArtifacts? && st.wrote && j.Storing? && j.log != [] && j.log[|j.log| - 1].artifacts != []
    then artifacts[name := j.log[|j.log| - 1].artifacts]
    else artifacts
  }

  function AnyFailed(store: Store): bool {
    exists n :: n in store && store[n].status == Failed
  }

  function Apply(c: Config, s: State, st: Step): State
    requires Enabled(c, s, st)
  {
    if IsJobStep(st) then
      var j := s.jobs[st.i];
      var name := c.services[st.i].name;
      s.(jobs := s.jobs[st.i := NextJob(j, st)],
         store := NextStore(s.store, name, j, st),
         artifacts := NextArtifacts(s.artifacts, name, j, st),
         held := if st.Acquire? then s.held + 1 else if st.StoreArtifacts? && s.held > 0 then s.held - 1 else s.held)
    else
      match st
      case Cancel => s.(cancelled := true)
      case Decide(worked) => s.(verdict := if AnyFailed(s.store) then MarkedFailed(worked) else MarkedReady(worked))
      case ListFails => s.(verdict := ListError)
      case Skip => s.(next := s.next + 1, jobs := s.jobs[s.next := Skipped])
      case Reject(wrote) =>
        var svc := c.services[s.next];
        s.(next := s.next + 1, jobs := s.jobs[s.next := Rejected(wrote)],
          store := Put(s.store, svc.name, FailedRecord(svc.reason), wrote))
      case _ => s.(next := s.next + 1, jobs := s.jobs[s.next := Queued])
  }

  /** `steps` lead from `s` to `t`. */
  ghost predicate Leads(c: Config, s: State, steps: seq<Step>, t: State)
    decreases |steps|
  {
    if steps == [] then s == t
    else Enabled(c, s, steps[0]) && Leads(c, Apply(c, s, steps[0]), steps[1..], t)
  }
}
