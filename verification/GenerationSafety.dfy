/** Properties of every interleaving of a generation run. */
module GenerationSafety {
  import opened Retry
  import opened Generation
  import opened Text

  // ---------------------------------------------------------------- totals over the jobs

  function Total(f: Job -> nat, jobs: seq<Job>): nat {
    if jobs == [] then 0 else f(jobs[0]) + Total(f, jobs[1..])
  }

  lemma {:induction false} TotalUpdate(f: Job -> nat, jobs: seq<Job>, i: nat, j: Job)
    requires i < |jobs|
    ensures Total(f, jobs[i := j]) + f(jobs[i]) == Total(f, jobs) + f(j)
  {
    if i == 0 {
      assert jobs[0 := j][1..] == jobs[1..];
    } else {
      assert jobs[i := j][1..] == jobs[1..][i - 1 := j];
      TotalUpdate(f, jobs[1..], i - 1, j);
    }
  }

  lemma {:induction false} TotalLe(f: Job -> nat, h: Job -> nat, jobs: seq<Job>)
    requires forall j :: f(j) <= h(j)
    ensures Total(f, jobs) <= Total(h, jobs)
  {
    if jobs != [] {
      TotalLe(f, h, jobs[1..]);
    }
  }

  lemma {:induction false} TotalZero(f: Job -> nat, jobs: seq<Job>)
    ensures Total(f, jobs) == 0 <==> forall i :: 0 <= i < |jobs| ==> f(jobs[i]) == 0
  {
    if jobs != [] {
      TotalZero(f, jobs[1..]);
      assert forall i :: 0 <= i < |jobs[1..]| ==> jobs[1..][i] == jobs[i + 1];
      assert forall i :: 1 <= i < |jobs| ==> jobs[i] == jobs[1..][i - 1];
    }
  }

  lemma {:induction false} TotalConstant(f: Job -> nat, jobs: seq<Job>, k: nat)
    requires forall i :: 0 <= i < |jobs| ==> f(jobs[i]) == k
    ensures Total(f, jobs) == k * |jobs|
  {
    if jobs != [] {
      assert forall i :: 0 <= i < |jobs[1..]| ==> jobs[1..][i] == jobs[i + 1];
      TotalConstant(f, jobs[1..], k);
    }
  }

  function HoldsOne(j: Job): nat { if Holds(j) then 1 else 0 }

  function CallingOne(j: Job): nat { if j.Calling? then 1 else 0 }

  // ---------------------------------------------------------------- the semaphore

  ghost predicate Shape(c: Config, s: State) {
    && |s.jobs| == |c.services|
    && s.next <= |c.services|
    && (forall i :: 0 <= i < |s.jobs| ==> (s.jobs[i].NotStarted? <==> s.next <= i))
    && s.held == Total(HoldsOne, s.jobs)
    && (s.held == 0 || s.held <= c.concurrency)
  }

  lemma InitShape(c: Config)
    ensures Shape(c, Init(c))
  {
    TotalConstant(HoldsOne, Init(c).jobs, 0);
  }

  lemma StepShape(c: Config, s: State, st: Step)
    requires Shape(c, s) && Enabled(c, s, st)
    ensures Shape(c, Apply(c, s, st))
  {
    if IsJobStep(st) {
      JobStepShape(c, s, st);
    } else {
      MainStepShape(c, s, st);
    }
  }

  lemma JobStepShape(c: Config, s: State, st: Step)
    requires Shape(c, s) && IsJobStep(st) && Enabled(c, s, st)
    ensures Shape(c, Apply(c, s, st))
  {
    hide NextStore, NextArtifacts, Retriable;
    TotalUpdate(HoldsOne, s.jobs, st.i, NextJob(s.jobs[st.i], st));
    assert HoldsOne(s.jobs[st.i]) <= Total(HoldsOne, s.jobs) by { TotalAtLeast(HoldsOne, s.jobs, st.i); }
  }

  lemma {:induction false} TotalAtLeast(f: Job -> nat, jobs: seq<Job>, i: nat)
    requires i < |jobs|
    ensures f(jobs[i]) <= Total(f, jobs)
  {
    if i > 0 {
      TotalAtLeast(f, jobs[1..], i - 1);
    }
  }

  lemma MainStepShape(c: Config, s: State, st: Step)
    requires Shape(c, s) && !IsJobStep(st) && Enabled(c, s, st)
    ensures Shape(c, Apply(c, s, st))
  {
    hide NextStore, NextArtifacts, Retriable, AnyFailed, Finished;
    var t := Apply(c, s, st);
    if st.Skip? || st.Reject? || st.Spawn? {
      TotalUpdate(HoldsOne, s.jobs, s.next, t.jobs[s.next]);
    }
  }

  // ---------------------------------------------------------------- the logs

  ghost predicate LogOk(j: Job) {
    match j
    case Calling(log) => OpenLog(log)
    case Waiting(log) => OpenLog(log) && log != []
    case Persisting(log, cut) => ClosedLog(log, cut)
    case Storing(log, cut, _) => ClosedLog(log, cut)
    case Exited(log, cut, _) => ClosedLog(log, cut)
    case _ => true
  }

  ghost predicate Logs(s: State) {
    forall i :: 0 <= i < |s.jobs| ==> LogOk(s.jobs[i])
  }

  lemma NextLogOk(c: Config, s: State, st: Step)
    requires IsJobStep(st) && Enabled(c, s, st) && LogOk(s.jobs[st.i])
    ensures LogOk(NextJob(s.jobs[st.i], st))
  {
    hide Retriable;
  }

  lemma StepLogs(c: Config, s: State, st: Step)
    requires Logs(s) && Enabled(c, s, st)
    ensures Logs(Apply(c, s, st))
  {
    hide LogOk;
    var t := Apply(c, s, st);
    if IsJobStep(st) {
      NextLogOk(c, s, st);
      assert forall i :: 0 <= i < |t.jobs| && i != st.i ==> t.jobs[i] == s.jobs[i];
    } else {
      forall i | 0 <= i < |t.jobs| ensures LogOk(t.jobs[i]) {
        if t.jobs[i] != s.jobs[i] {
          NoLogOk(t.jobs[i]);
        }
      }
    }
  }

  lemma NoLogOk(j: Job)
    requires j.Skipped? || j.Rejected? || j.Queued? || j.NotStarted?
    ensures LogOk(j)
  {
  }

  // ---------------------------------------------------------------- the record store

  /** What the store holds for a service, seen from its goroutine. */
  ghost predicate RecordOk(c: Config, store: Store, svc: Spec, j: Job) {
    match j
    case NotStarted => DoneIn(c.before, svc.name) || !DoneIn(store, svc.name)
    case Skipped => DoneIn(c.before, svc.name)
    case Rejected(written) =>
      !DoneIn(c.before, svc.name) && !DoneIn(store, svc.name) && (written ==> FailedIn(store, svc.name))
    case Refused(written) =>
      !DoneIn(c.before, svc.name) && !DoneIn(store, svc.name) && (written ==> FailedIn(store, svc.name))
    case Storing(log, cut, written) => !DoneIn(c.before, svc.name) && LastWrite(store, svc.name, log, cut, written)
    case Exited(log, cut, written) => !DoneIn(c.before, svc.name) && LastWrite(store, svc.name, log, cut, written)
    case _ => !DoneIn(c.before, svc.name) && !DoneIn(store, svc.name)
  }

  /** The final record is in the store, or its write was lost and an older record, not Done, is. */
  ghost predicate LastWrite(store: Store, name: string, log: seq<Invocation>, cut: Err, written: bool) {
    && log != []
    && if written then name in store && store[name] == FinalRecord(log, cut) else !DoneIn(store, name)
  }

  ghost predicate Records(c: Config, s: State) {
    |s.jobs| == |c.services| && forall i :: 0 <= i < |s.jobs| ==> RecordOk(c, s.store, c.services[i], s.jobs[i])
  }

  /** The store differs from `store` at most at `name`. */
  ghost predicate SameExcept(store: Store, store': Store, name: string) {
    forall n :: n != name ==> (n in store <==> n in store') && (n in store ==> store[n] == store'[n])
  }

  lemma OtherRecordOk(c: Config, store: Store, store': Store, name: string, svc: Spec, j: Job)
    requires SameExcept(store, store', name) && svc.name != name && RecordOk(c, store, svc, j)
    ensures RecordOk(c, store', svc, j)
  {
  }

  lemma NextRecordOk(c: Config, s: State, st: Step)
    requires IsJobStep(st) && Enabled(c, s, st) && LogOk(s.jobs[st.i])
    requires RecordOk(c, s.store, c.services[st.i], s.jobs[st.i])
    ensures RecordOk(c, NextStore(s.store, c.services[st.i].name, s.jobs[st.i], st), c.services[st.i],
      NextJob(s.jobs[st.i], st))
  {
    hide Retriable, FinalRecord;
  }

  lemma NextStoreElsewhere(store: Store, name: string, j: Job, st: Step)
    ensures SameExcept(store, NextStore(store, name, j, st), name)
  {
  }

  lemma StepRecords(c: Config, s: State, st: Step)
    requires Distinct(c.services) && Records(c, s) && Logs(s) && Shape(c, s) && Enabled(c, s, st)
    ensures Records(c, Apply(c, s, st))
  {
    if IsJobStep(st) {
      JobStepRecords(c, s, st);
    } else {
      MainStepRecords(c, s, st);
    }
  }

  lemma JobStepRecords(c: Config, s: State, st: Step)
    requires Distinct(c.services) && Records(c, s) && Logs(s) && IsJobStep(st) && Enabled(c, s, st)
    ensures Records(c, Apply(c, s, st))
  {
    hide RecordOk, LogOk, NextJob, NextStore, NextArtifacts, SameExcept;
    var t := Apply(c, s, st);
    NextRecordOk(c, s, st);
    NextStoreElsewhere(s.store, c.services[st.i].name, s.jobs[st.i], st);
    forall i | 0 <= i < |t.jobs| && i != st.i ensures RecordOk(c, t.store, c.services[i], t.jobs[i]) {
      OtherRecordOk(c, s.store, t.store, c.services[st.i].name, c.services[i], s.jobs[i]);
    }
  }

  lemma MainStepRecords(c: Config, s: State, st: Step)
    requires Distinct(c.services) && Records(c, s) && Shape(c, s) && !IsJobStep(st) && Enabled(c, s, st)
    ensures Records(c, Apply(c, s, st))
  {
    hide FinalRecord, Total;
    var t := Apply(c, s, st);
    if st.Reject? {
      forall i | 0 <= i < |t.jobs| && i != s.next ensures RecordOk(c, t.store, c.services[i], t.jobs[i]) {
        OtherRecordOk(c, s.store, t.store, c.services[s.next].name, c.services[i], s.jobs[i]);
      }
    }
  }

  /** A record that is Done is never touched again. */
  lemma StepKeepsDone(c: Config, s: State, st: Step, name: string)
    requires Records(c, s) && Shape(c, s) && Enabled(c, s, st) && DoneIn(s.store, name)
    ensures DoneIn(Apply(c, s, st).store, name) && Apply(c, s, st).store[name] == s.store[name]
  {
    hide FinalRecord, Total, Retriable;
    if IsJobStep(st) {
      assert RecordOk(c, s.store, c.services[st.i], s.jobs[st.i]);
    } else if st.Reject? {
      assert RecordOk(c, s.store, c.services[s.next], s.jobs[s.next]);
    }
  }

  /** What each successful record write puts into the store, and that nothing else is written. */
  lemma WrittenRecords(c: Config, s: State, st: Step)
    requires Enabled(c, s, st) && (IsJobStep(st) ==> LogOk(s.jobs[st.i]))
    ensures var t := Apply(c, s, st).store;
      match st
      case Reject(true) =>
        var svc := c.services[s.next];
        && svc.incomplete && svc.name in t && t[svc.name].status == Failed && t[svc.name].reason == svc.reason
      case Refuse(i, true) =>
        var n := c.services[i].name;
        n in t && t[n].status == Failed && t[n].reason == "context cancelled before generation started"
      case MarkGenerating(i, true) => c.services[i].name in t && t[c.services[i].name].status == Generating
      case Persist(i, true) =>
        c.services[i].name in t && t[c.services[i].name] == FinalRecord(s.jobs[i].log, s.jobs[i].cut)
      case _ => t == s.store
  {
    hide Retriable, FinalRecord, Finished, AnyFailed, NextArtifacts;
  }

  /** The captured files are stored exactly when the last answer has any and the write works. */
  lemma WrittenArtifacts(c: Config, s: State, st: Step)
    requires Enabled(c, s, st) && (IsJobStep(st) ==> LogOk(s.jobs[st.i]))
    ensures var t := Apply(c, s, st).artifacts;
      if st.StoreArtifacts? && st.wrote && s.jobs[st.i].log[|s.jobs[st.i].log| - 1].artifacts != []
      then t == s.artifacts[c.services[st.i].name := s.jobs[st.i].log[|s.jobs[st.i].log| - 1].artifacts]
      else t == s.artifacts
  {
    hide Retriable, FinalRecord, Finished, AnyFailed, NextStore;
  }

  /** A backoff that the context cuts short ends in a failure; one that it does not goes on to the next
      call. */
  lemma BackoffStep(c: Config, s: State, st: Step)
    requires Enabled(c, s, st) && (st.BackoffCut? || st.BackoffOver?)
    ensures s.jobs[st.i].Waiting?
    ensures Apply(c, s, st).jobs[st.i] ==
      if st.BackoffCut? then Persisting(s.jobs[st.i].log, Error(st.why)) else Calling(s.jobs[st.i].log)
    ensures st.BackoffCut? ==> s.cancelled
  {
  }

  // ---------------------------------------------------------------- whole runs

  ghost predicate Sound(c: Config, s: State) {
    Shape(c, s) && Logs(s) && (Distinct(c.services) ==> Records(c, s))
  }

  lemma InitSound(c: Config)
    ensures Sound(c, Init(c))
  {
    InitShape(c);
  }

  lemma StepSound(c: Config, s: State, st: Step)
    requires Sound(c, s) && Enabled(c, s, st)
    ensures Sound(c, Apply(c, s, st))
  {
    StepShape(c, s, st);
    StepLogs(c, s, st);
    if Distinct(c.services) {
      StepRecords(c, s, st);
    }
    hide Shape, Logs, Records, Enabled, Distinct;
  }

  lemma {:induction false} RunSound(c: Config, s: State, steps: seq<Step>, t: State)
    requires Sound(c, s) && Leads(c, s, steps, t)
    ensures Sound(c, t)
    decreases |steps|
  {
    hide Sound, Enabled;
    if steps != [] {
      StepSound(c, s, steps[0]);
      RunSound(c, Apply(c, s, steps[0]), steps[1..], t);
    }
  }

  /** In every interleaving the agents in flight never exceed the configured concurrency. */
  lemma InFlightBounded(c: Config, steps: seq<Step>, t: State)
    requires Leads(c, Init(c), steps, t)
    ensures Total(CallingOne, t.jobs) == 0 || Total(CallingOne, t.jobs) <= c.concurrency
  {
    InitSound(c);
    RunSound(c, Init(c), steps, t);
    TotalLe(CallingOne, HoldsOne, t.jobs);
  }

  /** The same rule in the interleaved run: after an answer worth a retry among the first two the goroutine
      backs off, after any other it persists. */
  lemma AnswerDecidesStep(c: Config, s: State, i: nat, answer: Invocation)
    requires Enabled(c, s, CallReturns(i, answer)) && LogOk(s.jobs[i])
    ensures var log, j := s.jobs[i].log + [answer], Apply(c, s, CallReturns(i, answer)).jobs[i];
      j == if WorthRetry(answer) && |log| < 3 then Waiting(log) else Persisting(log, NoError)
  {
    RetriableMeaning(answer);
    hide WorthRetry, Retriable;
  }

  /** In every interleaving the calls of a service that is through obey the rule too. */
  lemma CallsByAnswers(c: Config, steps: seq<Step>, t: State, i: nat)
    requires Leads(c, Init(c), steps, t) && i < |t.jobs| && t.jobs[i].Exited?
    ensures AnswersDecide(t.jobs[i].log, t.jobs[i].cut)
  {
    CallsBounded(c, steps, t, i);
    ClosedLogAnswers(t.jobs[i].log, t.jobs[i].cut);
  }

  /** In every interleaving each service gets at most three calls, all but the last of them
      retriable, and a finished one was called at least once. */
  lemma CallsBounded(c: Config, steps: seq<Step>, t: State, i: nat)
    requires Leads(c, Init(c), steps, t) && i < |t.jobs|
    ensures t.jobs[i].Calling? ==> OpenLog(t.jobs[i].log)
    ensures t.jobs[i].Exited? ==> ClosedLog(t.jobs[i].log, t.jobs[i].cut)
  {
    InitSound(c);
    RunSound(c, Init(c), steps, t);
    assert LogOk(t.jobs[i]);
  }

  /** Once a record is Done it stays as it is until the run ends, in every interleaving. */
  lemma {:induction false} RunKeepsDone(c: Config, s: State, steps: seq<Step>, t: State, name: string)
    requires Distinct(c.services) && Sound(c, s) && Leads(c, s, steps, t) && DoneIn(s.store, name)
    ensures DoneIn(t.store, name) && t.store[name] == s.store[name]
    decreases |steps|
  {
    if steps != [] {
      StepKeepsDone(c, s, steps[0], name);
      StepSound(c, s, steps[0]);
      hide Sound, Enabled;
      RunKeepsDone(c, Apply(c, s, steps[0]), steps[1..], t, name);
    }
  }

  /** One run of the pipeline after another on the same store: configuration and steps of each. */
  datatype RunOf = RunOf(c: Config, steps: seq<Step>, end: State)

  ghost predicate Chain(store: Store, runs: seq<RunOf>)
    decreases |runs|
  {
    if runs == [] then true
    else
      && runs[0].c.before == store && Distinct(runs[0].c.services)
      && Leads(runs[0].c, Init(runs[0].c), runs[0].steps, runs[0].end)
      && Chain(runs[0].end.store, runs[1..])
  }

  function LastStore(store: Store, runs: seq<RunOf>): Store
    decreases |runs|
  {
    if runs == [] then store else LastStore(runs[0].end.store, runs[1..])
  }

  /** Re-running is idempotent on finished services: a Done record survives any later runs. */
  lemma {:induction false} LaterRunsKeepDone(store: Store, runs: seq<RunOf>, name: string)
    requires Chain(store, runs) && DoneIn(store, name)
    ensures DoneIn(LastStore(store, runs), name) && LastStore(store, runs)[name] == store[name]
    decreases |runs|
  {
    if runs != [] {
      var r := runs[0];
      InitSound(r.c);
      RunKeepsDone(r.c, Init(r.c), r.steps, r.end, name);
      hide Sound, Leads, Distinct;
      LaterRunsKeepDone(r.end.store, runs[1..], name);
    }
  }

  // ---------------------------------------------------------------- names outside the selection

  ghost predicate Selects(c: Config, name: string) {
    exists i :: 0 <= i < |c.services| && c.services[i].name == name
  }

  lemma {:induction false} UnselectedUntouched(c: Config, s: State, steps: seq<Step>, t: State, name: string)
    requires Leads(c, s, steps, t) && !Selects(c, name)
    ensures (name in t.store <==> name in s.store) && (name in s.store ==> t.store[name] == s.store[name])
    decreases |steps|
  {
    if steps != [] {
      hide Enabled, Selects;
      UnselectedStep(c, s, steps[0], name);
      UnselectedUntouched(c, Apply(c, s, steps[0]), steps[1..], t, name);
    }
  }

  lemma UnselectedStep(c: Config, s: State, st: Step, name: string)
    requires Enabled(c, s, st) && !Selects(c, name)
    ensures name in Apply(c, s, st).store <==> name in s.store
    ensures name in s.store ==> Apply(c, s, st).store[name] == s.store[name]
  {
    hide FinalRecord, Retriable;
    assert forall i :: 0 <= i < |c.services| ==> c.services[i].name != name;
  }

  // ---------------------------------------------------------------- the final decision

  predicate Decided(v: Verdict) {
    v.MarkedReady? || v.MarkedFailed?
  }

  lemma StopsAfterVerdict(c: Config, s: State, steps: seq<Step>, t: State)
    requires Leads(c, s, steps, t) && s.verdict != Undecided
    ensures t == s && steps == []
  {
  }

  lemma {:induction false} DecidedAt(c: Config, s: State, steps: seq<Step>, t: State)
    requires Sound(c, s) && Leads(c, s, steps, t) && s.verdict == Undecided && Decided(t.verdict)
    ensures Sound(c, t) && Finished(c, t)
    ensures t.verdict.MarkedReady? <==> !AnyFailed(t.store)
    decreases |steps|
  {
    var st := steps[0];
    StepSound(c, s, st);
    hide Sound, AnyFailed, NextJob, NextStore, NextArtifacts;
    if st.Decide? || st.ListFails? {
      StopsAfterVerdict(c, Apply(c, s, st), steps[1..], t);
    } else {
      DecidedAt(c, Apply(c, s, st), steps[1..], t);
    }
  }

  lemma VerdictStep(c: Config, s: State, st: Step)
    requires Enabled(c, s, st)
    ensures Apply(c, s, st).verdict != Undecided <==> st.Decide? || st.ListFails?
    ensures Decided(Apply(c, s, st).verdict) <==> st.Decide?
  {
    hide NextJob, NextStore, NextArtifacts, AnyFailed, Finished;
  }

  /** MarkReady and MarkFailed are called once together: a run decides in its last step and in no other,
      and it has called one of them exactly when that step is not a failed listing. */
  lemma {:induction false} DecidesOnceAtTheEnd(c: Config, s: State, steps: seq<Step>, t: State)
    requires Leads(c, s, steps, t) && s.verdict == Undecided
    ensures forall k :: 0 <= k < |steps| - 1 ==> !steps[k].Decide? && !steps[k].ListFails?
    ensures t.verdict != Undecided <==> steps != [] && (steps[|steps| - 1].Decide? || steps[|steps| - 1].ListFails?)
    ensures Decided(t.verdict) <==> steps != [] && steps[|steps| - 1].Decide?
    decreases |steps|
  {
    if steps != [] {
      var m := Apply(c, s, steps[0]);
      VerdictStep(c, s, steps[0]);
      hide Enabled;
      if m.verdict != Undecided {
        StopsAfterVerdict(c, m, steps[1..], t);
      } else {
        DecidesOnceAtTheEnd(c, m, steps[1..], t);
        assert forall k :: 1 <= k < |steps| ==> steps[k] == steps[1..][k - 1];
      }
    }
  }

  /** Every decided run: READY is announced exactly when no persisted record is Failed. */
  lemma DecisionRule(c: Config, steps: seq<Step>, t: State)
    requires Leads(c, Init(c), steps, t) && Decided(t.verdict)
    ensures t.verdict.MarkedReady? <==> forall n :: !FailedIn(t.store, n)
  {
    InitSound(c);
    DecidedAt(c, Init(c), steps, t);
    hide Leads, Sound;
    AnyFailedMeaning(t.store);
  }

  lemma AnyFailedMeaning(store: Store)
    ensures AnyFailed(store) <==> exists n :: FailedIn(store, n)
  {
    if AnyFailed(store) {
      var n :| n in store && store[n].status == Failed;
      assert FailedIn(store, n);
    }
    if n :| FailedIn(store, n) {
      assert n in store && store[n].status == Failed;
    }
  }

  // ---------------------------------------------------------------- lost writes

  /** The write of a service's last record fails: the source logs or drops the error and goes on. */
  predicate LosesRecord(st: Step) {
    (st.Reject? || st.Refuse? || st.Persist?) && !st.wrote
  }

  ghost predicate NothingLost(steps: seq<Step>) {
    forall k :: 0 <= k < |steps| ==> !LosesRecord(steps[k])
  }

  predicate Lost(j: Job) {
    (j.Rejected? || j.Refused? || j.Storing? || j.Exited?) && !j.written
  }

  ghost predicate NoneLost(jobs: seq<Job>) {
    forall i :: 0 <= i < |jobs| ==> !Lost(jobs[i])
  }

  lemma StepLost(c: Config, s: State, st: Step)
    requires Shape(c, s) && Enabled(c, s, st)
    ensures NoneLost(Apply(c, s, st).jobs) <==> NoneLost(s.jobs) && !LosesRecord(st)
  {
    hide Total, Retriable, NextStore, NextArtifacts, AnyFailed, Finished;
    var t := Apply(c, s, st);
    var at := if IsJobStep(st) then st.i else s.next;
    if at < |s.jobs| {
      assert forall i :: 0 <= i < |s.jobs| && i != at ==> t.jobs[i] == s.jobs[i];
      assert Lost(t.jobs[at]) <==> Lost(s.jobs[at]) || LosesRecord(st);
    }
  }

  lemma {:induction false} RunLost(c: Config, s: State, steps: seq<Step>, t: State)
    requires Sound(c, s) && Leads(c, s, steps, t)
    ensures NoneLost(t.jobs) <==> NoneLost(s.jobs) && NothingLost(steps)
    decreases |steps|
  {
    if steps != [] {
      var st := steps[0];
      StepLost(c, s, st);
      StepSound(c, s, st);
      hide Sound, Enabled, NoneLost, LosesRecord;
      RunLost(c, Apply(c, s, st), steps[1..], t);
      assert forall k :: 1 <= k < |steps| ==> steps[k] == steps[1..][k - 1];
      assert forall k :: 0 <= k < |steps[1..]| ==> steps[1..][k] == steps[k + 1];
    }
  }

  /** How a service ended, on any store: it is Done exactly when it was Done before, or its last call
      succeeded and the final record was written; and it is Done or Failed unless that write was lost. */
  lemma EndedRecord(c: Config, steps: seq<Step>, t: State, i: nat)
    requires Distinct(c.services) && Leads(c, Init(c), steps, t) && Finished(c, t) && i < |c.services| == |t.jobs|
    ensures var j := t.jobs[i];
      DoneIn(t.store, c.services[i].name) <==>
        DoneIn(c.before, c.services[i].name) || (j.Exited? && j.written && j.log != [] && Succeeded(j.log[|j.log| - 1]))
    ensures !Lost(t.jobs[i]) ==> DoneIn(t.store, c.services[i].name) || FailedIn(t.store, c.services[i].name)
  {
    InitSound(c);
    RunSound(c, Init(c), steps, t);
    var j := t.jobs[i];
    assert RecordOk(c, t.store, c.services[i], j) && LogOk(j) && Ended(j);
    if DoneIn(c.before, c.services[i].name) {
      RunKeepsDone(c, Init(c), steps, t, c.services[i].name);
    } else if j.Exited? {
      hide Leads, Total;
      FinalRecordMeaning(j.log, j.cut);
    }
  }

  ghost predicate AllDone(c: Config, store: Store) {
    forall i :: 0 <= i < |c.services| ==> DoneIn(store, c.services[i].name)
  }

  /** When a READY run means that every selected service is done: exactly when no write of a last record
      was lost. Lost "generating" and artifact writes do not matter. */
  lemma ReadyMeansDoneIff(c: Config, steps: seq<Step>, t: State)
    requires Distinct(c.services) && Leads(c, Init(c), steps, t) && t.verdict.MarkedReady?
    ensures AllDone(c, t.store) <==> NothingLost(steps)
  {
    InitSound(c);
    DecidedAt(c, Init(c), steps, t);
    RunLost(c, Init(c), steps, t);
    assert |t.jobs| == |c.services|;
    AnyFailedMeaning(t.store);
    hide Leads, Sound, Finished;
    assert NoneLost(Init(c).jobs);
    forall i | 0 <= i < |c.services| ensures DoneIn(t.store, c.services[i].name) <==> !Lost(t.jobs[i]) {
      FinishedJob(c, steps, t, i);
    }
  }

  lemma FinishedJob(c: Config, steps: seq<Step>, t: State, i: nat)
    requires Distinct(c.services) && Leads(c, Init(c), steps, t) && Sound(c, t) && Finished(c, t)
    requires i < |c.services| && !FailedIn(t.store, c.services[i].name)
    ensures DoneIn(t.store, c.services[i].name) <==> !Lost(t.jobs[i])
  {
    EndedRecord(c, steps, t, i);
    assert RecordOk(c, t.store, c.services[i], t.jobs[i]);
    hide Leads, Total;
  }

  /** With distinct names and no lost last record, a decided run has every selected service Done or
      Failed, and READY is announced exactly when all of them are Done and no record left behind for
      another service is Failed. */
  lemma DecisionMeaning(c: Config, steps: seq<Step>, t: State)
    requires Distinct(c.services) && Leads(c, Init(c), steps, t) && Decided(t.verdict) && NothingLost(steps)
    ensures forall i :: 0 <= i < |c.services| ==>
      DoneIn(t.store, c.services[i].name) || FailedIn(t.store, c.services[i].name)
    ensures t.verdict.MarkedReady? <==> AllDone(c, t.store) && NoForeignFailure(c)
  {
    InitSound(c);
    DecidedAt(c, Init(c), steps, t);
    RunLost(c, Init(c), steps, t);
    assert |t.jobs| == |c.services|;
    assert NoneLost(Init(c).jobs);
    hide Leads, Sound, Finished;
    forall i | 0 <= i < |c.services|
      ensures DoneIn(t.store, c.services[i].name) || FailedIn(t.store, c.services[i].name)
    {
      EndedRecord(c, steps, t, i);
    }
    if t.verdict.MarkedReady? {
      ReadyMeansDoneIff(c, steps, t);
    }
    if AllDone(c, t.store) {
      AllDoneVerdict(c, steps, t);
    }
  }

  /** No service outside the selection has a Failed record from an earlier run. */
  ghost predicate NoForeignFailure(c: Config) {
    forall n :: !Selects(c, n) ==> !FailedIn(c.before, n)
  }

  /** No selected service has a Failed record. */
  ghost predicate NoneFailed(c: Config, store: Store) {
    forall n :: Selects(c, n) ==> !FailedIn(store, n)
  }

  /** What the verdict depends on, for every decided run: the selected services and the old records of all
      others. */
  lemma VerdictRule(c: Config, steps: seq<Step>, t: State)
    requires Leads(c, Init(c), steps, t) && Decided(t.verdict)
    ensures t.verdict.MarkedReady? <==> NoneFailed(c, t.store) && NoForeignFailure(c)
  {
    DecisionRule(c, steps, t);
    forall n | !Selects(c, n) ensures FailedIn(t.store, n) <==> FailedIn(c.before, n) {
      UnselectedUntouched(c, Init(c), steps, t, n);
    }
    hide Leads, Selects;
    if NoneFailed(c, t.store) && NoForeignFailure(c) {
      forall n ensures !FailedIn(t.store, n) {
        assert Selects(c, n) || !Selects(c, n);
      }
    }
  }

  /** The services outside the filter do not count: the verdict is that of the selected ones. */
  ghost predicate FilterHonoured(c: Config, t: State) {
    t.verdict.MarkedReady? <==> NoneFailed(c, t.store)
  }

  /** For one run, that is so if and only if a selected service failed or no other one has an old
      failure. */
  lemma FilterHonouredInRun(c: Config, steps: seq<Step>, t: State)
    requires Leads(c, Init(c), steps, t) && Decided(t.verdict)
    ensures FilterHonoured(c, t) <==> !NoneFailed(c, t.store) || NoForeignFailure(c)
  {
    VerdictRule(c, steps, t);
  }

  /** So a run whose selected services all end Done is READY exactly when no other service has an old
      Failed record. */
  lemma AllDoneVerdict(c: Config, steps: seq<Step>, t: State)
    requires Leads(c, Init(c), steps, t) && Decided(t.verdict) && AllDone(c, t.store)
    ensures t.verdict.MarkedReady? <==> NoForeignFailure(c)
  {
    VerdictRule(c, steps, t);
    hide Leads;
    forall n | Selects(c, n) ensures !FailedIn(t.store, n) {
      var i :| 0 <= i < |c.services| && c.services[i].name == n;
      assert DoneIn(t.store, c.services[i].name);
    }
  }

  /** Such a run: the selected service is done and skipped, and the old failure of another one decides. */
  lemma ForeignFailureDecides() returns (c: Config, steps: seq<Step>, t: State)
    ensures Distinct(c.services) && Leads(c, Init(c), steps, t) && NothingLost(steps)
    ensures AllDone(c, t.store) && t.verdict == MarkedFailed(true)
  {
    var before := map["a" := Record(Done, true, "", 0, NO_USAGE), "b" := FailedRecord("")];
    c := Config([Spec("a", false, "")], before, 1);
    var s0 := State(0, [NotStarted], before, map[], 0, false, Undecided);
    assert Init(c) == s0;
    var s1 := s0.(next := 1, jobs := [Skipped]);
    t := s1.(verdict := MarkedFailed(true));
    assert "b" in before && before["b"].status == Failed;
    hide Leads;
    LeadsNowhere(c, t);
    LeadsBack(c, s1, Decide(true), [], t, t);
    LeadsBack(c, s0, Skip, [Decide(true)] + [], s1, t);
    steps := [Skip] + ([Decide(true)] + []);
  }

  /** "READY only if every service is done" fails when the final record write is lost: a failed service
      leaves a "generating" record and the run is READY. */
  lemma ReadyWithoutDone() returns (c: Config, steps: seq<Step>, t: State)
    ensures Leads(c, Init(c), steps, t) && Distinct(c.services)
    ensures t.verdict == MarkedReady(true) && |c.services| == 1 && !DoneIn(t.store, c.services[0].name)
  {
    c := Config([Spec("a", false, "")], map[], 1);
    var bad := Invocation(NoError, false, "", [], [], NO_USAGE);
    NoKeyword();
    assert !Retriable(bad);
    steps, t := LostWrite(c, bad);
  }

  lemma LostWrite(c: Config, bad: Invocation) returns (steps: seq<Step>, t: State)
    requires c == Config([Spec("a", false, "")], map[], 1) && !Retriable(bad) && bad.artifacts == []
    ensures Leads(c, Init(c), steps, t) && t.verdict == MarkedReady(true) && !DoneIn(t.store, "a")
  {
    hide Retriable, FinalRecord, Leads;
    var s0 := State(0, [NotStarted], map[], map[], 0, false, Undecided);
    assert Init(c) == s0;
    var s3 := State(1, [Calling([])], map["a" := GENERATING], map[], 1, false, Undecided);
    var rest;
    rest, t := LostWriteEnd(c, bad, s3);
    var s1 := s0.(next := 1, jobs := [Queued]);
    var s2 := s1.(jobs := [Opening], held := 1);
    LeadsBack(c, s2, MarkGenerating(0, true), rest, s3, t);
    LeadsBack(c, s1, Acquire(0), [MarkGenerating(0, true)] + rest, s2, t);
    LeadsBack(c, s0, Spawn, [Acquire(0)] + ([MarkGenerating(0, true)] + rest), s1, t);
    steps := [Spawn] + ([Acquire(0)] + ([MarkGenerating(0, true)] + rest));
  }

  lemma LostWriteEnd(c: Config, bad: Invocation, s3: State) returns (steps: seq<Step>, t: State)
    requires c == Config([Spec("a", false, "")], map[], 1) && !Retriable(bad) && bad.artifacts == []
    requires s3 == State(1, [Calling([])], map["a" := GENERATING], map[], 1, false, Undecided)
    ensures Leads(c, s3, steps, t) && t.verdict == MarkedReady(true) && !DoneIn(t.store, "a")
  {
    hide Retriable, FinalRecord, Leads;
    assert [] + [bad] == [bad];
    var s4 := s3.(jobs := [Persisting([bad], NoError)]);
    var rest;
    rest, t := LostWriteTail(c, bad, s4);
    LeadsBack(c, s3, CallReturns(0, bad), rest, s4, t);
    steps := [CallReturns(0, bad)] + rest;
  }

  lemma LostWriteTail(c: Config, bad: Invocation, s4: State) returns (steps: seq<Step>, t: State)
    requires c == Config([Spec("a", false, "")], map[], 1) && bad.artifacts == []
    requires s4 == State(1, [Persisting([bad], NoError)], map["a" := GENERATING], map[], 1, false, Undecided)
    ensures Leads(c, s4, steps, t) && t.verdict == MarkedReady(true) && !DoneIn(t.store, "a")
  {
    hide FinalRecord, Leads;
    var s5 := s4.(jobs := [Storing([bad], NoError, false)]);
    var s6 := s4.(jobs := [Exited([bad], NoError, false)], held := 0);
    t := s6.(verdict := MarkedReady(true));
    LostWriteDecide(c, bad, s6, t);
    LeadsBack(c, s5, StoreArtifacts(0, true), [Decide(true)] + [], s6, t);
    LeadsBack(c, s4, Persist(0, false), [StoreArtifacts(0, true)] + ([Decide(true)] + []), s5, t);
    steps := [Persist(0, false)] + ([StoreArtifacts(0, true)] + ([Decide(true)] + []));
  }

  lemma LostWriteDecide(c: Config, bad: Invocation, s6: State, t: State)
    requires |c.services| == 1 && t == s6.(verdict := MarkedReady(true))
    requires s6 == State(1, [Exited([bad], NoError, false)], map["a" := GENERATING], map[], 0, false, Undecided)
    ensures Leads(c, s6, [Decide(true)] + [], t)
  {
    hide Leads;
    LeadsNowhere(c, t);
    LeadsBack(c, s6, Decide(true), [], t, t);
  }

  lemma LeadsNowhere(c: Config, s: State)
    ensures Leads(c, s, [], s)
  {
  }

  lemma LeadsBack(c: Config, s: State, st: Step, rest: seq<Step>, m: State, t: State)
    requires Enabled(c, s, st) && Apply(c, s, st) == m && Leads(c, m, rest, t)
    ensures Leads(c, s, [st] + rest, t)
  {
    hide Enabled;
    assert ([st] + rest)[1..] == rest;
  }

  lemma NoKeyword()
    ensures forall i :: 0 <= i < |RATE_LIMIT_KEYWORDS| ==> !Contains(ToLower(""), RATE_LIMIT_KEYWORDS[i])
  {
    assert forall i :: 0 <= i < |RATE_LIMIT_KEYWORDS| ==> |RATE_LIMIT_KEYWORDS[i]| > 0;
    assert ToLower("") == "";
  }

  // ---------------------------------------------------------------- termination and progress

  function Rank(j: Job): nat {
    match j
    case NotStarted => 13
    case Queued => 12
    case Opening => 11
    case Calling(log) => if |log| <= 3 then 10 - 2 * |log| else 4
    case Waiting(log) => if |log| <= 3 then 11 - 2 * |log| else 5
    case Persisting(_, _) => 3
    case Storing(_, _, _) => 2
    case _ => 0
  }

  function Measure(s: State): nat {
    Total(Rank, s.jobs) + (if s.cancelled then 0 else 1) + (if s.verdict == Undecided then 1 else 0)
  }

  lemma NextRank(c: Config, s: State, st: Step)
    requires IsJobStep(st) && Enabled(c, s, st) && LogOk(s.jobs[st.i])
    ensures Rank(NextJob(s.jobs[st.i], st)) < Rank(s.jobs[st.i])
  {
    hide Retriable;
  }

  lemma StepDecreases(c: Config, s: State, st: Step)
    requires Sound(c, s) && Enabled(c, s, st)
    ensures Measure(Apply(c, s, st)) < Measure(s)
  {
    hide Records, Distinct, NextStore, NextArtifacts;
    var t := Apply(c, s, st);
    if IsJobStep(st) {
      NextRank(c, s, st);
      TotalUpdate(Rank, s.jobs, st.i, NextJob(s.jobs[st.i], st));
    } else if st.Skip? || st.Reject? || st.Spawn? {
      TotalUpdate(Rank, s.jobs, s.next, t.jobs[s.next]);
    }
  }

  lemma {:induction false} RunLength(c: Config, s: State, steps: seq<Step>, t: State)
    requires Sound(c, s) && Leads(c, s, steps, t)
    ensures |steps| + Measure(t) <= Measure(s)
    decreases |steps|
  {
    if steps != [] {
      hide Sound, Enabled, Measure;
      StepDecreases(c, s, steps[0]);
      StepSound(c, s, steps[0]);
      RunLength(c, Apply(c, s, steps[0]), steps[1..], t);
    }
  }

  /** No interleaving runs for ever: at most thirteen steps per service and two more. */
  lemma RunsTerminate(c: Config, steps: seq<Step>, t: State)
    requires Leads(c, Init(c), steps, t)
    ensures |steps| <= 13 * |c.services| + 2
  {
    InitSound(c);
    RunLength(c, Init(c), steps, t);
    TotalConstant(Rank, Init(c).jobs, 13);
  }

  /** The step a goroutine that holds the semaphore can always take. */
  function Onward(j: Job, i: nat): Step {
    if j.Opening? then MarkGenerating(i, true)
    else if j.Calling? then CallReturns(i, Invocation(NoError, true, "", [], [], NO_USAGE))
    else if j.Waiting? then BackoffOver(i)
    else if j.Persisting? then Persist(i, true)
    else StoreArtifacts(i, true)
  }

  /** Every service is spawned, one waits for the semaphore, which has no room for anybody, and the
      context is alive. */
  ghost predicate Stuck(c: Config, s: State) {
    && c.concurrency <= 0 && !s.cancelled && s.next == |c.services|
    && exists i :: 0 <= i < |s.jobs| && s.jobs[i].Queued?
  }

  /** No deadlock: unless it is stuck in that way, an undecided run can always go on by itself. */
  lemma NeverStuck(c: Config, steps: seq<Step>, t: State) returns (st: Step)
    requires Leads(c, Init(c), steps, t) && t.verdict == Undecided && !Stuck(c, t)
    ensures Enabled(c, t, st) && !st.Cancel? && !st.ListFails?
  {
    InitSound(c);
    RunSound(c, Init(c), steps, t);
    hide Leads, Records, Logs, Distinct, Total;
    st := Unblocked(c, t);
  }

  lemma Unblocked(c: Config, t: State) returns (st: Step)
    requires Shape(c, t) && t.verdict == Undecided && !Stuck(c, t)
    ensures Enabled(c, t, st) && !st.Cancel? && !st.ListFails?
  {
    hide Total;
    if t.next < |c.services| {
      var svc := c.services[t.next];
      st := if DoneIn(c.before, svc.name) then Skip else if svc.incomplete then Reject(true) else Spawn;
    } else if i :| 0 <= i < |t.jobs| && Holds(t.jobs[i]) {
      st := Onward(t.jobs[i], i);
    } else if i :| 0 <= i < |t.jobs| && t.jobs[i].Queued? {
      TotalZero(HoldsOne, t.jobs);
      st := if t.cancelled then Refuse(i, true) else Acquire(i);
    } else {
      st := Decide(true);
    }
  }

  /** When a run waits for ever: exactly when it is stuck, only a cancellation can happen. */
  lemma OnlyCancelIffStuck(c: Config, steps: seq<Step>, t: State)
    requires Leads(c, Init(c), steps, t) && t.verdict == Undecided
    ensures (forall st :: Enabled(c, t, st) ==> st.Cancel?) <==> Stuck(c, t)
  {
    if Stuck(c, t) {
      InitSound(c);
      RunSound(c, Init(c), steps, t);
      hide Leads, Records, Logs, Distinct, Total;
      TotalZero(HoldsOne, t.jobs);
      assert forall i :: 0 <= i < |t.jobs| ==> HoldsOne(t.jobs[i]) == 0;
    } else {
      var st := NeverStuck(c, steps, t);
    }
  }
}
