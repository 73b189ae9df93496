/** When a filtered generation run is decided by the selected services alone: the exact condition on the
    configuration, with the runs that show it necessary. */
module FilteredRuns {
  import opened Retry
  import opened Generation
  import opened GenerationSafety

  /** A selected service failed before and no run can change that: its specification is incomplete, or
      the semaphore lets nobody in. */
  ghost predicate Doomed(c: Config) {
    exists n :: Selects(c, n) && FailedIn(c.before, n) && Hopeless(c, n)
  }

  ghost predicate Hopeless(c: Config, n: string) {
    c.concurrency <= 0 || forall i :: 0 <= i < |c.services| && c.services[i].name == n ==> c.services[i].incomplete
  }

  // ---------------------------------------------------------------- a doomed service stays failed

  /** No goroutine of the service is at work or can get to work. */
  ghost predicate Inert(c: Config, s: State, n: string) {
    |s.jobs| == |c.services| && forall i :: 0 <= i < |s.jobs| && c.services[i].name == n ==>
      !Holds(s.jobs[i]) && (s.jobs[i].Queued? ==> c.concurrency <= 0)
  }

  lemma InertStep(c: Config, s: State, st: Step, n: string)
    requires Hopeless(c, n) && Inert(c, s, n) && FailedIn(s.store, n) && Enabled(c, s, st)
    ensures Inert(c, Apply(c, s, st), n) && FailedIn(Apply(c, s, st).store, n)
  {
    hide Retriable, FinalRecord, Finished, AnyFailed, NextArtifacts;
  }

  lemma {:induction false} InertRun(c: Config, s: State, steps: seq<Step>, t: State, n: string)
    requires Hopeless(c, n) && Inert(c, s, n) && FailedIn(s.store, n) && Leads(c, s, steps, t)
    ensures FailedIn(t.store, n)
    decreases |steps|
  {
    if steps != [] {
      InertStep(c, s, steps[0], n);
      hide Hopeless, Inert, Enabled;
      InertRun(c, Apply(c, s, steps[0]), steps[1..], t, n);
    }
  }

  // ---------------------------------------------------------------- a run without a new failure

  /** What is Failed was Failed before, and none of the first `k` services has mended it. */
  ghost predicate Settled(c: Config, store: Store, k: nat) {
    forall n :: FailedIn(store, n) ==> FailedIn(c.before, n) && (c.concurrency >= 1 ==> Unmended(c, n, k))
  }

  ghost predicate Unmended(c: Config, n: string, k: nat) {
    forall i :: 0 <= i < k && i < |c.services| && c.services[i].name == n ==> c.services[i].incomplete
  }

  /** Between two services: the first `k` are over and nobody is at work. */
  ghost predicate Between(c: Config, s: State, k: nat) {
    && |s.jobs| == |c.services| && k <= |c.services| && s.next == k && s.held == 0 && s.verdict == Undecided
    && (s.cancelled <==> c.concurrency <= 0)
    && (forall i :: 0 <= i < k ==> Ended(s.jobs[i]))
    && Settled(c, s.store, k)
  }

  const GOOD := Invocation(NoError, true, "", [], [], NO_USAGE)

  const GOOD_RECORD := Record(Done, true, "", 0, NO_USAGE)

  lemma SettledAsIs(c: Config, store: Store, k: nat)
    requires Settled(c, store, k) && k < |c.services|
    requires DoneIn(c.before, c.services[k].name) || c.services[k].incomplete || c.concurrency <= 0
    ensures Settled(c, store, k + 1)
  {
    forall n | FailedIn(store, n) && c.concurrency >= 1 ensures Unmended(c, n, k + 1) {
      assert Unmended(c, n, k);
    }
  }

  lemma SettledByDone(c: Config, store: Store, k: nat)
    requires Settled(c, store, k) && k < |c.services|
    ensures Settled(c, store[c.services[k].name := GOOD_RECORD], k + 1)
  {
    var mended := store[c.services[k].name := GOOD_RECORD];
    forall n | FailedIn(mended, n) ensures FailedIn(c.before, n) && (c.concurrency >= 1 ==> Unmended(c, n, k + 1)) {
      assert n != c.services[k].name && FailedIn(store, n);
    }
  }

  /** The steps that take one service to its end without a new failure. */
  lemma OneService(c: Config, s: State, k: nat) returns (steps: seq<Step>, t: State)
    requires Between(c, s, k) && k < |c.services|
    ensures Leads(c, s, steps, t) && Between(c, t, k + 1)
  {
    var svc := c.services[k];
    hide Leads, Settled, AnyFailed, Finished;
    if DoneIn(c.before, svc.name) {
      SettledAsIs(c, s.store, k);
      t := s.(next := k + 1, jobs := s.jobs[k := Skipped]);
      LeadsNowhere(c, t);
      LeadsBack(c, s, Skip, [], t, t);
      steps := [Skip] + [];
    } else if svc.incomplete {
      SettledAsIs(c, s.store, k);
      t := s.(next := k + 1, jobs := s.jobs[k := Rejected(false)]);
      LeadsNowhere(c, t);
      LeadsBack(c, s, Reject(false), [], t, t);
      steps := [Reject(false)] + [];
    } else {
      var m := s.(next := k + 1, jobs := s.jobs[k := Queued]);
      var rest;
      rest, t := QueuedService(c, s, m, k);
      LeadsBack(c, s, Spawn, rest, m, t);
      steps := [Spawn] + rest;
    }
  }

  lemma QueuedService(c: Config, s: State, m: State, k: nat) returns (steps: seq<Step>, t: State)
    requires Between(c, s, k) && k < |c.services| && m == s.(next := k + 1, jobs := s.jobs[k := Queued])
    ensures Leads(c, m, steps, t) && Between(c, t, k + 1)
  {
    hide Leads, Settled, AnyFailed, Finished;
    if c.concurrency <= 0 {
      SettledAsIs(c, s.store, k);
      t := m.(jobs := m.jobs[k := Refused(false)]);
      LeadsNowhere(c, t);
      LeadsBack(c, m, Refuse(k, false), [], t, t);
      steps := [Refuse(k, false)] + [];
    } else {
      SettledByDone(c, s.store, k);
      var opening := m.(jobs := m.jobs[k := Opening], held := 1);
      t := m.(jobs := m.jobs[k := Exited([GOOD], NoError, true)], store := s.store[c.services[k].name := GOOD_RECORD]);
      var rest := GoodService(c, opening, t, k);
      LeadsBack(c, m, Acquire(k), rest, opening, t);
      steps := [Acquire(k)] + rest;
    }
  }

  lemma GoodService(c: Config, s: State, t: State, k: nat) returns (steps: seq<Step>)
    requires k < |c.services| == |s.jobs| && s.verdict == Undecided && s.held == 1 && s.jobs[k] == Opening
    requires t == s.(jobs := s.jobs[k := Exited([GOOD], NoError, true)],
      store := s.store[c.services[k].name := GOOD_RECORD], held := 0)
    ensures Leads(c, s, steps, t)
  {
    hide Leads, Retriable, FinalRecord, AnyFailed, Finished;
    var name := c.services[k].name;
    var calling := s.(jobs := s.jobs[k := Calling([])], store := s.store[name := GENERATING]);
    var persisting := calling.(jobs := s.jobs[k := Persisting([GOOD], NoError)]);
    var storing := persisting.(jobs := s.jobs[k := Storing([GOOD], NoError, true)],
      store := s.store[name := GOOD_RECORD]);
    GoodEnd(c, s, persisting, storing, t, k);
    GoodIsFinal();
    assert [] + [GOOD] == [GOOD];
    assert calling.jobs[k := Persisting([GOOD], NoError)] == persisting.jobs;
    var end := [Persist(k, true)] + ([StoreArtifacts(k, true)] + []);
    LeadsBack(c, calling, CallReturns(k, GOOD), end, persisting, t);
    var rest := [CallReturns(k, GOOD)] + end;
    LeadsBack(c, s, MarkGenerating(k, true), rest, calling, t);
    steps := [MarkGenerating(k, true)] + rest;
  }

  lemma GoodIsFinal()
    ensures !Retriable(GOOD) && FinalRecord([GOOD], NoError) == GOOD_RECORD
  {
  }

  lemma GoodEnd(c: Config, s: State, persisting: State, storing: State, t: State, k: nat)
    requires k < |c.services| == |s.jobs| && s.verdict == Undecided && s.held == 1
    requires persisting == s.(jobs := s.jobs[k := Persisting([GOOD], NoError)],
      store := s.store[c.services[k].name := GENERATING])
    requires storing == persisting.(jobs := s.jobs[k := Storing([GOOD], NoError, true)],
      store := s.store[c.services[k].name := GOOD_RECORD])
    requires t == s.(jobs := s.jobs[k := Exited([GOOD], NoError, true)],
      store := s.store[c.services[k].name := GOOD_RECORD], held := 0)
    ensures Leads(c, persisting, [Persist(k, true)] + ([StoreArtifacts(k, true)] + []), t)
  {
    hide Leads, Retriable, FinalRecord, AnyFailed, Finished;
    GoodIsFinal();
    LeadsNowhere(c, t);
    assert storing.jobs[k := Exited([GOOD], NoError, true)] == t.jobs;
    LeadsBack(c, storing, StoreArtifacts(k, true), [], t, t);
    assert persisting.jobs[k := Storing([GOOD], NoError, true)] == storing.jobs;
    assert persisting.store[c.services[k].name := GOOD_RECORD] == storing.store;
    LeadsBack(c, persisting, Persist(k, true), [StoreArtifacts(k, true)] + [], storing, t);
  }

  lemma {:induction false} LeadsOn(c: Config, s: State, a: seq<Step>, m: State, b: seq<Step>, t: State)
    requires Leads(c, s, a, m) && Leads(c, m, b, t)
    ensures Leads(c, s, a + b, t)
    decreases |a|
  {
    hide Enabled;
    if a == [] {
      assert a + b == b;
    } else {
      LeadsOn(c, Apply(c, s, a[0]), a[1..], m, b, t);
      assert (a + b)[1..] == a[1..] + b;
    }
  }

  lemma FirstState(c: Config) returns (steps: seq<Step>, s: State)
    ensures Leads(c, Init(c), steps, s) && Between(c, s, 0)
  {
    hide Leads;
    s := Init(c);
    LeadsNowhere(c, s);
    steps := [];
    if c.concurrency <= 0 {
      s := s.(cancelled := true);
      LeadsNowhere(c, s);
      LeadsBack(c, Init(c), Cancel, [], s, s);
      steps := [Cancel] + [];
    }
  }

  lemma AllServices(c: Config) returns (steps: seq<Step>, s: State)
    ensures Leads(c, Init(c), steps, s) && Between(c, s, |c.services|)
  {
    hide Leads, Between;
    steps, s := FirstState(c);
    for k := 0 to |c.services|
      invariant Leads(c, Init(c), steps, s) && Between(c, s, k)
    {
      var more, t := OneService(c, s, k);
      LeadsOn(c, Init(c), steps, s, more, t);
      steps, s := steps + more, t;
    }
  }

  /** Unless a service is doomed there is a run in which no selected one ends Failed. */
  lemma QuietRun(c: Config) returns (steps: seq<Step>, t: State)
    requires !Doomed(c)
    ensures Leads(c, Init(c), steps, t) && Decided(t.verdict) && NoneFailed(c, t.store)
  {
    var s;
    steps, s := AllServices(c);
    t := s.(verdict := if AnyFailed(s.store) then MarkedFailed(true) else MarkedReady(true));
    hide Leads, AnyFailed;
    LeadsNowhere(c, t);
    LeadsBack(c, s, Decide(true), [], t, t);
    LeadsOn(c, Init(c), steps, s, [Decide(true)] + [], t);
    steps := steps + ([Decide(true)] + []);
    hide Settled, Doomed;
    forall n | Selects(c, n) ensures !FailedIn(t.store, n) {
      if FailedIn(t.store, n) {
        StillFailedIsDoomed(c, t.store, n);
      }
    }
  }

  lemma StillFailedIsDoomed(c: Config, store: Store, n: string)
    requires Settled(c, store, |c.services|) && Selects(c, n) && FailedIn(store, n)
    ensures Doomed(c)
  {
    assert Hopeless(c, n);
  }

  /** The filter is honoured in every decided run, if and only if no service outside it has an old failure,
      or a selected one is doomed to fail anyway. The condition is on the configuration alone. */
  lemma FilterHonouredIff(c: Config)
    ensures (forall steps, t :: Leads(c, Init(c), steps, t) && Decided(t.verdict) ==> FilterHonoured(c, t)) <==>
      NoForeignFailure(c) || Doomed(c)
  {
    hide Leads, NoForeignFailure, Doomed, NoneFailed;
    if NoForeignFailure(c) || Doomed(c) {
      forall steps, t | Leads(c, Init(c), steps, t) && Decided(t.verdict) ensures FilterHonoured(c, t) {
        FilterHonouredInRun(c, steps, t);
        if Doomed(c) {
          DoomedFails(c, steps, t);
        }
      }
    } else {
      var steps, t := QuietRun(c);
      FilterHonouredInRun(c, steps, t);
    }
  }

  lemma DoomedFails(c: Config, steps: seq<Step>, t: State)
    requires Doomed(c) && Leads(c, Init(c), steps, t)
    ensures !NoneFailed(c, t.store)
  {
    hide Leads;
    var n :| Selects(c, n) && FailedIn(c.before, n) && Hopeless(c, n);
    InertRun(c, Init(c), steps, t, n);
  }
}
