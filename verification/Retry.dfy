/** `generateService` of the generation worker: the bounded retry loop around the agent and the
    record it persists. */
module Retry {
  import opened Text

  const MAX_ATTEMPTS: nat := 3

  const RATE_LIMIT_KEYWORDS: seq<string> :=
    ["rate limit", "rate_limit", "too many requests", "429", "overloaded", "server temporarily unavailable"]

  /** An error value, or its absence. */
  datatype Err = NoError | Error(message: string)

  /** A generated file with its content. */
  datatype Artifact = Artifact(path: string, content: string)

  /** Cost, the four token counters and the raw answer, which are copied into the record. */
  datatype Usage = Usage(cost: real, input: int, cacheCreation: int, cacheRead: int, output: int, raw: string)

  const NO_USAGE := Usage(0.0, 0, 0, 0, 0, "")

  /** What one call of the agent returned: `files` are the paths it touched, `artifacts` the contents
      captured from the workspace. */
  datatype Invocation = Invocation(
    error: Err, gatesPassed: bool, reason: string, files: seq<string>, artifacts: seq<Artifact>, usage: Usage)

  datatype Status = Pending | Generating | Done | Failed

  datatype Record = Record(status: Status, gatesPassed: bool, reason: string, fileCount: nat, usage: Usage)

  predicate Succeeded(r: Invocation) {
    r.error.NoError? && r.gatesPassed
  }

  predicate IsTransient(r: Invocation) {
    r.error.Error? || exists i :: 0 <= i < |RATE_LIMIT_KEYWORDS| && Contains(ToLower(r.reason), RATE_LIMIT_KEYWORDS[i])
  }

  /** Worth another attempt. */
  predicate Retriable(r: Invocation) {
    !Succeeded(r) && IsTransient(r)
  }

  /** The record written after the loop, from the calls made and the context error, if any,
      that cut a backoff short. */
  function FinalRecord(log: seq<Invocation>, cut: Err): Record
    requires log != []
  {
    var last := log[|log| - 1];
    if cut.Error? then Record(Failed, false, cut.message, |last.files|, last.usage)
    else if last.error.Error? then Record(Failed, false, last.error.message, |last.files|, last.usage)
    else if !last.gatesPassed then Record(Failed, false, last.reason, |last.files|, last.usage)
    else Record(Done, true, "", |last.files|, last.usage)
  }

  /** A log of calls that may be continued: every one of them was worth a retry. */
  ghost predicate OpenLog(log: seq<Invocation>) {
    |log| < MAX_ATTEMPTS && forall i :: 0 <= i < |log| ==> Retriable(log[i])
  }

  /** A complete log: one to three calls, all but the last worth a retry, and a reason to stop. */
  ghost predicate ClosedLog(log: seq<Invocation>, cut: Err) {
    && 1 <= |log| <= MAX_ATTEMPTS
    && (forall i :: 0 <= i < |log| - 1 ==> Retriable(log[i]))
    && (if cut.Error? then |log| < MAX_ATTEMPTS && Retriable(log[|log| - 1])
        else |log| == MAX_ATTEMPTS || !Retriable(log[|log| - 1]))
  }

  /** The persisted outcome is Done exactly when the last call succeeded; a cancelled backoff
      always records a failure. */
  lemma FinalRecordMeaning(log: seq<Invocation>, cut: Err)
    requires ClosedLog(log, cut)
    ensures FinalRecord(log, cut).status == Done <==> Succeeded(log[|log| - 1])
    ensures FinalRecord(log, cut).status in {Done, Failed}
    ensures cut.Error? ==> FinalRecord(log, cut).status == Failed
    ensures FinalRecord(log, cut).status == Failed && cut.NoError? && |log| < MAX_ATTEMPTS ==>
      !IsTransient(log[|log| - 1])
  {
    assert Retriable(log[|log| - 1]) ==> !Succeeded(log[|log| - 1]);
  }

  // ---------------------------------------------------------------- the rule in terms of answers

  /** The reason names a rate limit or an overload, in any letter case. */
  predicate NamesRateLimit(reason: string) {
    var r := ToLower(reason);
    || Contains(r, "rate limit") || Contains(r, "rate_limit") || Contains(r, "too many requests")
    || Contains(r, "429") || Contains(r, "overloaded") || Contains(r, "server temporarily unavailable")
  }

  /** An invoker error, or a failed gate whose reason names a rate limit. */
  predicate WorthRetry(answer: Invocation) {
    answer.error.Error? || (!answer.gatesPassed && NamesRateLimit(answer.reason))
  }

  lemma KeywordListed(s: string)
    ensures (exists i :: 0 <= i < |RATE_LIMIT_KEYWORDS| && Contains(s, RATE_LIMIT_KEYWORDS[i])) <==>
      || Contains(s, "rate limit") || Contains(s, "rate_limit") || Contains(s, "too many requests")
      || Contains(s, "429") || Contains(s, "overloaded") || Contains(s, "server temporarily unavailable")
  {
    hide Contains;
    var k := RATE_LIMIT_KEYWORDS;
    assert k[0] == "rate limit" && k[1] == "rate_limit" && k[2] == "too many requests";
    assert k[3] == "429" && k[4] == "overloaded" && k[5] == "server temporarily unavailable";
  }

  lemma RetriableMeaning(answer: Invocation)
    ensures Retriable(answer) <==> WorthRetry(answer)
    ensures IsTransient(answer) <==> answer.error.Error? || NamesRateLimit(answer.reason)
  {
    hide Contains, ToLower;
    KeywordListed(ToLower(answer.reason));
  }

  /** What decides whether there is another call: it is made after every answer worth a retry among the
      first two, unless the context ends, and after no other answer. */
  ghost predicate AnswersDecide(log: seq<Invocation>, cut: Err) {
    && 1 <= |log| <= 3
    && (forall i :: 0 <= i < |log| && i < 2 && WorthRetry(log[i]) && cut.NoError? ==> i + 1 < |log|)
    && (forall i :: 0 <= i < |log| && !WorthRetry(log[i]) ==> i + 1 == |log| && cut.NoError?)
    && (cut.Error? ==> |log| < 3)
  }

  lemma ClosedLogAnswers(log: seq<Invocation>, cut: Err)
    ensures ClosedLog(log, cut) <==> AnswersDecide(log, cut)
  {
    hide WorthRetry, Retriable;
    forall i | 0 <= i < |log| ensures Retriable(log[i]) <==> WorthRetry(log[i]) { RetriableMeaning(log[i]); }
  }

  /** The record in terms of the last answer: what it says on success, and why it failed otherwise. */
  lemma FinalRecordSays(log: seq<Invocation>, cut: Err)
    requires AnswersDecide(log, cut)
    ensures var last, rec := log[|log| - 1], FinalRecord(log, cut);
      && rec.usage == last.usage && rec.fileCount == |last.files|
      && (rec.status == Done <==> rec.gatesPassed)
      && (rec.status == Done <==> last.error.NoError? && last.gatesPassed)
      && (rec.status == Done ==> rec.reason == "")
      && (cut.Error? ==> rec.status == Failed && rec.reason == cut.message)
      && (cut.NoError? && last.error.Error? ==> rec.status == Failed && rec.reason == last.error.message)
      && (cut.NoError? && last.error.NoError? && !last.gatesPassed ==>
            rec.status == Failed && rec.reason == last.reason)
  {
    assert cut.Error? ==> WorthRetry(log[|log| - 1]);
  }

  /** The loop itself. `agent(n)` is the answer of the n-th call and `stopped(n)` is the
      context error when the context ends during the backoff before attempt n. */
  method GenerateService(agent: nat -> Invocation, stopped: nat -> Err)
    returns (log: seq<Invocation>, cut: Err, rec: Record, artifacts: seq<Artifact>)
    ensures ClosedLog(log, cut)
    ensures forall i :: 0 <= i < |log| ==> log[i] == agent(i + 1)
    ensures forall n :: 2 <= n <= |log| ==> stopped(n).NoError?
    ensures cut.Error? ==> cut == stopped(|log| + 1)
    ensures rec == FinalRecord(log, cut)
    ensures artifacts == log[|log| - 1].artifacts
    ensures forall n :: 1 <= n <= |log| && n < 3 && WorthRetry(agent(n)) && stopped(n + 1).NoError? ==> n < |log|
    ensures forall n :: 1 <= n <= |log| && !WorthRetry(agent(n)) ==> n == |log|
    ensures AnswersDecide(log, cut)
  {
    hide IsTransient, NamesRateLimit;
    log, cut := [], NoError;
    var result := Invocation(NoError, false, "", [], [], NO_USAGE);
    var invokeErr := NoError;
    var attempt := 1;
    while attempt <= MAX_ATTEMPTS
      invariant 1 <= attempt <= MAX_ATTEMPTS + 1 && |log| == attempt - 1 && cut == NoError
      invariant forall i :: 0 <= i < |log| ==> log[i] == agent(i + 1) && Retriable(log[i])
      invariant forall n :: 2 <= n <= |log| ==> stopped(n).NoError?
      invariant log != [] ==> result == log[|log| - 1] && invokeErr == result.error
    {
      if attempt > 1 && stopped(attempt).Error? {
        invokeErr := stopped(attempt);
        cut := invokeErr;
        break;
      }
      result := agent(attempt);
      invokeErr := result.error;
      log := log + [result];
      if invokeErr.NoError? && result.gatesPassed {
        break;
      }
      var transient := TransientTest(invokeErr, result.reason);
      RetriableMeaning(result);
      if !transient {
        break;
      }
      attempt := attempt + 1;
    }
    var status, gates, reason := Done, true, "";
    if invokeErr.Error? {
      status, gates, reason := Failed, false, invokeErr.message;
    } else if !result.gatesPassed {
      status, gates, reason := Failed, false, result.reason;
    }
    rec := Record(status, gates, reason, |result.files|, result.usage);
    ClosedLogAnswers(log, cut);
    assert forall n :: 1 <= n <= |log| ==> agent(n) == log[n - 1];
    artifacts := result.artifacts;
  }

  /** `isTransientError`. */
  method TransientTest(err: Err, reason: string) returns (t: bool)
    ensures t <==> err.Error? || NamesRateLimit(reason)
  {
    KeywordListed(ToLower(reason));
    if err.Error? {
      return true;
    }
    var lower := ToLower(reason);
    for i := 0 to |RATE_LIMIT_KEYWORDS|
      invariant forall j :: 0 <= j < i ==> !Contains(lower, RATE_LIMIT_KEYWORDS[j])
    {
      if Contains(lower, RATE_LIMIT_KEYWORDS[i]) {
        return true;
      }
    }
    return false;
  }
}
