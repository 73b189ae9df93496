/** `generateIdentifier`: the shared counter document, its atomic increment and insert-if-absent,
    and the bounded retry around them, for any number of concurrent callers. */
module Identifiers {

  const INITIAL_VALUE: nat := 10001
  const MAX_RETRIES: nat := 3

  datatype Document = Absent | Counter(seqNo: nat)

  /** What becomes of one database operation: it works, it is applied but its reply is lost, or it
      fails without being applied. */
  datatype Fate = Works | ReplyLost | Fails

  datatype Reply = Value(n: nat) | Duplicate | Failure

  /** `FindOneAndUpdate` with `$inc`: fails when the document is absent. */
  function IncrementDoc(d: Document, f: Fate): (r: (Document, Reply))
    ensures r.1.Value? <==> d.Counter? && f.Works?
    ensures r.1.Value? ==> r.0 == Counter(r.1.n) && r.1.n == d.seqNo + 1
    ensures r.0 != d <==> d.Counter? && f != Fails
  {
    if d.Absent? || f == Fails then (d, Failure)
    else if f == ReplyLost then (Counter(d.seqNo + 1), Failure)
    else (Counter(d.seqNo + 1), Value(d.seqNo + 1))
  }

  /** `InsertOne` of the initial document: a duplicate-key error when it exists. */
  function InsertDoc(d: Document, f: Fate): (r: (Document, Reply))
    ensures r.1.Value? <==> d.Absent? && f.Works?
    ensures r.1.Value? ==> r.0 == Counter(r.1.n) && r.1.n == 10001
    ensures r.1.Duplicate? <==> d.Counter? && f != Fails
    ensures r.1.Duplicate? ==> r.0 == d
  {
    if f == Fails then (d, Failure)
    else if d.Counter? then (d, Duplicate)
    else if f == ReplyLost then (Counter(INITIAL_VALUE), Failure)
    else (Counter(INITIAL_VALUE), Value(INITIAL_VALUE))
  }

  // ---------------------------------------------------------------- one call, others interfering

  class Database {
    var doc: Document

    constructor (d: Document)
      ensures doc == d
    {
      doc := d;
    }

    /** Other callers may create the counter and raise it, never lower it. */
    method Interfere(created: bool, raised: nat)
      modifies this
      ensures Grows(old(doc), doc)
    {
      if doc.Counter? {
        doc := Counter(doc.seqNo + raised);
      } else if created {
        doc := Counter(INITIAL_VALUE + raised);
      }
    }

    /** The atomic increment, after what other callers do. */
    method TryIncrement(noise: (bool, nat), f: Fate) returns (r: Reply)
      modifies this
      ensures Grows(old(doc), doc) && (r.Value? || r.Failure?)
      ensures r.Value? ==> f == Works && doc == Counter(r.n) && (old(doc).Counter? ==> r.n > old(doc).seqNo)
      ensures r.Value? && AboveInitial(old(doc)) ==> r.n >= INITIAL_VALUE
      ensures f == Works && old(doc).Counter? ==> r.Value?
    {
      Interfere(noise.0, noise.1);
      IncrementGrows(doc, f);
      doc, r := IncrementDoc(doc, f).0, IncrementDoc(doc, f).1;
    }

    /** The insert of the initial document, after what other callers do. */
    method TryInsert(noise: (bool, nat), f: Fate) returns (r: Reply)
      modifies this
      ensures Grows(old(doc), doc)
      ensures r.Value? ==> f == Works && old(doc).Absent? && doc == Counter(r.n) && r.n == INITIAL_VALUE
      ensures r.Duplicate? ==> doc.Counter?
      ensures r.Failure? ==> f != Works
    {
      Interfere(noise.0, noise.1);
      InsertGrows(doc, f);
      doc, r := InsertDoc(doc, f).0, InsertDoc(doc, f).1;
    }

    /** The call as written: `fate(k)` decides the k-th operation, `noise(k)` is what other callers do
        before it, `stopped(a)` whether the context has ended at attempt `a`. The value returned is
        above everything the counter stood at when the call began, and at most seven operations are
        issued. A value comes back whenever the operations work and the context lives, and it comes from
        the last operation; a call gives up after seven operations, when the context has ended, or when
        an insert fails otherwise than on a duplicate. */
    method GenerateIdentifier(fate: nat -> Fate, noise: nat -> (bool, nat), stopped: nat -> bool)
      returns (r: Reply, operations: nat)
      modifies this
      ensures Grows(old(doc), doc) && operations <= 1 + 2 * MAX_RETRIES
      ensures r.Value? || r.Failure?
      ensures r.Value? ==> doc.Counter? && r.n <= doc.seqNo
      ensures r.Value? && old(doc).Counter? ==> r.n > old(doc).seqNo
      ensures r.Value? && AboveInitial(old(doc)) ==> r.n >= INITIAL_VALUE
      ensures (forall k :: fate(k) == Works) && !stopped(1) ==> r.Value?
      ensures r.Value? ==> operations >= 1 && fate(operations - 1) == Works && doc == Counter(r.n)
      ensures old(doc).Counter? && fate(0) == Works ==> r.Value? && operations == 1
      ensures r.Failure? ==>
        || operations == 7
        || (operations % 2 == 1 && stopped((operations + 1) / 2))
        || (operations > 0 && operations % 2 == 0 && fate(operations - 1) != Works)
    {
      r := TryIncrement(noise(0), fate(0));
      operations := 1;
      if r.Value? {
        return;
      }
      var attempt := 1;
      while attempt <= MAX_RETRIES
        invariant 1 <= attempt <= MAX_RETRIES + 1 && operations == 1 + 2 * (attempt - 1)
        invariant Grows(old(doc), doc)
        invariant attempt > 1 ==> exists k :: fate(k) != Works
        invariant !(old(doc).Counter? && fate(0) == Works)
      {
        if stopped(attempt) {
          return Failure, operations;
        }
        r := TryInsert(noise(operations), fate(operations));
        operations := operations + 1;
        if r.Value? {
          return;
        } else if r.Duplicate? {
          r := TryIncrement(noise(operations), fate(operations));
          operations := operations + 1;
          if r.Value? {
            return;
          }
        } else {
          return Failure, operations;
        }
        attempt := attempt + 1;
      }
      r := Failure;
    }
  }

  /** The counter is never removed and never lowered; it starts at its initial value or above. */
  ghost predicate Grows(d: Document, d': Document) {
    && (d.Counter? ==> d'.Counter? && d.seqNo <= d'.seqNo)
    && (d.Absent? && d'.Counter? ==> d'.seqNo >= INITIAL_VALUE)
  }

  ghost predicate AboveInitial(d: Document) {
    d.Counter? ==> d.seqNo >= INITIAL_VALUE
  }

  lemma IncrementGrows(d: Document, f: Fate)
    ensures Grows(d, IncrementDoc(d, f).0)
    ensures IncrementDoc(d, f).1.Value? ==> IncrementDoc(d, f).0.seqNo > d.seqNo
  {
  }

  lemma InsertGrows(d: Document, f: Fate)
    ensures Grows(d, InsertDoc(d, f).0)
  {
  }

  // ---------------------------------------------------------------- all interleavings

  /** Where a caller is in its call. */
  datatype Caller =
    | Begin
    | Inserting(attempt: nat)
    | Incrementing(attempt: nat)
    | Returned(n: nat)
    | GaveUp

  datatype System = System(doc: Document, callers: seq<Caller>)

  /** Caller `i` performs its next operation with the given fate, or notices the end of its context. */
  datatype Step = Operate(i: nat, fate: Fate) | Stop(i: nat)

  predicate Enabled(s: System, st: Step) {
    && st.i < |s.callers|
    && match st
       case Operate(i, _) => s.callers[i].Begin? || s.callers[i].Inserting? || s.callers[i].Incrementing?
       case Stop(i) => s.callers[i].Inserting?
  }

  function Retry(attempt: nat): Caller {
    if attempt < MAX_RETRIES then Inserting(attempt + 1) else GaveUp
  }

  function Operated(d: Document, c: Caller, f: Fate): (Document, Caller) {
    match c
    case Begin =>
      var (d', r) := IncrementDoc(d, f);
      (d', if r.Value? then Returned(r.n) else Inserting(1))
    case Inserting(a) =>
      var (d', r) := InsertDoc(d, f);
      (d', if r.Value? then Returned(r.n) else if r.Duplicate? then Incrementing(a) else GaveUp)
    case Incrementing(a) =>
      var (d', r) := IncrementDoc(d, f);
      (d', if r.Value? then Returned(r.n) else Retry(a))
    case _ => (d, c)
  }

  function Apply(s: System, st: Step): System
    requires Enabled(s, st)
  {
    match st
    case Operate(i, f) =>
      var (d, c) := Operated(s.doc, s.callers[i], f);
      System(d, s.callers[i := c])
    case Stop(i) => s.(callers := s.callers[i := GaveUp])
  }

  ghost predicate Leads(s: System, steps: seq<Step>, t: System)
    decreases |steps|
  {
    if steps == [] then s == t
    else Enabled(s, steps[0]) && Leads(Apply(s, steps[0]), steps[1..], t)
  }

  function Start(d: Document, callers: nat): System {
    System(d, seq(callers, i => Begin))
  }

  /** Relative to the document `d0` found at the start: every returned value is new, within the
      counter, and unlike every other. */
  ghost predicate Distinguished(d0: Document, s: System) {
    && Grows(d0, s.doc)
    && (forall i :: 0 <= i < |s.callers| && s.callers[i].Returned? ==>
          && s.doc.Counter? && s.callers[i].n <= s.doc.seqNo
          && (d0.Counter? ==> d0.seqNo < s.callers[i].n)
          && (d0.Absent? ==> INITIAL_VALUE <= s.callers[i].n))
    && (forall i, j :: 0 <= i < j < |s.callers| && s.callers[i].Returned? && s.callers[j].Returned? ==>
          s.callers[i].n != s.callers[j].n)
  }

  /** One operation: the counter moves only up, and a value is returned only by the operation that
      moved the counter to it. */
  lemma OperatedMoves(d: Document, c: Caller, f: Fate)
    requires !c.Returned?
    ensures Grows(d, Operated(d, c, f).0)
    ensures Operated(d, c, f).1.Returned? ==>
      && Operated(d, c, f).0 == Counter(Operated(d, c, f).1.n)
      && (d.Counter? ==> d.seqNo < Operated(d, c, f).1.n)
      && (d.Absent? ==> Operated(d, c, f).1.n == INITIAL_VALUE)
  {
  }

  lemma StepDistinguished(d0: Document, s: System, st: Step)
    requires Distinguished(d0, s) && Enabled(s, st)
    ensures Distinguished(d0, Apply(s, st))
  {
    if st.Operate? {
      OperatedMoves(s.doc, s.callers[st.i], st.fate);
    }
    hide Operated;
  }

  /** No two successful calls return the same identifier, in any interleaving and whatever replies
      are lost; all identifiers are new and, when the counter did, start at the initial value. */
  lemma {:induction false} IdentifiersUnique(d0: Document, s: System, steps: seq<Step>, t: System)
    requires Distinguished(d0, s) && Leads(s, steps, t)
    ensures Distinguished(d0, t)
    decreases |steps|
  {
    hide Distinguished, Enabled;
    if steps != [] {
      StepDistinguished(d0, s, steps[0]);
      IdentifiersUnique(d0, Apply(s, steps[0]), steps[1..], t);
    }
  }

  lemma AllUnique(d0: Document, callers: nat, steps: seq<Step>, t: System)
    requires Leads(Start(d0, callers), steps, t) && AboveInitial(d0)
    ensures forall i, j :: 0 <= i < j < |t.callers| && t.callers[i].Returned? && t.callers[j].Returned? ==>
      t.callers[i].n != t.callers[j].n
    ensures forall i :: 0 <= i < |t.callers| && t.callers[i].Returned? ==> t.callers[i].n >= INITIAL_VALUE
  {
    assert Distinguished(d0, Start(d0, callers));
    IdentifiersUnique(d0, Start(d0, callers), steps, t);
  }

  /** When a caller gives up: when its context ends, when its insert fails otherwise than on a duplicate, or
      when the increment of its third attempt fails. */
  lemma GivesUpIff(s: System, st: Step)
    requires Enabled(s, st)
    ensures Apply(s, st).callers[st.i].GaveUp? <==>
      || st.Stop?
      || (s.callers[st.i].Inserting? && (st.fate == Fails || (st.fate == ReplyLost && s.doc.Absent?)))
      || (s.callers[st.i].Incrementing? && s.callers[st.i].attempt >= 3 && (st.fate != Works || s.doc.Absent?))
  {
  }

  /** The counter strictly grows with every operation that returns a value. */
  lemma CounterStrictlyGrows(s: System, st: Step)
    requires Enabled(s, st) && Apply(s, st).callers[st.i].Returned?
    ensures Apply(s, st).doc.Counter? && (s.doc.Counter? ==> s.doc.seqNo < Apply(s, st).doc.seqNo)
  {
    OperatedMoves(s.doc, s.callers[st.i], if st.Operate? then st.fate else Works);
  }

  // ---------------------------------------------------------------- every call ends

  function Left(c: Caller): nat {
    match c
    case Begin => 7
    case Inserting(a) => if a <= MAX_RETRIES then 8 - 2 * a else 1
    case Incrementing(a) => if a <= MAX_RETRIES then 7 - 2 * a else 1
    case _ => 0
  }

  function TotalLeft(callers: seq<Caller>): nat {
    if callers == [] then 0 else Left(callers[0]) + TotalLeft(callers[1..])
  }

  lemma {:induction false} TotalLeftUpdate(callers: seq<Caller>, i: nat, c: Caller)
    requires i < |callers|
    ensures TotalLeft(callers[i := c]) + Left(callers[i]) == TotalLeft(callers) + Left(c)
  {
    if i == 0 {
      assert callers[0 := c][1..] == callers[1..];
    } else {
      assert callers[i := c][1..] == callers[1..][i - 1 := c];
      TotalLeftUpdate(callers[1..], i - 1, c);
    }
  }

  ghost predicate AttemptsOk(s: System) {
    forall i :: 0 <= i < |s.callers| ==>
      && (s.callers[i].Inserting? ==> 1 <= s.callers[i].attempt <= MAX_RETRIES)
      && (s.callers[i].Incrementing? ==> 1 <= s.callers[i].attempt <= MAX_RETRIES)
  }

  lemma StepUsesOne(s: System, st: Step)
    requires AttemptsOk(s) && Enabled(s, st)
    ensures AttemptsOk(Apply(s, st))
    ensures Left(Apply(s, st).callers[st.i]) < Left(s.callers[st.i])
    ensures TotalLeft(Apply(s, st).callers) < TotalLeft(s.callers)
  {
    TotalLeftUpdate(s.callers, st.i, Apply(s, st).callers[st.i]);
    hide TotalLeft;
  }

  lemma {:induction false} RunShortens(s: System, steps: seq<Step>, t: System)
    requires AttemptsOk(s) && Leads(s, steps, t)
    ensures |steps| + TotalLeft(t.callers) <= TotalLeft(s.callers)
    decreases |steps|
  {
    hide AttemptsOk, Enabled, TotalLeft;
    if steps != [] {
      StepUsesOne(s, steps[0]);
      RunShortens(Apply(s, steps[0]), steps[1..], t);
    }
  }

  lemma {:induction false} StartLeft(callers: nat)
    ensures TotalLeft(seq(callers, i => Begin)) == 7 * callers
  {
    if callers > 0 {
      assert seq(callers, i => Begin)[1..] == seq(callers - 1, i => Begin);
      StartLeft(callers - 1);
    }
  }

  /** Every call stops after bounded retries: any interleaving of n callers has at most 7n steps. */
  lemma CallsEnd(d0: Document, callers: nat, steps: seq<Step>, t: System)
    requires Leads(Start(d0, callers), steps, t)
    ensures |steps| <= 7 * callers
  {
    RunShortens(Start(d0, callers), steps, t);
    StartLeft(callers);
  }
}
