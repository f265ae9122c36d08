/** Conservation in the pool: no message is lost, repeated or invented, and the
    workers' counters agree with the sensors' up to what is in flight. */
module Accounting {
  import opened Protocol
  import opened Pool
  import opened PoolInvariants

  // ----- Sums over the workers -----

  /** Something counted worker by worker. */
  datatype Measure =
    | HoldsUnapplied(x: Msg)   // holds message x, has not applied it
    | HoldsApplied(x: Msg)     // has applied message x, is not done with it
    | Delivered                // messages counted as dealt with, one way or another
    | Processed                // messages counted as processed
    | UncountedInHand          // has one in hand that it has not counted
    | HasInHand                // has one in hand
    | HasUnapplied             // has one in hand that it has not applied
    | StepsLeft                // a bound on its own steps, if it takes no further job
    | Shown(c: Counter)        // the worker's own counter
    | Owed(c: Counter)         // what it has yet to add, less what it has added too early

  /** The five counts kept both by the workers and by the sensors. */
  datatype Counter = Dropped | Duplicates | OutOfOrder | Errors | Anomalies

  function Value(k: Measure, me: Worker): int {
    match k
    case HoldsUnapplied(x) => if me.phase.Holding? && me.phase.m == x then 1 else 0
    case HoldsApplied(x) => if Applying(me.phase) && me.phase.m == x then 1 else 0
    case Delivered => me.processed + me.errors + me.anomalies
    case Processed => me.processed
    case UncountedInHand => if InHand(me.phase) && !Recording(me.phase) then 1 else 0
    case HasInHand => if InHand(me.phase) then 1 else 0
    case HasUnapplied => if me.phase.Holding? then 1 else 0
    case StepsLeft => PhaseRank(me.phase)
    case Shown(c) => WorkerCount(c, me)
    case Owed(c) => OwedBy(c, me.phase)
  }

  function PhaseRank(ph: Phase): nat {
    match ph
    case Exited => 0
    case Idle => 1
    case RecordingAnomaly(_, _) => 2
    case RecordingError(_, _) => 2
    case Validating(_, _) => 3
    case AddingOutOfOrder(_, _, _) => 4
    case AddingDuplicate(_, _, _) => 5
    case AddingDropped(_, _, _) => 6
    case Holding(_, _) => 7
  }

  function WorkerCount(c: Counter, me: Worker): int {
    match c
    case Dropped => me.dropped
    case Duplicates => me.duplicates
    case OutOfOrder => me.outOfOrder
    case Errors => me.errors
    case Anomalies => me.anomalies
  }

  /** Sequence counts reach the store first and the worker later; errors and
      anomalies reach the worker first and the store later. */
  function OwedBy(c: Counter, ph: Phase): int {
    match c
    case Dropped => if ph.AddingDropped? then ph.r.droppedCount else 0
    case Duplicates =>
      if (ph.AddingDropped? || ph.AddingDuplicate?) && ph.r.isDuplicate then 1 else 0
    case OutOfOrder =>
      if (ph.AddingDropped? || ph.AddingDuplicate? || ph.AddingOutOfOrder?) && ph.r.isOutOfOrder then 1 else 0
    case Errors => if ph.RecordingError? then -1 else 0
    case Anomalies => if ph.RecordingAnomaly? then -1 else 0
  }

  function Sum(k: Measure, ws: seq<Worker>): int {
    if ws == [] then 0 else Sum(k, ws[..|ws| - 1]) + Value(k, ws[|ws| - 1])
  }

  lemma {:induction false} SumUpdate(k: Measure, ws: seq<Worker>, w: nat, me: Worker)
    requires w < |ws|
    ensures Sum(k, ws[w := me]) == Sum(k, ws) - Value(k, ws[w]) + Value(k, me)
  {
    var n := |ws| - 1;
    if w == n {
      assert ws[w := me][..n] == ws[..n];
    } else {
      SumUpdate(k, ws[..n], w, me);
      assert ws[w := me][..n] == ws[..n][w := me];
    }
  }

  lemma {:induction false} SumZero(k: Measure, ws: seq<Worker>)
    requires forall w :: 0 <= w < |ws| ==> Value(k, ws[w]) == 0
    ensures Sum(k, ws) == 0
  {
    if ws != [] {
      SumZero(k, ws[..|ws| - 1]);
    }
  }

  lemma {:induction false} SumBounded(k: Measure, ws: seq<Worker>)
    requires !k.Delivered? && !k.Processed? && !k.StepsLeft? && !k.Shown? && !k.Owed?
    ensures 0 <= Sum(k, ws) <= |ws|
  {
    if ws != [] {
      SumBounded(k, ws[..|ws| - 1]);
    }
  }

  lemma {:induction false} SumZeroExactly(k: Measure, ws: seq<Worker>)
    requires !k.Delivered? && !k.Processed? && !k.StepsLeft? && !k.Shown? && !k.Owed?
    ensures Sum(k, ws) == 0 <==> forall w :: 0 <= w < |ws| ==> Value(k, ws[w]) == 0
  {
    if ws != [] {
      var n := |ws| - 1;
      SumBounded(k, ws[..n]);
      SumZeroExactly(k, ws[..n]);
      if Sum(k, ws) == 0 {
        forall w | 0 <= w < |ws| ensures Value(k, ws[w]) == 0 {
          if w < n { assert ws[..n][w] == ws[w]; }
        }
      }
    }
  }

  lemma SumStep(k: Measure, s: State, a: Action)
    requires Enabled(s, a)
    ensures Sum(k, Next(s, a).workers) == Sum(k, s.workers)
      + if IsWorkerAction(a) then Value(k, Next(s, a).workers[a.w]) - Value(k, s.workers[a.w]) else 0
  {
    if IsWorkerAction(a) {
      SumUpdate(k, s.workers, a.w, Next(s, a).workers[a.w]);
    }
  }

  lemma SumInit(k: Measure, numWorkers: int, queueSize: int)
    requires !k.StepsLeft?
    ensures Sum(k, Init(numWorkers, queueSize).workers) == 0
  {
    SumZero(k, Init(numWorkers, queueSize).workers);
  }

  // ----- Conservation of messages -----

  /** The messages among some jobs, in order; nil pointers left out. */
  function MsgsIn(js: seq<Job>): seq<Msg> {
    if js == [] then []
    else
      var j := js[|js| - 1];
      MsgsIn(js[..|js| - 1]) + (if j.Job? then [j.msg] else [])
  }

  lemma MsgsInSnoc(js: seq<Job>, j: Job)
    ensures MsgsIn(js + [j]) == MsgsIn(js) + (if j.Job? then [j.msg] else [])
  {
    assert (js + [j])[..|js|] == js;
  }

  lemma {:induction false} MsgsInAppend(a: seq<Job>, b: seq<Job>)
    ensures MsgsIn(a + b) == MsgsIn(a) + MsgsIn(b)
  {
    if b == [] {
      assert a + b == a;
    } else {
      var b', j := b[..|b| - 1], b[|b| - 1];
      MsgsInAppend(a, b');
      assert a + b == (a + b') + [j];
      MsgsInSnoc(a + b', j);
    }
  }

  ghost function FinishedMsgs(s: State): seq<Msg>
    requires OnePlace(s)
  {
    AppliedAreMessages(s);
    MsgsAt(s.sent, s.finished)
  }

  ghost predicate Conserved(s: State, x: Msg)
    requires Places(s)
  {
    && multiset(MsgsIn(s.sent[..|s.takers|]))[x] == multiset(AppliedMsgs(s))[x] + Sum(HoldsUnapplied(x), s.workers)
    && multiset(AppliedMsgs(s))[x] == multiset(FinishedMsgs(s))[x] + Sum(HoldsApplied(x), s.workers)
  }

  /** The action ends a worker's handling of its message. */
  predicate Finishes(s: State, a: Action)
    requires Enabled(s, a)
  {
    a.Record? || (a.Count? && Counted(s.workers[a.w]).phase.Idle?)
  }

  lemma FinishedStep(s: State, a: Action)
    requires Places(s) && Enabled(s, a)
    ensures s.sent <= Next(s, a).sent
    ensures Finishes(s, a) ==>
      var ph := s.workers[a.w].phase;
      && ph.i < |s.sent| && s.sent[ph.i] == Job(ph.m)
      && Next(s, a).finished == s.finished + [ph.i] && Next(s, a).sent == s.sent
    ensures !Finishes(s, a) ==> Next(s, a).finished == s.finished
  {
    if Finishes(s, a) { assert HandOK(s, a.w); }
  }

  lemma FinishedMsgsStep(s: State, a: Action)
    requires Places(s) && Enabled(s, a)
    ensures OnePlace(Next(s, a))
    ensures FinishedMsgs(Next(s, a)) ==
      if Finishes(s, a) then FinishedMsgs(s) + [s.workers[a.w].phase.m] else FinishedMsgs(s)
  {
    PlacesStep(s, a);
    AppliedAreMessages(s);
    FinishedStep(s, a);
    if Finishes(s, a) {
      MsgsAtSnoc(s.sent, s.finished, s.workers[a.w].phase.i);
    } else {
      MsgsAtGrows(s.sent, Next(s, a).sent, s.finished);
    }
  }

  lemma TakenStep(s: State, a: Action)
    requires Fifo(s) && Enabled(s, a)
    ensures Fifo(Next(s, a))
    ensures Next(s, a).sent[..|Next(s, a).takers|] ==
      s.sent[..|s.takers|] + if a.Dequeue? then [s.queue[0]] else []
  {
    FifoStep(s, a);
  }

  lemma TakenMsgsStep(s: State, a: Action)
    requires Places(s) && Enabled(s, a)
    ensures Fifo(Next(s, a))
    ensures var s' := Next(s, a);
      MsgsIn(s'.sent[..|s'.takers|]) ==
        if a.Dequeue? && s.queue[0].Job? then MsgsIn(s.sent[..|s.takers|]) + [s.queue[0].msg]
        else MsgsIn(s.sent[..|s.takers|])
  {
    TakenStep(s, a);
    var taken := s.sent[..|s.takers|];
    if a.Dequeue? {
      MsgsInSnoc(taken, s.queue[0]);
      assert MsgsIn(taken) + [] == MsgsIn(taken);
    } else {
      assert taken + [] == taken;
    }
  }

  function Is(m: Msg, x: Msg): int {
    if m == x then 1 else 0
  }

  lemma HeldDelta(s: State, a: Action, x: Msg)
    requires Enabled(s, a)
    ensures Sum(HoldsUnapplied(x), Next(s, a).workers) == Sum(HoldsUnapplied(x), s.workers) +
      if a.Dequeue? && s.queue[0].Job? then Is(s.queue[0].msg, x)
      else if a.UpdateStore? then -Is(s.workers[a.w].phase.m, x)
      else 0
    ensures Sum(HoldsApplied(x), Next(s, a).workers) == Sum(HoldsApplied(x), s.workers) +
      if a.UpdateStore? then Is(s.workers[a.w].phase.m, x)
      else if Finishes(s, a) then -Is(s.workers[a.w].phase.m, x)
      else 0
  {
    SumStep(HoldsUnapplied(x), s, a);
    SumStep(HoldsApplied(x), s, a);
  }

  lemma TakenCopies(s: State, a: Action, x: Msg)
    requires Places(s) && Enabled(s, a)
    ensures Fifo(Next(s, a))
    ensures var s' := Next(s, a);
      multiset(MsgsIn(s'.sent[..|s'.takers|]))[x] == multiset(MsgsIn(s.sent[..|s.takers|]))[x]
        + if a.Dequeue? && s.queue[0].Job? then Is(s.queue[0].msg, x) else 0
  {
    TakenMsgsStep(s, a);
  }

  lemma AppliedCopies(s: State, a: Action, x: Msg)
    requires Places(s) && Enabled(s, a)
    ensures OnePlace(Next(s, a))
    ensures multiset(AppliedMsgs(Next(s, a)))[x] == multiset(AppliedMsgs(s))[x]
        + if a.UpdateStore? then Is(s.workers[a.w].phase.m, x) else 0
  {
    AppliedMsgsStep(s, a);
  }

  lemma FinishedCopies(s: State, a: Action, x: Msg)
    requires Places(s) && Enabled(s, a)
    ensures OnePlace(Next(s, a))
    ensures multiset(FinishedMsgs(Next(s, a)))[x] == multiset(FinishedMsgs(s))[x]
        + if Finishes(s, a) then Is(s.workers[a.w].phase.m, x) else 0
  {
    FinishedMsgsStep(s, a);
  }

  lemma ConservedStep(s: State, a: Action, x: Msg)
    requires Places(s) && Conserved(s, x) && Enabled(s, a)
    ensures Places(Next(s, a)) && Conserved(Next(s, a), x)
  {
    PlacesStep(s, a);
    TakenCopies(s, a, x);
    AppliedCopies(s, a, x);
    FinishedCopies(s, a, x);
    HeldDelta(s, a, x);
  }

  lemma {:induction false} ExecConserved(numWorkers: int, queueSize: int, acts: seq<Action>, x: Msg)
    requires Exec(Init(numWorkers, queueSize), acts).Some?
    ensures var s := Exec(Init(numWorkers, queueSize), acts).value; Places(s) && Conserved(s, x)
  {
    ExecSound(numWorkers, queueSize, acts);
    if acts == [] {
      SumInit(HoldsUnapplied(x), numWorkers, queueSize);
      SumInit(HoldsApplied(x), numWorkers, queueSize);
    } else {
      var before := acts[..|acts| - 1];
      ExecConserved(numWorkers, queueSize, before, x);
      ConservedStep(Exec(Init(numWorkers, queueSize), before).value, acts[|acts| - 1], x);
    }
  }

  lemma SentCopies(s: State, x: Msg)
    requires Fifo(s)
    ensures multiset(MsgsIn(s.sent))[x] == multiset(MsgsIn(s.sent[..|s.takers|]))[x] + multiset(MsgsIn(s.queue))[x]
  {
    var k := |s.takers|;
    assert s.sent == s.sent[..k] + s.queue;
    MsgsInAppend(s.sent[..k], s.queue);
  }

  lemma ReachableConserved(numWorkers: int, queueSize: int, s: State, x: Msg)
    requires Reachable(numWorkers, queueSize, s)
    ensures Places(s) && Conserved(s, x)
  {
    var acts :| Exec(Init(numWorkers, queueSize), acts) == Some(s);
    ExecConserved(numWorkers, queueSize, acts, x);
  }

  /** In every reachable state, each message was sent exactly as often as it is
      queued, held unapplied, applied and still in hand, or finished. */
  lemma {:induction false} NoMessageLost(numWorkers: int, queueSize: int, s: State, x: Msg)
    requires Reachable(numWorkers, queueSize, s)
    ensures Places(s)
    ensures multiset(MsgsIn(s.sent))[x] ==
      multiset(MsgsIn(s.queue))[x] + Sum(HoldsUnapplied(x), s.workers) + multiset(AppliedMsgs(s))[x]
    ensures multiset(AppliedMsgs(s))[x] == Sum(HoldsApplied(x), s.workers) + multiset(FinishedMsgs(s))[x]
    ensures 0 <= Sum(HoldsUnapplied(x), s.workers) && 0 <= Sum(HoldsApplied(x), s.workers)
  {
    ReachableConserved(numWorkers, queueSize, s, x);
    SentCopies(s, x);
    SumBounded(HoldsUnapplied(x), s.workers);
    SumBounded(HoldsApplied(x), s.workers);
  }

  // ----- Conservation of counts -----

  function Nils(js: seq<Job>): nat {
    if js == [] then 0 else Nils(js[..|js| - 1]) + if js[|js| - 1].Nil? then 1 else 0
  }

  lemma {:induction false} NilOrMessage(js: seq<Job>)
    ensures |js| == Nils(js) + |MsgsIn(js)|
  {
    if js != [] {
      NilOrMessage(js[..|js| - 1]);
    }
  }

  ghost predicate Counts(s: State)
    requires Fifo(s)
  {
    && |MsgsIn(s.sent[..|s.takers|])| == Sum(Delivered, s.workers) + Sum(UncountedInHand, s.workers)
    && |MsgsIn(s.sent[..|s.takers|])| == |s.finished| + Sum(HasInHand, s.workers)
    && |s.sent| == s.gate.enqueued + s.gate.uncounted
  }

  lemma DeliveredDelta(s: State, a: Action)
    requires Enabled(s, a)
    ensures Sum(Delivered, Next(s, a).workers) + Sum(UncountedInHand, Next(s, a).workers) ==
      Sum(Delivered, s.workers) + Sum(UncountedInHand, s.workers)
        + if a.Dequeue? && s.queue[0].Job? then 1 else 0
  {
    SumStep(Delivered, s, a);
    SumStep(UncountedInHand, s, a);
  }

  lemma FinishedDelta(s: State, a: Action)
    requires Enabled(s, a)
    ensures |Next(s, a).finished| + Sum(HasInHand, Next(s, a).workers) ==
      |s.finished| + Sum(HasInHand, s.workers) + if a.Dequeue? && s.queue[0].Job? then 1 else 0
  {
    SumStep(HasInHand, s, a);
  }

  lemma CountsStep(s: State, a: Action)
    requires Places(s) && Counts(s) && Enabled(s, a)
    ensures Fifo(Next(s, a)) && Counts(Next(s, a))
  {
    TakenMsgsStep(s, a);
    DeliveredDelta(s, a);
    FinishedDelta(s, a);
  }

  lemma CountsInit(numWorkers: int, queueSize: int)
    ensures Fifo(Init(numWorkers, queueSize)) && Counts(Init(numWorkers, queueSize))
  {
    SumInit(Delivered, numWorkers, queueSize);
    SumInit(UncountedInHand, numWorkers, queueSize);
    SumInit(HasInHand, numWorkers, queueSize);
  }

  lemma {:induction false} ExecCounts(numWorkers: int, queueSize: int, acts: seq<Action>)
    requires Exec(Init(numWorkers, queueSize), acts).Some?
    ensures var s := Exec(Init(numWorkers, queueSize), acts).value; Places(s) && Counts(s)
  {
    ExecSound(numWorkers, queueSize, acts);
    if acts == [] {
      CountsInit(numWorkers, queueSize);
    } else {
      var before := acts[..|acts| - 1];
      ExecCounts(numWorkers, queueSize, before);
      CountsStep(Exec(Init(numWorkers, queueSize), before).value, acts[|acts| - 1]);
    }
  }

  /** In every reachable state: sends are the counted ones and those about to be
      counted; and what was sent is what is queued, skipped as nil, counted by some
      worker as processed, an error or an anomaly, or in hand and not yet counted,
      of which there is at most one a worker. */
  lemma PipelineConservation(numWorkers: int, queueSize: int, s: State)
    requires Reachable(numWorkers, queueSize, s)
    ensures Fifo(s)
    ensures |s.sent| == s.gate.enqueued + s.gate.uncounted
    ensures |s.sent| == |s.queue| + Nils(s.sent[..|s.takers|])
      + Sum(Delivered, s.workers) + Sum(UncountedInHand, s.workers)
    ensures |s.sent| == |s.queue| + Nils(s.sent[..|s.takers|]) + |s.finished| + Sum(HasInHand, s.workers)
    ensures 0 <= Sum(UncountedInHand, s.workers) <= |s.workers|
    ensures 0 <= Sum(HasInHand, s.workers) <= |s.workers|
  {
    var acts :| Exec(Init(numWorkers, queueSize), acts) == Some(s);
    ExecCounts(numWorkers, queueSize, acts);
    NilOrMessage(s.sent[..|s.takers|]);
    SumBounded(UncountedInHand, s.workers);
    SumBounded(HasInHand, s.workers);
  }
}
