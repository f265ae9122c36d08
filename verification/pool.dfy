/** The worker pool as a transition system: one bounded queue, any number of
    workers, any number of producers, one Start/Stop lifecycle, any schedule.

    Each action is one atomic step of one goroutine: a channel operation, an
    atomic counter add, or one critical section of the store. */
module Pool {
  import opened Protocol
  import opened Store
  import Tracker

  /** What a producer may put in the queue: a message, or a nil pointer. */
  datatype Job = Nil | Job(msg: Msg)

  // ----- Workers -----

  /** Where a worker is in its loop. `i` is the position, in the order of sends, of
      the message in hand; each phase is named after the step that comes next. */
  datatype Phase =
    | Idle
    | Holding(i: nat, m: Msg)
    | AddingDropped(i: nat, m: Msg, r: Tracker.UpdateResult)
    | AddingDuplicate(i: nat, m: Msg, r: Tracker.UpdateResult)
    | AddingOutOfOrder(i: nat, m: Msg, r: Tracker.UpdateResult)
    | Validating(i: nat, m: Msg)
    | RecordingAnomaly(i: nat, m: Msg)
    | RecordingError(i: nat, m: Msg)
    | Exited

  datatype Worker = Worker(
    phase: Phase,
    processed: nat,
    errors: nat,
    anomalies: nat,
    dropped: nat,
    duplicates: nat,
    outOfOrder: nat)

  const FRESH_WORKER := Worker(Idle, 0, 0, 0, 0, 0, 0)

  predicate InHand(ph: Phase) {
    !ph.Idle? && !ph.Exited?
  }

  /** In hand, and already applied to the store. */
  predicate Applying(ph: Phase) {
    InHand(ph) && !ph.Holding?
  }

  predicate Counting(ph: Phase) {
    ph.AddingDropped? || ph.AddingDuplicate? || ph.AddingOutOfOrder? || ph.Validating?
  }

  predicate Recording(ph: Phase) {
    ph.RecordingAnomaly? || ph.RecordingError?
  }

  /** A worker's next atomic add to one of its own counters. */
  function Counted(me: Worker): Worker
    requires Counting(me.phase)
  {
    var (i, m) := (me.phase.i, me.phase.m);
    match me.phase
    case AddingDropped(_, _, r) =>
      me.(phase := AddingDuplicate(i, m, r), dropped := me.dropped + r.droppedCount)
    case AddingDuplicate(_, _, r) =>
      me.(phase := AddingOutOfOrder(i, m, r), duplicates := me.duplicates + if r.isDuplicate then 1 else 0)
    case AddingOutOfOrder(_, _, r) =>
      me.(phase := Validating(i, m), outOfOrder := me.outOfOrder + if r.isOutOfOrder then 1 else 0)
    case Validating(_, _) =>
      match Validate(m)
      case Fine => me.(phase := Idle, processed := me.processed + 1)
      case OutOfRange => me.(phase := RecordingAnomaly(i, m), anomalies := me.anomalies + 1)
      case Malformed => me.(phase := RecordingError(i, m), errors := me.errors + 1)
  }

  /** The critical section that follows a failed validation. */
  function RecordOp(ph: Phase): Op
    requires Recording(ph)
  {
    if ph.RecordingAnomaly? then Op.RecordAnomaly(ph.m.sensorID) else Op.RecordError(ph.m.sensorID)
  }

  // ----- Producers and lifecycle -----

  datatype Gate = Gate(
    running: bool,            // isRunning
    stopClosed: bool,         // stopChan closed
    jobsClosed: bool,         // jobsChan closed
    enqueuing: nat,           // producers past Enqueue's running check, not yet sent
    trying: nat,              // the same for TryEnqueue
    uncounted: nat,           // producers that have sent and not yet counted it
    enqueued: nat,            // totalMessagesEnqueued
    queueFull: nat)           // queueFullEvents

  datatype GateAction =
    | BeginEnqueue | BeginTryEnqueue | CountSend | AbortEnqueue | RejectFull
    | ClearRunning | CloseStop | CloseJobs

  predicate GateEnabled(g: Gate, full: bool, a: GateAction) {
    match a
    case BeginEnqueue => g.running
    case BeginTryEnqueue => g.running
    case CountSend => g.uncounted > 0
    case AbortEnqueue => g.enqueuing > 0 && g.stopClosed
    case RejectFull => g.trying > 0 && !g.jobsClosed && full
    case ClearRunning => g.running
    case CloseStop => !g.running && !g.stopClosed
    case CloseJobs => g.stopClosed && !g.jobsClosed
  }

  function GateNext(g: Gate, full: bool, a: GateAction): Gate
    requires GateEnabled(g, full, a)
  {
    match a
    case BeginEnqueue => g.(enqueuing := g.enqueuing + 1)
    case BeginTryEnqueue => g.(trying := g.trying + 1)
    case CountSend => g.(uncounted := g.uncounted - 1, enqueued := g.enqueued + 1)
    case AbortEnqueue => g.(enqueuing := g.enqueuing - 1)
    case RejectFull => g.(trying := g.trying - 1, queueFull := g.queueFull + 1)
    case ClearRunning => g.(running := false)
    case CloseStop => g.(stopClosed := true)
    case CloseJobs => g.(jobsClosed := true)
  }

  /** A send into the channel; `blocking` says which of the two entry points made it. */
  function GateSend(g: Gate, blocking: bool): Gate
    requires if blocking then g.enqueuing > 0 else g.trying > 0
  {
    if blocking then g.(enqueuing := g.enqueuing - 1, uncounted := g.uncounted + 1)
    else g.(trying := g.trying - 1, uncounted := g.uncounted + 1)
  }

  // ----- The pool -----

  datatype State = State(
    capacity: nat,
    queue: seq<Job>,
    workers: seq<Worker>,
    store: Store,
    gate: Gate,
    // history, read by no step
    sent: seq<Job>,           // every send so far, in order
    takers: seq<nat>,         // which worker took each job off the queue, in order
    applied: seq<nat>,        // positions of the messages applied to the store, in order
    finished: seq<nat>)       // positions of the messages done with, in order

  datatype Action =
    | Gatekeeping(g: GateAction)
    | Send(job: Job, blocking: bool)
    | Scan(now: int, timeout: int)
    | Dequeue(w: nat)
    | UpdateStore(w: nat, now: int)
    | Count(w: nat)
    | Record(w: nat)
    | Exit(w: nat)

  /** `NewProcessor` followed by `Start`, with the defaults for sizes that make no sense. */
  function Init(numWorkers: int, queueSize: int): State {
    var n := if numWorkers <= 0 then 4 else numWorkers;
    var c := if queueSize <= 0 then 1000 else queueSize;
    State(c, [], seq(n, _ => FRESH_WORKER), map[], Gate(true, false, false, 0, 0, 0, 0, 0), [], [], [], [])
  }

  predicate IsWorkerAction(a: Action) {
    a.Dequeue? || a.UpdateStore? || a.Count? || a.Record? || a.Exit?
  }

  predicate Enabled(s: State, a: Action) {
    match a
    case Gatekeeping(g) =>
      GateEnabled(s.gate, |s.queue| >= s.capacity, g)
    case Send(_, blocking) =>
      (if blocking then s.gate.enqueuing > 0 else s.gate.trying > 0)
      && !s.gate.jobsClosed && |s.queue| < s.capacity
    case Scan(_, _) => true
    case Dequeue(w) => w < |s.workers| && s.workers[w].phase.Idle? && s.queue != []
    case UpdateStore(w, _) => w < |s.workers| && s.workers[w].phase.Holding?
    case Count(w) => w < |s.workers| && Counting(s.workers[w].phase)
    case Record(w) => w < |s.workers| && Recording(s.workers[w].phase)
    case Exit(w) =>
      w < |s.workers| && s.workers[w].phase.Idle?
      && (s.gate.stopClosed || (s.gate.jobsClosed && s.queue == []))
  }

  function Next(s: State, a: Action): State
    requires Enabled(s, a)
  {
    match a
    case Gatekeeping(g) =>
      s.(gate := GateNext(s.gate, |s.queue| >= s.capacity, g))
    case Send(job, blocking) =>
      s.(gate := GateSend(s.gate, blocking), queue := s.queue + [job], sent := s.sent + [job])
    case Scan(now, timeout) =>
      s.(store := Apply(s.store, Op.CheckStale(now, timeout)))
    case Dequeue(w) =>
      // a nil pointer is skipped: the worker goes straight back to waiting
      var phase := if s.queue[0].Nil? then Idle else Holding(|s.takers|, s.queue[0].msg);
      s.(queue := s.queue[1..],
         takers := s.takers + [w],
         workers := s.workers[w := s.workers[w].(phase := phase)])
    case UpdateStore(w, now) =>
      var ph := s.workers[w].phase;
      var r := UpdateSensor(s.store, ph.m, now).1;
      s.(store := Apply(s.store, Op.Update(ph.m, now)),
         applied := s.applied + [ph.i],
         workers := s.workers[w := s.workers[w].(phase := AddingDropped(ph.i, ph.m, r))])
    case Count(w) =>
      var me := Counted(s.workers[w]);
      s.(workers := s.workers[w := me],
         finished := if me.phase.Idle? then s.finished + [s.workers[w].phase.i] else s.finished)
    case Record(w) =>
      var ph := s.workers[w].phase;
      s.(store := Apply(s.store, RecordOp(ph)),
         workers := s.workers[w := s.workers[w].(phase := Idle)],
         finished := s.finished + [ph.i])
    case Exit(w) =>
      s.(workers := s.workers[w := s.workers[w].(phase := Exited)])
  }

  /** The state a schedule leads to, if each of its actions can be taken in turn. */
  function Exec(s: State, acts: seq<Action>): Option<State> {
    if acts == [] then Some(s)
    else
      match Exec(s, acts[..|acts| - 1])
      case None => None
      case Some(p) => if Enabled(p, acts[|acts| - 1]) then Some(Next(p, acts[|acts| - 1])) else None
  }

  /** A state that some schedule of a pool with these parameters leads to. */
  ghost predicate Reachable(numWorkers: int, queueSize: int, s: State) {
    exists acts :: Exec(Init(numWorkers, queueSize), acts) == Some(s)
  }

  lemma ExecSnoc(s: State, acts: seq<Action>, a: Action)
    ensures Exec(s, acts + [a]) ==
      match Exec(s, acts)
      case None => None
      case Some(p) => if Enabled(p, a) then Some(Next(p, a)) else None
  {
    assert (acts + [a])[..|acts|] == acts;
  }

  lemma {:induction false} ExecAppend(s: State, a: seq<Action>, b: seq<Action>)
    ensures Exec(s, a + b) ==
      match Exec(s, a)
      case None => None
      case Some(p) => Exec(p, b)
  {
    if b == [] {
      assert a + b == a;
    } else {
      var b', x := b[..|b| - 1], b[|b| - 1];
      ExecAppend(s, a, b');
      assert a + b == (a + b') + [x];
      ExecSnoc(s, a + b', x);
    }
  }

  lemma {:induction false} ExecCons(s: State, a: Action, rest: seq<Action>)
    requires Enabled(s, a)
    ensures Exec(s, [a] + rest) == Exec(Next(s, a), rest)
  {
    assert [a][..0] == [];
    assert Exec(s, [a]) == Some(Next(s, a));
    ExecAppend(s, [a], rest);
  }

  /** The steps of one call of `Enqueue` (blocking) or `TryEnqueue` that finds room
      and is not interrupted. */
  function CallSteps(j: Job, blocking: bool): seq<Action> {
    [Gatekeeping(if blocking then BeginEnqueue else BeginTryEnqueue), Send(j, blocking), Gatekeeping(CountSend)]
  }

  lemma {:induction false} CallStates(p: State, j: Job, blocking: bool) returns (p1: State, p2: State)
    requires p.gate.running && !p.gate.jobsClosed && |p.queue| < p.capacity
    ensures var a := Gatekeeping(if blocking then BeginEnqueue else BeginTryEnqueue);
      Enabled(p, a) && p1 == Next(p, a)
    ensures Enabled(p1, Send(j, blocking)) && p2 == Next(p1, Send(j, blocking))
    ensures Enabled(p2, Gatekeeping(CountSend))
    ensures Next(p2, Gatekeeping(CountSend)) == p.(
      queue := p.queue + [j], sent := p.sent + [j], gate := p.gate.(enqueued := p.gate.enqueued + 1))
  {
    p1 := Next(p, Gatekeeping(if blocking then BeginEnqueue else BeginTryEnqueue));
    p2 := Next(p1, Send(j, blocking));
  }

  lemma {:induction false} CallRuns(p: State, j: Job, blocking: bool)
    requires p.gate.running && !p.gate.jobsClosed && |p.queue| < p.capacity
    ensures Exec(p, CallSteps(j, blocking)) == Some(p.(
      queue := p.queue + [j], sent := p.sent + [j], gate := p.gate.(enqueued := p.gate.enqueued + 1)))
  {
    var a := Gatekeeping(if blocking then BeginEnqueue else BeginTryEnqueue);
    var b, c := Send(j, blocking), Gatekeeping(CountSend);
    var p1, p2 := CallStates(p, j, blocking);
    assert CallSteps(j, blocking) == [a] + ([b] + ([c] + []));
    ExecCons(p, a, [b] + ([c] + []));
    ExecCons(p1, b, [c] + []);
    ExecCons(p2, c, []);
  }

  lemma {:induction false} CallStuck(p: State, j: Job, blocking: bool)
    requires p.capacity <= |p.queue|
    ensures Exec(p, CallSteps(j, blocking)) == None
  {
    var a := Gatekeeping(if blocking then BeginEnqueue else BeginTryEnqueue);
    var b, c := Send(j, blocking), Gatekeeping(CountSend);
    assert CallSteps(j, blocking) == [] + [a] + [b] + [c];
    ExecSnoc(p, [] + [a] + [b], c);
    ExecSnoc(p, [] + [a], b);
    ExecSnoc(p, [], a);
  }
}
