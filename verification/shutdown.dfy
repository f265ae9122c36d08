/** Stopping the pool, and waiting for it to fall quiet. */
module Shutdown {
  import opened Protocol
  import opened Pool
  import opened PoolInvariants
  import opened Accounting
  import opened Agreement

  // ----- Producers and the closed channel -----

  function InFlight(g: Gate): nat {
    g.enqueuing + g.trying
  }

  /** A producer that has passed the running check is about to send on, or select
      on, a channel that has been closed: the program would panic. */
  predicate Panics(s: State) {
    s.gate.jobsClosed && InFlight(s.gate) > 0
  }

  predicate GateOrder(g: Gate) {
    (g.jobsClosed ==> g.stopClosed) && (g.stopClosed ==> !g.running)
  }

  lemma GateStep(s: State, a: Action)
    requires Enabled(s, a) && GateOrder(s.gate)
    ensures var g := Next(s, a).gate;
      && GateOrder(g)
      && (!s.gate.running ==> !g.running && InFlight(g) <= InFlight(s.gate))
      && (!s.gate.running && InFlight(s.gate) == 0 ==> Next(s, a).sent == s.sent)
      && (s.gate.stopClosed ==> g.stopClosed) && (s.gate.jobsClosed ==> g.jobsClosed)
  {
  }

  /** Once the pool is marked as not running, producers only ever finish. */
  lemma {:induction false} DrainsProducers(p: State, acts: seq<Action>)
    requires Exec(p, acts).Some? && GateOrder(p.gate)
    ensures var q := Exec(p, acts).value;
      && GateOrder(q.gate)
      && (!p.gate.running ==> !q.gate.running && InFlight(q.gate) <= InFlight(p.gate))
      && (!p.gate.running && InFlight(p.gate) == 0 ==> q.sent == p.sent)
      && (p.gate.stopClosed ==> q.gate.stopClosed) && (p.gate.jobsClosed ==> q.gate.jobsClosed)
  {
    if acts != [] {
      var before := acts[..|acts| - 1];
      DrainsProducers(p, before);
      GateStep(Exec(p, before).value, acts[|acts| - 1]);
    }
  }

  lemma {:induction false} PrefixRuns(s: State, acts: seq<Action>, k: nat)
    requires Exec(s, acts).Some? && k <= |acts|
    ensures Exec(s, acts[..k]).Some?
    ensures Exec(s, acts) == Exec(Exec(s, acts[..k]).value, acts[k..])
  {
    assert acts == acts[..k] + acts[k..];
    ExecAppend(s, acts[..k], acts[k..]);
  }

  lemma {:induction false} StepAt(s: State, acts: seq<Action>, k: nat)
    requires Exec(s, acts).Some? && k < |acts|
    ensures Exec(s, acts[..k]).Some? && Exec(s, acts[..k + 1]).Some?
    ensures var p := Exec(s, acts[..k]).value;
      Enabled(p, acts[k]) && Exec(s, acts[..k + 1]).value == Next(p, acts[k])
    ensures Exec(s, acts) == Exec(Exec(s, acts[..k + 1]).value, acts[k + 1..])
  {
    PrefixRuns(s, acts, k);
    PrefixRuns(s, acts, k + 1);
    assert acts[..k + 1] == acts[..k] + [acts[k]];
    ExecSnoc(s, acts[..k], acts[k]);
  }

  lemma {:induction false} NotYetClosed(s: State, acts: seq<Action>, k: nat, j: nat)
    requires GateOrder(s.gate) && Exec(s, acts).Some? && j <= k <= |acts|
    requires Exec(s, acts[..k]).Some? && !Exec(s, acts[..k]).value.gate.jobsClosed
    ensures Exec(s, acts[..j]).Some? && !Exec(s, acts[..j]).value.gate.jobsClosed
  {
    PrefixRuns(s, acts[..k], j);
    assert acts[..k][..j] == acts[..j];
    DrainsProducers(s, acts[..j]);
    DrainsProducers(Exec(s, acts[..j]).value, acts[..k][j..]);
  }

  lemma {:induction false} StaysDrained(s: State, acts: seq<Action>, k: nat, j: nat)
    requires GateOrder(s.gate) && Exec(s, acts).Some? && k <= j <= |acts|
    requires Exec(s, acts[..k]).Some?
    requires var p := Exec(s, acts[..k]).value; !p.gate.running && InFlight(p.gate) == 0
    ensures Exec(s, acts[..j]).Some?
    ensures var (p, q) := (Exec(s, acts[..k]).value, Exec(s, acts[..j]).value);
      InFlight(q.gate) == 0 && !q.gate.running && q.sent == p.sent
  {
    PrefixRuns(s, acts, j);
    PrefixRuns(s, acts[..j], k);
    assert acts[..j][..k] == acts[..k];
    DrainsProducers(s, acts[..k]);
    DrainsProducers(Exec(s, acts[..k]).value, acts[..j][k..]);
  }

  ghost predicate PanicsAt(s: State, acts: seq<Action>, j: nat)
    requires j <= |acts|
  {
    Exec(s, acts[..j]).Some? && Panics(Exec(s, acts[..j]).value)
  }

  /** A send on the closed channel can happen in a run exactly if some producer was
      still between its running check and its send when `Stop` closed the channel. */
  lemma {:induction false} SendOnClosedExactly(s: State, acts: seq<Action>, k: nat)
    requires GateOrder(s.gate) && Exec(s, acts).Some?
    requires k < |acts| && acts[k] == Gatekeeping(CloseJobs)
    ensures Exec(s, acts[..k]).Some?
    ensures InFlight(Exec(s, acts[..k]).value.gate) > 0 <==>
      exists j: nat :: j <= |acts| && PanicsAt(s, acts, j)
  {
    StepAt(s, acts, k);
    var p := Exec(s, acts[..k]).value;
    DrainsProducers(s, acts[..k]);
    if InFlight(p.gate) > 0 {
      assert PanicsAt(s, acts, k + 1);
    } else {
      forall j: nat | j <= |acts| ensures !PanicsAt(s, acts, j) {
        if j <= k {
          NotYetClosed(s, acts, k, j);
        } else {
          StaysDrained(s, acts, k, j);
        }
      }
    }
  }

  /** and it does happen, in a pool of any size: a producer checks, `Stop` runs, and
      the producer goes on to a closed channel. */
  lemma SendOnClosedExample(numWorkers: int, queueSize: int)
    ensures var acts := [Gatekeeping(BeginEnqueue), Gatekeeping(ClearRunning),
                         Gatekeeping(CloseStop), Gatekeeping(CloseJobs)];
      PanicsAt(Init(numWorkers, queueSize), acts, 4)
  {
    var s := Init(numWorkers, queueSize);
    var a, b := Gatekeeping(BeginEnqueue), Gatekeeping(ClearRunning);
    var c, d := Gatekeeping(CloseStop), Gatekeeping(CloseJobs);
    var s1 := Next(s, a);
    var s2 := Next(s1, b);
    var s3 := Next(s2, c);
    ExecCons(s, a, [b, c, d]);
    ExecCons(s1, b, [c, d]);
    ExecCons(s2, c, [d]);
    ExecCons(s3, d, []);
    assert [a, b, c, d] == [a] + [b, c, d] && [b, c, d] == [b] + [c, d] && [c, d] == [c] + [d];
    assert [d] == [d] + [];
    assert [a, b, c, d][..4] == [a, b, c, d];
  }

  /** If every producer has returned by the time `Stop` begins, nothing is sent from
      then on, and no send ever meets a closed channel. */
  lemma {:induction false} OrderlyStop(s: State, acts: seq<Action>, k: nat, j: nat)
    requires GateOrder(s.gate) && Exec(s, acts).Some?
    requires k < j <= |acts| && acts[k] == Gatekeeping(ClearRunning)
    requires Exec(s, acts[..k]).Some? && InFlight(Exec(s, acts[..k]).value.gate) == 0
    ensures Exec(s, acts[..j]).Some? && !PanicsAt(s, acts, j)
    ensures Exec(s, acts[..j]).value.sent == Exec(s, acts[..k]).value.sent
  {
    StepAt(s, acts, k);
    StaysDrained(s, acts, k + 1, j);
  }

  // ----- Workers exit, and only then -----

  ghost predicate NoneExited(s: State) {
    forall w :: 0 <= w < |s.workers| ==> !s.workers[w].phase.Exited?
  }

  ghost predicate AllExited(s: State) {
    forall w :: 0 <= w < |s.workers| ==> s.workers[w].phase.Exited?
  }

  /** Before `Stop` closes its channel no worker has exited. */
  lemma {:induction false} NoEarlyExit(numWorkers: int, queueSize: int, acts: seq<Action>)
    requires Exec(Init(numWorkers, queueSize), acts).Some?
    ensures var s := Exec(Init(numWorkers, queueSize), acts).value;
      GateOrder(s.gate) && (!s.gate.stopClosed ==> NoneExited(s))
  {
    if acts != [] {
      var before := acts[..|acts| - 1];
      NoEarlyExit(numWorkers, queueSize, before);
      GateStep(Exec(Init(numWorkers, queueSize), before).value, acts[|acts| - 1]);
    }
  }

  /** A bound on the worker steps still to come if nothing more is sent. */
  ghost function Remaining(s: State): int {
    8 * |s.queue| + Sum(StepsLeft, s.workers)
  }

  /** Every worker step uses some of it up, and nothing but a send adds to it. */
  lemma RemainingFalls(s: State, a: Action)
    requires Enabled(s, a)
    ensures IsWorkerAction(a) ==> Remaining(Next(s, a)) < Remaining(s)
    ensures !IsWorkerAction(a) && !a.Send? ==> Remaining(Next(s, a)) == Remaining(s)
  {
    SumStep(StepsLeft, s, a);
  }

  lemma {:induction false} StepsLeftNonnegative(ws: seq<Worker>)
    ensures 0 <= Sum(StepsLeft, ws)
  {
    if ws != [] {
      StepsLeftNonnegative(ws[..|ws| - 1]);
    }
  }

  function WorkerSteps(acts: seq<Action>): nat {
    if acts == [] then 0
    else WorkerSteps(acts[..|acts| - 1]) + if IsWorkerAction(acts[|acts| - 1]) then 1 else 0
  }

  /** After an orderly stop has begun, the workers take no more than `Remaining`
      steps between them, however they are scheduled. */
  lemma {:induction false} StopTerminates(p: State, acts: seq<Action>)
    requires Exec(p, acts).Some?
    requires GateOrder(p.gate) && !p.gate.running && InFlight(p.gate) == 0
    ensures WorkerSteps(acts) + Remaining(Exec(p, acts).value) <= Remaining(p)
    ensures 0 <= Remaining(Exec(p, acts).value)
  {
    StepsLeftNonnegative(Exec(p, acts).value.workers);
    if acts != [] {
      var before := acts[..|acts| - 1];
      StopTerminates(p, before);
      DrainsProducers(p, before);
      RemainingFalls(Exec(p, before).value, acts[|acts| - 1]);
    }
  }

  /** The next step of a worker with a message in hand. */
  function StepOf(ph: Phase, w: nat): (a: Action)
    requires InHand(ph)
    ensures IsWorkerAction(a) && a.w == w && !a.Exit? && !a.Dequeue?
  {
    if ph.Holding? then UpdateStore(w, 0)
    else if Recording(ph) then Record(w)
    else Count(w)
  }

  /** Once the stop channel is closed a worker that has not exited can always take
      its next step: so when none can, all have exited and `wg.Wait` returns. */
  lemma StopProgresses(s: State, w: nat)
    requires s.gate.stopClosed && w < |s.workers| && !s.workers[w].phase.Exited?
    ensures exists a :: IsWorkerAction(a) && a.w == w && Enabled(s, a)
  {
    var ph := s.workers[w].phase;
    var a := if ph.Idle? then Exit(w) else StepOf(ph, w);
    assert Enabled(s, a);
  }

  /** When all workers have exited, everything taken off the queue has been finished
      and counted exactly once, and whatever else was sent is still in the queue. */
  lemma StoppedAccounts(numWorkers: int, queueSize: int, s: State)
    requires Reachable(numWorkers, queueSize, s) && AllExited(s)
    ensures Fifo(s) && s.sent == s.sent[..|s.takers|] + s.queue
    ensures |s.sent| == |s.queue| + Nils(s.sent[..|s.takers|]) + |s.finished|
    ensures |s.finished| == Sum(Delivered, s.workers)
    ensures forall i: nat :: i < |s.takers| && s.sent[i].Job? ==> i in s.applied && i in s.finished
    ensures forall c :: Sum(Shown(c), s.workers) == Total(c, s.store)
  {
    PipelineConservation(numWorkers, queueSize, s);
    ReachableSound(numWorkers, queueSize, s);
    SumZero(HasInHand, s.workers);
    SumZero(UncountedInHand, s.workers);
    forall i: nat | i < |s.takers| && s.sent[i].Job? ensures i in s.applied && i in s.finished {
      assert Taken(s, i) && !Busy(s, i) && !Held(s, i);
    }
    forall c ensures Sum(Shown(c), s.workers) == Total(c, s.store) {
      TwoViewsAgree(numWorkers, queueSize, s, c);
    }
  }

  // ----- What a stop may leave behind -----

  /** Neither the queue nor the gate is touched, and no worker exits. */
  ghost predicate OnlyHandled(p: State, q: State) {
    && q.queue == p.queue && q.sent == p.sent && q.gate == p.gate && q.capacity == p.capacity
    && |q.workers| == |p.workers|
    && (NoneExited(p) ==> NoneExited(q))
  }

  /** Workers can always finish what they have in hand. */
  lemma {:induction false} FinishHands(p: State) returns (acts: seq<Action>)
    ensures Exec(p, acts).Some? && AllAtRest(Exec(p, acts).value) && OnlyHandled(p, Exec(p, acts).value)
    decreases Sum(StepsLeft, p.workers)
  {
    acts := [];
    if w: nat :| w < |p.workers| && InHand(p.workers[w].phase) {
      var a := StepOf(p.workers[w].phase, w);
      StepsLeftNonnegative(p.workers);
      SumStep(StepsLeft, p, a);
      var more := FinishHands(Next(p, a));
      ExecCons(p, a, more);
      acts := [a] + more;
    }
  }

  /** They can take any number of jobs off the queue and finish those too. */
  lemma {:induction false} TakeSome(p: State, k: nat) returns (acts: seq<Action>)
    requires k <= |p.queue| && p.workers != [] && NoneExited(p)
    ensures Exec(p, acts).Some?
    ensures AllAtRest(Exec(p, acts).value)
    ensures OnlyHandled(p.(queue := p.queue[k..]), Exec(p, acts).value)
    decreases k
  {
    acts := FinishHands(p);
    var q := Exec(p, acts).value;
    if k > 0 {
      var a := Dequeue(0);
      assert !q.workers[0].phase.Exited? && !InHand(q.workers[0].phase);
      var more := TakeSome(Next(q, a), k - 1);
      ExecCons(q, a, more);
      ExecAppend(p, acts, [a] + more);
      acts := acts + ([a] + more);
    }
  }

  /** and once told to stop they can leave. */
  lemma {:induction false} ExitAll(p: State) returns (acts: seq<Action>)
    requires p.gate.stopClosed && AllAtRest(p)
    ensures Exec(p, acts).Some?
    ensures var q := Exec(p, acts).value;
      AllExited(q) && q.queue == p.queue && q.sent == p.sent && q.gate == p.gate
    decreases Sum(StepsLeft, p.workers)
  {
    acts := [];
    if w: nat :| w < |p.workers| && !p.workers[w].phase.Exited? {
      var a := Exit(w);
      assert !InHand(p.workers[w].phase);
      StepsLeftNonnegative(p.workers);
      SumStep(StepsLeft, p, a);
      var more := ExitAll(Next(p, a));
      ExecCons(p, a, more);
      acts := [a] + more;
    }
  }

  /** A run in which `Stop` is called at `p` and returns, and so does every producer,
      leaving `rest` in the queue. */
  ghost predicate StopLeaves(p: State, acts: seq<Action>, rest: seq<Job>) {
    && acts != [] && acts[0] == Gatekeeping(ClearRunning)
    && Exec(p, acts).Some?
    && var q := Exec(p, acts).value;
       q.gate.jobsClosed && InFlight(q.gate) == 0 && AllExited(q) && q.queue == rest
  }

  predicate IsEnd(rest: seq<Job>, queue: seq<Job>) {
    |rest| <= |queue| && rest == queue[|queue| - |rest|..]
  }

  lemma QueueStep(p: State, a: Action)
    requires Enabled(p, a) && InFlight(p.gate) == 0
    ensures IsEnd(Next(p, a).queue, p.queue)
  {
  }

  lemma EndOfEnd(a: seq<Job>, b: seq<Job>, c: seq<Job>)
    requires IsEnd(a, b) && IsEnd(b, c)
    ensures IsEnd(a, c)
  {
    assert c[|c| - |b|..][|b| - |a|..] == c[|c| - |a|..];
  }

  lemma {:induction false} QueueOnlyShrinks(p: State, acts: seq<Action>)
    requires Exec(p, acts).Some?
    requires GateOrder(p.gate) && !p.gate.running && InFlight(p.gate) == 0
    ensures IsEnd(Exec(p, acts).value.queue, p.queue)
  {
    if acts != [] {
      var before := acts[..|acts| - 1];
      var q := Exec(p, before).value;
      QueueOnlyShrinks(p, before);
      DrainsProducers(p, before);
      QueueStep(q, acts[|acts| - 1]);
      EndOfEnd(Next(q, acts[|acts| - 1]).queue, q.queue, p.queue);
    }
  }

  /** Once `isRunning` is cleared, `Stop` closes its two channels, the workers handle
      some more, and leave. */
  lemma CloseAndLeave(p: State, k: nat) returns (acts: seq<Action>)
    requires !p.gate.running && !p.gate.stopClosed && !p.gate.jobsClosed
    requires k <= |p.queue| && p.workers != [] && NoneExited(p)
    ensures Exec(p, acts).Some?
    ensures var q := Exec(p, acts).value;
      && AllExited(q) && q.queue == p.queue[k..] && q.sent == p.sent
      && q.gate == p.gate.(stopClosed := true, jobsClosed := true)
  {
    var b, c := Gatekeeping(CloseStop), Gatekeeping(CloseJobs);
    var p1 := Next(p, b);
    var p2 := Next(p1, c);
    var take := TakeSome(p2, k);
    var exit := ExitAll(Exec(p2, take).value);
    ExecAppend(p2, take, exit);
    ExecCons(p1, c, take + exit);
    acts := [b] + ([c] + (take + exit));
    ExecCons(p, b, [c] + (take + exit));
  }

  lemma StopCanLeave(p: State, k: nat) returns (acts: seq<Action>)
    requires p.gate.running && !p.gate.stopClosed && !p.gate.jobsClosed && InFlight(p.gate) == 0
    requires k <= |p.queue| && p.workers != [] && NoneExited(p)
    ensures StopLeaves(p, acts, p.queue[k..])
    ensures var q := Exec(p, acts).value;
      q.sent == p.sent && q.gate == p.gate.(running := false, stopClosed := true, jobsClosed := true)
  {
    var a := Gatekeeping(ClearRunning);
    var more := CloseAndLeave(Next(p, a), k);
    acts := [a] + more;
    ExecCons(p, a, more);
  }

  lemma StopLeavesAnEnd(p: State, acts: seq<Action>, rest: seq<Job>)
    requires GateOrder(p.gate) && InFlight(p.gate) == 0 && StopLeaves(p, acts, rest)
    ensures IsEnd(rest, p.queue)
  {
    assert acts == [acts[0]] + acts[1..];
    StepAt(p, acts, 0);
    assert acts[..0] == [];
    ExecCons(p, acts[0], acts[1..]);
    GateStep(p, acts[0]);
    QueueOnlyShrinks(Next(p, acts[0]), acts[1..]);
  }

  /** While the pool runs, no channel is closed and every worker is there. */
  lemma RunningPool(numWorkers: int, queueSize: int, p: State)
    requires Reachable(numWorkers, queueSize, p) && p.gate.running
    ensures GateOrder(p.gate) && !p.gate.stopClosed && !p.gate.jobsClosed
    ensures p.workers != [] && NoneExited(p) && 0 < p.capacity
  {
    ReachableSound(numWorkers, queueSize, p);
    var before :| Exec(Init(numWorkers, queueSize), before) == Some(p);
    NoEarlyExit(numWorkers, queueSize, before);
  }

  /** What a stop can leave behind, called when every producer has returned: any end
      of the queue as it was then, from nothing at all to the whole of it, according
      to how the workers choose between the stop channel and the queue, and nothing
      else. Whatever is chosen, the workers can all get to leave. */
  lemma {:induction false} StopLeavesExactly(numWorkers: int, queueSize: int, p: State, rest: seq<Job>)
    requires Reachable(numWorkers, queueSize, p)
    requires p.gate.running && InFlight(p.gate) == 0
    ensures (exists acts :: StopLeaves(p, acts, rest)) <==> IsEnd(rest, p.queue)
  {
    RunningPool(numWorkers, queueSize, p);
    if IsEnd(rest, p.queue) {
      var acts := StopCanLeave(p, |p.queue| - |rest|);
      assert StopLeaves(p, acts, rest);
    }
    if acts :| StopLeaves(p, acts, rest) {
      StopLeavesAnEnd(p, acts, rest);
    }
  }

  /** Producers past their check can all send yet, the last of them a message that no
      worker has taken by then. */
  lemma {:induction false} ProducersSend(p: State, m: Msg) returns (acts: seq<Action>)
    requires InFlight(p.gate) > 0 && !p.gate.jobsClosed && 0 < p.capacity
    requires p.workers != [] && NoneExited(p)
    ensures Exec(p, acts).Some?
    ensures var q := Exec(p, acts).value;
      && InFlight(q.gate) == 0 && q.queue == [Job(m)] && q.workers != [] && NoneExited(q)
      && q.gate.running == p.gate.running && q.gate.stopClosed == p.gate.stopClosed && !q.gate.jobsClosed
    decreases InFlight(p.gate)
  {
    var take := TakeSome(p, |p.queue|);
    var p1 := Exec(p, take).value;
    var a := Send(Job(m), p.gate.enqueuing > 0);
    var p2 := Next(p1, a);
    var more := [];
    if InFlight(p2.gate) > 0 {
      more := ProducersSend(p2, m);
    }
    ExecCons(p1, a, more);
    ExecAppend(p, take, [a] + more);
    acts := take + ([a] + more);
  }

  lemma StopCanLose(p: State, m: Msg) returns (acts: seq<Action>)
    requires p.gate.running && !p.gate.stopClosed && !p.gate.jobsClosed && InFlight(p.gate) > 0
    requires 0 < p.capacity && p.workers != [] && NoneExited(p)
    ensures StopLeaves(p, acts, [Job(m)])
  {
    var a := Gatekeeping(ClearRunning);
    var p1 := Next(p, a);
    var send := ProducersSend(p1, m);
    var p2 := Exec(p1, send).value;
    var leave := CloseAndLeave(p2, 0);
    assert p2.queue[0..] == [Job(m)];
    ExecAppend(p1, send, leave);
    ExecCons(p, a, send + leave);
    acts := [a] + (send + leave);
  }

  /** So a stop can leave a message unhandled exactly when, as it begins, one is queued
      or a producer has yet to send. */
  lemma {:induction false} StopLosesExactly(numWorkers: int, queueSize: int, p: State)
    requires Reachable(numWorkers, queueSize, p) && p.gate.running
    ensures (exists acts, rest :: StopLeaves(p, acts, rest) && MsgsIn(rest) != []) <==>
      MsgsIn(p.queue) != [] || InFlight(p.gate) > 0
  {
    if InFlight(p.gate) > 0 {
      RunningPool(numWorkers, queueSize, p);
      var m := Msg([], [], 0, Fine);
      var acts := StopCanLose(p, m);
      assert StopLeaves(p, acts, [Job(m)]) && MsgsIn([Job(m)]) != [];
    } else if MsgsIn(p.queue) != [] {
      StopLeavesExactly(numWorkers, queueSize, p, p.queue);
      var acts :| StopLeaves(p, acts, p.queue);
      assert StopLeaves(p, acts, p.queue) && MsgsIn(p.queue) != [];
    } else if acts, rest :| StopLeaves(p, acts, rest) && MsgsIn(rest) != [] {
      StopLeavesExactly(numWorkers, queueSize, p, rest);
      var k := |p.queue| - |rest|;
      assert p.queue == p.queue[..k] + p.queue[k..];
      MsgsInAppend(p.queue[..k], p.queue[k..]);
    }
  }

  lemma LeftIsUnfinished(numWorkers: int, queueSize: int, s: State)
    requires Reachable(numWorkers, queueSize, s) && AllExited(s) && |s.queue| == |s.sent|
    ensures s.finished == []
  {
    StoppedAccounts(numWorkers, queueSize, s);
  }

  /** In a pool of any size: one message enqueued, its producer returned, and `Stop`
      returns with the message accepted, counted as enqueued, and never handled. */
  lemma StopLosesExample(numWorkers: int, queueSize: int, m: Msg) returns (s: State)
    ensures Reachable(numWorkers, queueSize, s) && AllExited(s) && s.gate.jobsClosed
    ensures s.gate.enqueued == 1 && s.queue == [Job(m)] && s.finished == []
  {
    var init := Init(numWorkers, queueSize);
    CallRuns(init, Job(m), true);
    var p := Exec(init, CallSteps(Job(m), true)).value;
    var acts := StopCanLeave(p, 0);
    s := Exec(p, acts).value;
    assert s.queue == p.queue == p.sent == s.sent == [Job(m)];
    assert Reachable(numWorkers, queueSize, s) by {
      ExecAppend(init, CallSteps(Job(m), true), acts);
    }
    LeftIsUnfinished(numWorkers, queueSize, s);
  }
}
