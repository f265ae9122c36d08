/** Getting into the queue: when a call of `Enqueue` or `TryEnqueue` is let in, is
    refused, has to wait, and gives up. */
module Admission {
  import opened Protocol
  import opened Pool
  import opened PoolInvariants

  // ----- Room -----

  /** In every reachable state: a send can go through exactly while fewer jobs are
      queued than configured, 1000 by default, and `TryEnqueue` can be refused exactly
      when that many are. */
  lemma RoomExactly(numWorkers: int, queueSize: int, s: State, job: Job, blocking: bool)
    requires Reachable(numWorkers, queueSize, s)
    requires !s.gate.jobsClosed && (if blocking then s.gate.enqueuing > 0 else s.gate.trying > 0)
    ensures var size := if queueSize <= 0 then 1000 else queueSize;
      && |s.queue| <= size
      && (Enabled(s, Send(job, blocking)) <==> |s.queue| < size)
      && (Enabled(s, Gatekeeping(RejectFull)) <==> s.gate.trying > 0 && |s.queue| == size)
  {
    ReachableSound(numWorkers, queueSize, s);
  }

  /** A call of one of the two entry points, with what it is given. */
  datatype Call = Call(job: Job, blocking: bool)

  function AdmitAll(cs: seq<Call>): seq<Action> {
    if cs == [] then [] else AdmitAll(cs[..|cs| - 1]) + CallSteps(cs[|cs| - 1].job, cs[|cs| - 1].blocking)
  }

  function Jobs(cs: seq<Call>): (js: seq<Job>)
    ensures |js| == |cs|
    ensures forall k :: 0 <= k < |cs| ==> js[k] == cs[k].job
  {
    seq(|cs|, k requires 0 <= k < |cs| => cs[k].job)
  }

  /** From the start, with no worker taking anything, calls of either kind are let in
      one after another exactly as long as there are no more of them than the queue is
      configured to hold; and then they are all there, in order, and counted. */
  lemma {:induction false} FillsExactly(numWorkers: int, queueSize: int, cs: seq<Call>)
    ensures var size := if queueSize <= 0 then 1000 else queueSize;
      var s := Exec(Init(numWorkers, queueSize), AdmitAll(cs));
      && (s.Some? <==> |cs| <= size)
      && (s.Some? ==>
            && s.value.queue == Jobs(cs) && s.value.gate.enqueued == |cs|
            && s.value.gate.running && !s.value.gate.jobsClosed && s.value.capacity == size)
  {
    var init := Init(numWorkers, queueSize);
    if cs != [] {
      var before, c := cs[..|cs| - 1], cs[|cs| - 1];
      FillsExactly(numWorkers, queueSize, before);
      ExecAppend(init, AdmitAll(before), CallSteps(c.job, c.blocking));
      if p :| Exec(init, AdmitAll(before)) == Some(p) {
        if |p.queue| < p.capacity {
          CallRuns(p, c.job, c.blocking);
          assert Jobs(cs) == Jobs(before) + [c.job];
        } else {
          CallStuck(p, c.job, c.blocking);
        }
      }
    }
  }

  // ----- Waiting -----

  predicate IsStop(a: Action) {
    a.Gatekeeping? && a.g.CloseStop?
  }

  /** With the queue full, as long as no worker takes anything and the stop channel is
      not closed, nothing is sent and no waiting `Enqueue` returns: backpressure. */
  lemma {:induction false} FullBlocks(p: State, acts: seq<Action>)
    requires Exec(p, acts).Some? && p.capacity <= |p.queue| && !p.gate.stopClosed
    requires forall k :: 0 <= k < |acts| ==> !acts[k].Dequeue? && !IsStop(acts[k])
    ensures var q := Exec(p, acts).value;
      && q.queue == p.queue && q.sent == p.sent && q.capacity == p.capacity && !q.gate.stopClosed
      && p.gate.enqueuing <= q.gate.enqueuing
  {
    if acts != [] {
      FullBlocks(p, acts[..|acts| - 1]);
    }
  }

  /** Once the stop channel is closed every waiting `Enqueue` can return, by itself and
      without having sent. */
  lemma {:induction false} WaitingCanReturn(p: State) returns (acts: seq<Action>)
    requires p.gate.stopClosed
    ensures Exec(p, acts) == Some(p.(gate := p.gate.(enqueuing := 0)))
    decreases p.gate.enqueuing
  {
    acts := [];
    if p.gate.enqueuing > 0 {
      var a := Gatekeeping(AbortEnqueue);
      var more := WaitingCanReturn(Next(p, a));
      ExecCons(p, a, more);
      acts := [a] + more;
    }
  }

  /** Once the job channel is closed nothing gets in, not even from those on their way. */
  lemma {:induction false} ClosedAdmitsNothing(p: State, acts: seq<Action>)
    requires Exec(p, acts).Some? && p.gate.jobsClosed
    ensures Exec(p, acts).value.sent == p.sent && Exec(p, acts).value.gate.jobsClosed
  {
    if acts != [] {
      ClosedAdmitsNothing(p, acts[..|acts| - 1]);
    }
  }

  // ----- Every call has one outcome -----

  function TimesTaken(acts: seq<Action>, g: GateAction): nat {
    if acts == [] then 0
    else TimesTaken(acts[..|acts| - 1], g) + if acts[|acts| - 1] == Gatekeeping(g) then 1 else 0
  }

  function Sends(acts: seq<Action>, blocking: bool): nat {
    if acts == [] then 0
    else
      var a := acts[|acts| - 1];
      Sends(acts[..|acts| - 1], blocking) + if a.Send? && a.blocking == blocking then 1 else 0
  }

  /** What each call past its check has come to. */
  ghost predicate Accounted(s: State, acts: seq<Action>) {
    && TimesTaken(acts, BeginEnqueue) == Sends(acts, true) + TimesTaken(acts, AbortEnqueue) + s.gate.enqueuing
    && TimesTaken(acts, BeginTryEnqueue) == Sends(acts, false) + TimesTaken(acts, RejectFull) + s.gate.trying
    && s.gate.queueFull == TimesTaken(acts, RejectFull)
    && s.gate.enqueued == TimesTaken(acts, CountSend)
    && |s.sent| == Sends(acts, true) + Sends(acts, false) == s.gate.enqueued + s.gate.uncounted
  }

  function One(b: bool): nat {
    if b then 1 else 0
  }

  lemma CountsSnoc(before: seq<Action>, a: Action)
    ensures forall g :: TimesTaken(before + [a], g) == TimesTaken(before, g) + One(a == Gatekeeping(g))
    ensures forall b :: Sends(before + [a], b) == Sends(before, b) + One(a.Send? && a.blocking == b)
  {
    assert (before + [a])[..|before|] == before;
  }

  /** What one step does to the gate. */
  lemma GateDeltas(p: State, a: Action)
    requires Enabled(p, a)
    ensures var (g, h) := (p.gate, Next(p, a).gate);
      && h.enqueuing + One(a.Send? && a.blocking) + One(a == Gatekeeping(AbortEnqueue)) ==
           g.enqueuing + One(a == Gatekeeping(BeginEnqueue))
      && h.trying + One(a.Send? && !a.blocking) + One(a == Gatekeeping(RejectFull)) ==
           g.trying + One(a == Gatekeeping(BeginTryEnqueue))
      && h.queueFull == g.queueFull + One(a == Gatekeeping(RejectFull))
      && h.enqueued == g.enqueued + One(a == Gatekeeping(CountSend))
      && h.enqueued + h.uncounted == g.enqueued + g.uncounted + One(a.Send?)
      && |Next(p, a).sent| == |p.sent| + One(a.Send?)
  {
  }

  lemma {:induction false} AccountedStep(p: State, before: seq<Action>, a: Action)
    requires Accounted(p, before) && Enabled(p, a)
    ensures Accounted(Next(p, a), before + [a])
  {
    CountsSnoc(before, a);
    GateDeltas(p, a);
  }

  /** In every run: each `Enqueue` past its check has sent, or given up on a stopping
      pool, or is still at it; each `TryEnqueue` has sent, or was refused, or is still
      at it; refusals are what `queueFullEvents` shows; and of the sends all but those
      about to be counted are what `totalMessagesEnqueued` shows. */
  lemma {:induction false} CallsAccounted(numWorkers: int, queueSize: int, acts: seq<Action>)
    requires Exec(Init(numWorkers, queueSize), acts).Some?
    ensures Accounted(Exec(Init(numWorkers, queueSize), acts).value, acts)
  {
    if acts != [] {
      var before, a := acts[..|acts| - 1], acts[|acts| - 1];
      CallsAccounted(numWorkers, queueSize, before);
      assert acts == before + [a];
      AccountedStep(Exec(Init(numWorkers, queueSize), before).value, before, a);
    }
  }
}
