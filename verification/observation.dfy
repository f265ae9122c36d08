/** What can be told of a running pool from outside: by waiting for an empty queue,
    and by reading the workers' counters one after another. */
module Observation {
  import opened Protocol
  import opened Pool
  import opened Accounting
  import opened Agreement
  import opened Overtaking

  // ----- Waiting for quiescence -----

  /** What one round of `WaitForQuiescence` finds: `isRunning`, the length of the queue
      a little later, and whether the deadline has passed by then. */
  datatype Poll = Poll(running: bool, queued: nat, late: bool)

  datatype WaitResult = Quiet | NotRunning | TimedOut

  /** Polls until something settles it, at the latest when the deadline has passed. */
  method WaitForQuiescence(polls: seq<Poll>) returns (r: WaitResult, n: nat)
    requires polls != [] && polls[|polls| - 1].late
    ensures n < |polls|
    ensures forall k :: 0 <= k < n ==> polls[k].running && polls[k].queued > 0 && !polls[k].late
    ensures r == NotRunning <==> !polls[n].running
    ensures r == Quiet <==> polls[n].running && polls[n].queued == 0
    ensures r == TimedOut <==> polls[n].running && polls[n].queued > 0 && polls[n].late
  {
    n := 0;
    while true
      invariant n < |polls|
      invariant forall k :: 0 <= k < n ==> polls[k].running && polls[k].queued > 0 && !polls[k].late
      decreases |polls| - n
    {
      if !polls[n].running {
        return NotRunning, n;
      }
      if polls[n].queued == 0 {
        return Quiet, n;
      }
      if polls[n].late {
        return TimedOut, n;
      }
      n := n + 1;
    }
  }

  /** No worker has a message in hand that it has not counted. */
  ghost predicate AllCounted(s: State) {
    forall w :: 0 <= w < |s.workers| ==> InHand(s.workers[w].phase) ==> Recording(s.workers[w].phase)
  }

  lemma RestExactly(s: State)
    ensures Sum(HasInHand, s.workers) == 0 <==> AllAtRest(s)
    ensures Sum(UncountedInHand, s.workers) == 0 <==> AllCounted(s)
  {
    SumZeroExactly(HasInHand, s.workers);
    SumZeroExactly(UncountedInHand, s.workers);
    if Sum(HasInHand, s.workers) == 0 {
      forall w | 0 <= w < |s.workers| ensures !InHand(s.workers[w].phase) {
        assert Value(HasInHand, s.workers[w]) == 0;
      }
    }
    if Sum(UncountedInHand, s.workers) == 0 {
      forall w | 0 <= w < |s.workers| ensures InHand(s.workers[w].phase) ==> Recording(s.workers[w].phase) {
        assert Value(UncountedInHand, s.workers[w]) == 0;
      }
    }
  }

  /** What an empty queue, which is all `WaitForQuiescence` looks at, promises: every
      message sent but at most one a worker is finished with, and all of them exactly
      if every worker is at rest, when both views of the counts agree as well. The
      totals fall short of the number enqueued by what workers have yet to count, less
      what producers have yet to; once producers have returned they are equal exactly
      if the workers have counted everything. */
  lemma QuiescenceBound(numWorkers: int, queueSize: int, s: State)
    requires Reachable(numWorkers, queueSize, s) && s.queue == []
    ensures |MsgsIn(s.sent)| - |s.workers| <= |s.finished| <= |MsgsIn(s.sent)|
    ensures |MsgsIn(s.sent)| - |s.workers| <= Sum(Delivered, s.workers) <= |MsgsIn(s.sent)|
    ensures |s.finished| == |MsgsIn(s.sent)| <==> AllAtRest(s)
    ensures Sum(Delivered, s.workers) == |MsgsIn(s.sent)| <==> AllCounted(s)
    ensures s.gate.enqueued + s.gate.uncounted ==
      Sum(Delivered, s.workers) + Nils(s.sent) + Sum(UncountedInHand, s.workers)
    ensures s.gate.uncounted == 0 ==>
      (s.gate.enqueued == Sum(Delivered, s.workers) + Nils(s.sent) <==> AllCounted(s))
    ensures AllAtRest(s) ==> forall c :: Sum(Shown(c), s.workers) == Total(c, s.store)
  {
    PipelineConservation(numWorkers, queueSize, s);
    assert s.sent[..|s.takers|] == s.sent;
    NilOrMessage(s.sent);
    RestExactly(s);
    if AllAtRest(s) {
      forall c ensures Sum(Shown(c), s.workers) == Total(c, s.store) {
        TwoViewsAgree(numWorkers, queueSize, s, c);
      }
    }
  }

  /** The bound is met: a pool of any size can have as many messages enqueued as it
      has workers, an empty queue, every producer back, and totals of nought. */
  lemma QuiescenceTight(numWorkers: int, queueSize: int, m: Msg) returns (s: State)
    ensures Reachable(numWorkers, queueSize, s) && s.queue == []
    ensures s.gate.running && s.gate.uncounted == 0 && s.gate.enqueued == |s.workers|
    ensures |MsgsIn(s.sent)| == |s.workers| > 0
    ensures s.finished == [] && Sum(Delivered, s.workers) == 0
  {
    s := AllBehind(numWorkers, queueSize, seq(|Init(numWorkers, queueSize).workers|, _ => m));
    SumZero(Delivered, s.workers);
    QuiescenceBound(numWorkers, queueSize, s);
    NilOrMessage(s.sent);
    PipelineConservation(numWorkers, queueSize, s);
    AllHeld(s.workers);
  }

  lemma {:induction false} AllHeld(ws: seq<Worker>)
    requires forall w :: 0 <= w < |ws| ==> ws[w].phase.Holding?
    ensures Sum(UncountedInHand, ws) == |ws| && Sum(HasInHand, ws) == |ws|
  {
    if ws != [] {
      AllHeld(ws[..|ws| - 1]);
    }
  }

  // ----- Reading the counters -----

  /** Counters only ever go up. */
  predicate Rises(k: Measure) {
    k.Processed? || k.Delivered? || k.Shown?
  }

  /** After `n` steps of the run worker `w` is `me`. */
  ghost predicate IsAt(p: State, acts: seq<Action>, n: nat, w: nat, me: Worker) {
    && n <= |acts| && Exec(p, acts[..n]).Some?
    && w < |Exec(p, acts[..n]).value.workers| && Exec(p, acts[..n]).value.workers[w] == me
  }

  /** Each worker as it was at some moment of the run, its own for each. */
  ghost predicate ReadDuring(p: State, acts: seq<Action>, ws: seq<Worker>) {
    |ws| == |p.workers| && forall w :: 0 <= w < |ws| ==> exists n: nat :: IsAt(p, acts, n, w, ws[w])
  }

  lemma StepRises(k: Measure, p: State, a: Action)
    requires Rises(k) && Enabled(p, a)
    ensures |Next(p, a).workers| == |p.workers|
    ensures forall w :: 0 <= w < |p.workers| ==> Value(k, p.workers[w]) <= Value(k, Next(p, a).workers[w])
  {
  }

  lemma {:induction false} RunRises(k: Measure, p: State, acts: seq<Action>)
    requires Rises(k) && Exec(p, acts).Some?
    ensures var q := Exec(p, acts).value;
      && |q.workers| == |p.workers|
      && forall w :: 0 <= w < |p.workers| ==> Value(k, p.workers[w]) <= Value(k, q.workers[w])
  {
    if acts != [] {
      var before := acts[..|acts| - 1];
      RunRises(k, p, before);
      StepRises(k, Exec(p, before).value, acts[|acts| - 1]);
    }
  }

  lemma {:induction false} SumRises(k: Measure, a: seq<Worker>, b: seq<Worker>)
    requires |a| == |b| && forall w :: 0 <= w < |a| ==> Value(k, a[w]) <= Value(k, b[w])
    ensures Sum(k, a) <= Sum(k, b)
  {
    if a != [] {
      SumRises(k, a[..|a| - 1], b[..|b| - 1]);
    }
  }

  /** A total that adds up counters loaded one at a time, while the workers go on, is
      the total of no moment, perhaps; but it lies between those of the moments at
      which the reading began and ended. Each counter has its own moments. */
  lemma StatsBetween(k: Measure, p: State, acts: seq<Action>, ws: seq<Worker>)
    requires Rises(k) && Exec(p, acts).Some? && ReadDuring(p, acts, ws)
    ensures Sum(k, p.workers) <= Sum(k, ws) <= Sum(k, Exec(p, acts).value.workers)
  {
    var q := Exec(p, acts).value;
    RunRises(k, p, acts);
    forall w: nat | w < |ws| ensures Value(k, p.workers[w]) <= Value(k, ws[w]) <= Value(k, q.workers[w]) {
      var n: nat :| IsAt(p, acts, n, w, ws[w]);
      assert acts == acts[..n] + acts[n..];
      ExecAppend(p, acts[..n], acts[n..]);
      RunRises(k, p, acts[..n]);
      RunRises(k, Exec(p, acts[..n]).value, acts[n..]);
    }
    SumRises(k, p.workers, ws);
    SumRises(k, ws, q.workers);
  }
}
