/** The pool against the simplest thing it could be replaced by: one worker called
    directly, message after message. */
module Direct {
  import opened Protocol
  import opened Store
  import opened Pool
  import opened PoolInvariants
  import opened Accounting
  import opened Agreement
  import opened Overtaking
  import opened Workers
  import Tracker
  import TrackerLaws
  import FullHistory
  import Shutdown
  import Lossless

  /** The store after handling the messages directly. */
  function DirectStore(ms: seq<Msg>, clock: nat -> int): Store {
    ProcessAll(map[], FRESH_WORKER, ms, clock).0
  }

  lemma ProcessSensor(st: Store, me: Pool.Worker, m: Msg, now: int, id: string)
    ensures var st' := Process(st, me, m, now).0;
      && (id in st' <==> id in st || id == m.sensorID)
      && (id in st' ==>
            st'[id].track == (if id != m.sensorID then st[id].track
                              else if id in st then Tracker.Step(st[id].track, m.sequence).0
                              else Tracker.First(m.sequence)))
      && Recorded(st', id, OutOfRange) == Recorded(st, id, OutOfRange)
           + (if id == m.sensorID && Judged(m, OutOfRange) then 1 else 0)
      && Recorded(st', id, Malformed) == Recorded(st, id, Malformed)
           + (if id == m.sensorID && Judged(m, Malformed) then 1 else 0)
  {
  }

  lemma {:induction false} DirectSees(ms: seq<Msg>, clock: nat -> int, id: string)
    ensures var st := DirectStore(ms, clock);
      && (id in st <==> SeqsOf(ms, id) != [])
      && (id in st ==> st[id].track == Tracker.Run(SeqsOf(ms, id)))
      && Recorded(st, id, OutOfRange) == Verdicts(ms, id, OutOfRange)
      && Recorded(st, id, Malformed) == Verdicts(ms, id, Malformed)
  {
    if ms != [] {
      var before, m := ms[..|ms| - 1], ms[|ms| - 1];
      DirectSees(before, clock, id);
      var (st, me) := ProcessAll(map[], FRESH_WORKER, before, clock);
      ProcessSensor(st, me, m, clock(|before|), id);
      var ss := SeqsOf(before, id);
      if m.sensorID == id {
        if ss != [] { TrackerLaws.RunSnoc(ss, m.sequence); }
      } else {
        assert SeqsOf(ms, id) == ss;
      }
    }
  }

  // ----- Permutations -----

  lemma {:induction false} Occurrence(ms: seq<Msg>, m: Msg) returns (l: seq<Msg>, r: seq<Msg>)
    requires m in ms
    ensures ms == l + [m] + r
  {
    var n := |ms| - 1;
    if ms[n] == m {
      l, r := ms[..n], [];
    } else {
      l, r := Occurrence(ms[..n], m);
      r := r + [ms[n]];
    }
  }

  /** Takes the last message of `a` out of both. */
  lemma Peel(a: seq<Msg>, b: seq<Msg>) returns (l: seq<Msg>, r: seq<Msg>)
    requires a != [] && multiset(a) == multiset(b)
    ensures b == l + [a[|a| - 1]] + r
    ensures multiset(a[..|a| - 1]) == multiset(l + r)
  {
    var n := |a| - 1;
    var m := a[n];
    assert a == a[..n] + [m];
    assert m in multiset(b);
    l, r := Occurrence(b, m);
    assert multiset(a[..n]) == multiset(a) - multiset{m};
    assert multiset(l + r) == multiset(b) - multiset{m};
  }

  lemma {:induction false} VerdictsAppend(a: seq<Msg>, b: seq<Msg>, id: string, v: Verdict)
    ensures Verdicts(a + b, id, v) == Verdicts(a, id, v) + Verdicts(b, id, v)
  {
    if b == [] {
      assert a + b == a;
    } else {
      var n := |b| - 1;
      VerdictsAppend(a, b[..n], id, v);
      assert a + b == (a + b[..n]) + [b[n]];
      VerdictsSnoc(a + b[..n], b[n], id, v);
    }
  }

  /** What one more message somewhere in the middle adds. */
  lemma {:induction false} ViewsAround(l: seq<Msg>, m: Msg, r: seq<Msg>, id: string, v: Verdict)
    ensures Verdicts(l + [m] + r, id, v) ==
      Verdicts(l + r, id, v) + if m.sensorID == id && Judged(m, v) then 1 else 0
    ensures multiset(SeqsOf(l + [m] + r, id)) ==
      multiset(SeqsOf(l + r, id)) + if m.sensorID == id then multiset{m.sequence} else multiset{}
  {
    VerdictsAppend(l, r, id, v);
    VerdictsAppend(l + [m], r, id, v);
    VerdictsSnoc(l, m, id, v);
    Lossless.SeqsOfAppend(l, r, id);
    Lossless.SeqsOfAppend(l + [m], r, id);
    SeqsOfSnoc(l, m, id);
  }

  lemma {:induction false} PermutedViews(a: seq<Msg>, b: seq<Msg>, id: string, v: Verdict)
    requires multiset(a) == multiset(b)
    ensures Verdicts(a, id, v) == Verdicts(b, id, v)
    ensures multiset(SeqsOf(a, id)) == multiset(SeqsOf(b, id))
    decreases |a|
  {
    if a == [] {
      assert |multiset(b)| == |b|;
    } else {
      var n := |a| - 1;
      var l, r := Peel(a, b);
      PermutedViews(a[..n], l + r, id, v);
      ViewsAround(l, a[n], r, id, v);
    }
  }

  // ----- Main results -----

  ghost predicate Drained(s: State) {
    s.queue == [] && AllAtRest(s)
  }

  /** A pool none of whose workers has exited can always be drained, with nothing
      further sent. */
  lemma CanDrain(p: State) returns (acts: seq<Action>)
    requires p.workers != [] && Shutdown.NoneExited(p)
    ensures Exec(p, acts).Some?
    ensures var s := Exec(p, acts).value;
      Drained(s) && s.sent == p.sent && s.gate == p.gate && Shutdown.OnlyHandled(p.(queue := []), s)
  {
    acts := Shutdown.TakeSome(p, |p.queue|);
    assert p.queue[|p.queue|..] == [];
  }

  /** Drained, with every worker there and room for more. */
  ghost predicate Ready(s: State) {
    && Drained(s) && s.workers != [] && Shutdown.NoneExited(s)
    && s.gate.running && !s.gate.jobsClosed && 0 < s.capacity
  }

  lemma SendAndDrain(p: State, m: Msg) returns (acts: seq<Action>)
    requires Ready(p)
    ensures Exec(p, acts).Some?
    ensures Ready(Exec(p, acts).value) && Exec(p, acts).value.sent == p.sent + [Job(m)]
  {
    CallRuns(p, Job(m), true);
    var q := Exec(p, CallSteps(Job(m), true)).value;
    var drain := CanDrain(q);
    ExecAppend(p, CallSteps(Job(m), true), drain);
    acts := CallSteps(Job(m), true) + drain;
  }

  /** Any messages at all can be sent through any pool and drained, however small its
      queue, so what follows is not about states that do not occur. */
  lemma {:induction false} StreamDrains(numWorkers: int, queueSize: int, ms: seq<Msg>) returns (s: State)
    ensures Reachable(numWorkers, queueSize, s) && Ready(s) && MsgsIn(s.sent) == ms
  {
    var init := Init(numWorkers, queueSize);
    if ms == [] {
      s := init;
      assert Exec(init, []) == Some(s);
    } else {
      var m := ms[|ms| - 1];
      var p := StreamDrains(numWorkers, queueSize, ms[..|ms| - 1]);
      var acts := SendAndDrain(p, m);
      s := Exec(p, acts).value;
      ReachableOn(numWorkers, queueSize, p, acts);
      MsgsInSnoc(p.sent, Job(m));
    }
  }

  /** Once drained, what was sent, what was applied and what is finished are
      rearrangements of one another. */
  lemma DrainedPermuted(numWorkers: int, queueSize: int, s: State)
    requires Reachable(numWorkers, queueSize, s) && Drained(s)
    ensures OnePlace(s)
    ensures multiset(MsgsIn(s.sent)) == multiset(AppliedMsgs(s)) == multiset(FinishedMsgs(s))
  {
    ReachableSound(numWorkers, queueSize, s);
    forall x
      ensures multiset(MsgsIn(s.sent))[x] == multiset(AppliedMsgs(s))[x] == multiset(FinishedMsgs(s))[x]
    {
      NoMessageLost(numWorkers, queueSize, s, x);
      SumZero(HoldsUnapplied(x), s.workers);
      SumZero(HoldsApplied(x), s.workers);
    }
  }

  /** Any number of workers, any schedule: once the pool has drained, the store knows
      the same sensors as direct handling of the sent messages in order would have
      produced, with the same mark, message count, errors and anomalies. */
  lemma DrainedMatchesDirect(numWorkers: int, queueSize: int, s: State, clock: nat -> int, id: string)
    requires Reachable(numWorkers, queueSize, s) && Drained(s)
    ensures var d := DirectStore(MsgsIn(s.sent), clock);
      && (id in s.store <==> id in d)
      && (id in s.store ==>
            && s.store[id].track.last == d[id].track.last
            && s.store[id].track.messages == d[id].track.messages
            && s.store[id].errors == d[id].errors
            && s.store[id].anomalies == d[id].anomalies)
  {
    DrainedPermuted(numWorkers, queueSize, s);
    ReachableSound(numWorkers, queueSize, s);
    VerdictsReachStore(numWorkers, queueSize, s, id);
    var sent := MsgsIn(s.sent);
    DirectSees(sent, clock, id);
    assert SeesSensor(s, id);
    PermutedViews(sent, AppliedMsgs(s), id, OutOfRange);
    PermutedViews(sent, FinishedMsgs(s), id, OutOfRange);
    PermutedViews(sent, FinishedMsgs(s), id, Malformed);
    var ss, tt := SeqsOf(AppliedMsgs(s), id), SeqsOf(sent, id);
    assert |multiset(ss)| == |ss| && |multiset(tt)| == |tt|;
    if ss != [] {
      FullHistory.OrderIndependence(ss, tt);
    }
  }

  /** With one worker the whole sequence bookkeeping, remembered numbers included, is
      that of direct handling. */
  lemma OneWorkerMatchesDirect(numWorkers: int, queueSize: int, s: State, clock: nat -> int, id: string)
    requires Reachable(numWorkers, queueSize, s) && Drained(s) && |s.workers| == 1
    ensures var d := DirectStore(MsgsIn(s.sent), clock);
      && (id in s.store <==> id in d)
      && (id in s.store ==>
            && s.store[id].track == d[id].track
            && s.store[id].errors == d[id].errors
            && s.store[id].anomalies == d[id].anomalies)
  {
    DrainedMatchesDirect(numWorkers, queueSize, s, clock, id);
    OneWorkerInOrder(numWorkers, queueSize, s);
    ReachableSound(numWorkers, queueSize, s);
    assert SeesSensor(s, id);
    DirectSees(MsgsIn(s.sent), clock, id);
  }
}
