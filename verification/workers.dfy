/** One worker's code, as it runs when nothing else does, and its place in the
    transition system. */
module Workers {
  import opened Protocol
  import opened Tracker
  import opened Store
  import opened StateStores
  import opened Accounting
  import opened Agreement
  import Pool

  function AddResult(me: Pool.Worker, r: UpdateResult): Pool.Worker {
    me.(dropped := me.dropped + r.droppedCount,
        duplicates := me.duplicates + (if r.isDuplicate then 1 else 0),
        outOfOrder := me.outOfOrder + (if r.isOutOfOrder then 1 else 0))
  }

  function Conclude(st: Store, me: Pool.Worker, m: Msg): (Store, Pool.Worker) {
    match Validate(m)
    case Fine => (st, me.(processed := me.processed + 1))
    case OutOfRange => (Apply(st, Op.RecordAnomaly(m.sensorID)), me.(anomalies := me.anomalies + 1))
    case Malformed => (Apply(st, Op.RecordError(m.sensorID)), me.(errors := me.errors + 1))
  }

  /** What handling one message does, start to end, to the store and to the
      worker's own counters. */
  function Process(st: Store, me: Pool.Worker, m: Msg, now: int): (Store, Pool.Worker) {
    Conclude(Apply(st, Op.Update(m, now)), AddResult(me, UpdateSensor(st, m, now).1), m)
  }

  predicate UpBy(before: nat, after: nat, counted: bool) {
    after == before + if counted then 1 else 0
  }

  /** Exactly one of the worker's three totals goes up, the one the message calls for,
      and with it the sensor's count if there is one. */
  predicate VerdictShows(st: Store, me: Pool.Worker, m: Msg, st': Store, me': Pool.Worker) {
    && UpBy(me.processed, me'.processed, Judged(m, Fine))
    && UpBy(me.anomalies, me'.anomalies, Judged(m, OutOfRange))
    && UpBy(me.errors, me'.errors, Judged(m, Malformed))
    && UpBy(Recorded(st, m.sensorID, OutOfRange), Recorded(st', m.sensorID, OutOfRange), Judged(m, OutOfRange))
    && UpBy(Recorded(st, m.sensorID, Malformed), Recorded(st', m.sensorID, Malformed), Judged(m, Malformed))
  }

  lemma ProcessShows(st: Store, me: Pool.Worker, m: Msg, now: int)
    ensures var (st', me') := Process(st, me, m, now); VerdictShows(st, me, m, st', me')
  {
    ValidateJudges(m);
  }

  /** Handling messages one after another; `clock(k)` is read for the k-th. */
  function ProcessAll(st: Store, me: Pool.Worker, ms: seq<Msg>, clock: nat -> int): (Store, Pool.Worker) {
    if ms == [] then (st, me)
    else
      var (st', me') := ProcessAll(st, me, ms[..|ms| - 1], clock);
      Process(st', me', ms[|ms| - 1], clock(|ms| - 1))
  }

  lemma ProcessAllSnoc(st: Store, me: Pool.Worker, ms: seq<Msg>, m: Msg, clock: nat -> int)
    ensures ProcessAll(st, me, ms + [m], clock) ==
      var (st', me') := ProcessAll(st, me, ms, clock); Process(st', me', m, clock(|ms|))
  {
    assert (ms + [m])[..|ms|] == ms;
  }

  /** One more job off the queue: nothing if it is a nil pointer. */
  lemma OneMoreJob(st: Store, me: Pool.Worker, jobs: seq<Pool.Job>, taken: nat, clock: nat -> int)
    requires taken < |jobs|
    ensures var (done, job) := (MsgsIn(jobs[..taken]), jobs[taken]);
      var (st', me') := ProcessAll(st, me, done, clock);
      && |MsgsIn(jobs[..taken + 1])| == |done| + (if job.Job? then 1 else 0)
      && ProcessAll(st, me, MsgsIn(jobs[..taken + 1]), clock) ==
           if job.Job? then Process(st', me', job.msg, clock(|done|)) else (st', me')
  {
    assert jobs[..taken + 1] == jobs[..taken] + [jobs[taken]];
    MsgsInSnoc(jobs[..taken], jobs[taken]);
    if jobs[taken].Job? {
      ProcessAllSnoc(st, me, MsgsIn(jobs[..taken]), jobs[taken].msg, clock);
    } else {
      assert MsgsIn(jobs[..taken]) + [] == MsgsIn(jobs[..taken]);
    }
  }

  /** The atomic steps of one worker for one message, in program order. */
  function Script(w: nat, m: Msg, now: int): seq<Pool.Action> {
    [Pool.UpdateStore(w, now), Pool.Count(w), Pool.Count(w), Pool.Count(w), Pool.Count(w)]
      + if Validate(m) == Fine then [] else [Pool.Record(w)]
  }

  lemma Then(s: Pool.State, acts: seq<Pool.Action>, p: Pool.State, a: Pool.Action)
    requires Pool.Exec(s, acts) == Some(p) && Pool.Enabled(p, a)
    ensures Pool.Exec(s, acts + [a]) == Some(Pool.Next(p, a))
  {
    Pool.ExecSnoc(s, acts, a);
  }

  /** The state with worker `w` replaced. */
  function With(s: Pool.State, w: nat, me: Pool.Worker): Pool.State
    requires w < |s.workers|
  {
    s.(workers := s.workers[w := me])
  }

  lemma CountWith(s: Pool.State, w: nat)
    requires w < |s.workers| && Pool.Counting(s.workers[w].phase) && !s.workers[w].phase.Validating?
    ensures Pool.Enabled(s, Pool.Count(w))
    ensures Pool.Next(s, Pool.Count(w)) == With(s, w, Pool.Counted(s.workers[w]))
  {
  }

  lemma WithTwice(s: Pool.State, w: nat, a: Pool.Worker, b: Pool.Worker)
    requires w < |s.workers|
    ensures With(With(s, w, a), w, b) == With(s, w, b)
  {
    assert s.workers[w := a][w := b] == s.workers[w := b];
  }

  lemma CountSteps(s: Pool.State, w: nat)
    requires w < |s.workers| && s.workers[w].phase.AddingDropped?
    ensures var ph := s.workers[w].phase;
      Pool.Exec(s, [Pool.Count(w), Pool.Count(w), Pool.Count(w)]) ==
        Some(With(s, w, AddResult(s.workers[w], ph.r).(phase := Pool.Validating(ph.i, ph.m))))
  {
    var c := Pool.Count(w);
    var me1 := Pool.Counted(s.workers[w]);
    var me2 := Pool.Counted(me1);
    var me3 := Pool.Counted(me2);
    var s1, s2 := With(s, w, me1), With(s, w, me2);
    CountWith(s, w);
    CountWith(s1, w);
    WithTwice(s, w, me1, me2);
    CountWith(s2, w);
    WithTwice(s, w, me2, me3);
    Pool.ExecCons(s, c, [c] + ([c] + []));
    Pool.ExecCons(s1, c, [c] + []);
    Pool.ExecCons(s2, c, []);
    assert [c, c, c] == [c] + ([c] + ([c] + []));
  }

  lemma ConcludeSteps(s: Pool.State, w: nat)
    requires w < |s.workers| && s.workers[w].phase.Validating?
    ensures var ph := s.workers[w].phase;
      var (st', me') := Conclude(s.store, s.workers[w].(phase := Pool.Idle), ph.m);
      Pool.Exec(s, [Pool.Count(w)] + if Validate(ph.m) == Fine then [] else [Pool.Record(w)]) ==
        Some(With(s, w, me').(store := st', finished := s.finished + [ph.i]))
  {
    var c := Pool.Count(w);
    var ph := s.workers[w].phase;
    var s1 := Pool.Next(s, c);
    Then(s, [], s, c);
    assert [] + [c] == [c] == [c] + [];
    if Validate(ph.m) != Fine {
      Then(s, [c], s1, Pool.Record(w));
      assert Pool.Next(s1, Pool.Record(w)).workers == s.workers[w := Pool.Next(s1, Pool.Record(w)).workers[w]];
    }
  }

  /** The states between the three parts of the script. */
  lemma ScriptStates(s: Pool.State, w: nat, now: int) returns (s1: Pool.State, s2: Pool.State)
    requires w < |s.workers| && s.workers[w].phase.Holding?
    ensures s1 == Pool.Next(s, Pool.UpdateStore(w, now)) && s1.workers[w].phase.AddingDropped?
    ensures s2 == With(s1, w, AddResult(s1.workers[w], s1.workers[w].phase.r).(
      phase := Pool.Validating(s1.workers[w].phase.i, s1.workers[w].phase.m)))
    ensures var ph := s.workers[w].phase;
      var (st', me') := Process(s.store, s.workers[w].(phase := Pool.Idle), ph.m, now);
      Conclude(s2.store, s2.workers[w].(phase := Pool.Idle), ph.m) == (st', me')
      && s2.workers[w].phase == Pool.Validating(ph.i, ph.m)
      && With(s2, w, me').(store := st', finished := s2.finished + [ph.i]) ==
           With(s, w, me').(store := st', applied := s.applied + [ph.i], finished := s.finished + [ph.i])
  {
    s1 := Pool.Next(s, Pool.UpdateStore(w, now));
    s2 := With(s1, w, AddResult(s1.workers[w], s1.workers[w].phase.r).(
      phase := Pool.Validating(s1.workers[w].phase.i, s1.workers[w].phase.m)));
    var me' := Process(s.store, s.workers[w].(phase := Pool.Idle), s.workers[w].phase.m, now).1;
    assert s2.workers[w := me'] == s.workers[w := me'];
  }

  /** Taken without interference, those steps are enabled one after the other and do
      together exactly what `Process` says. */
  lemma {:induction false} ScriptIsProcess(s: Pool.State, w: nat, now: int)
    requires w < |s.workers| && s.workers[w].phase.Holding?
    ensures var ph := s.workers[w].phase;
      var (st', me') := Process(s.store, s.workers[w].(phase := Pool.Idle), ph.m, now);
      Pool.Exec(s, Script(w, ph.m, now)) ==
        Some(With(s, w, me').(store := st', applied := s.applied + [ph.i], finished := s.finished + [ph.i]))
  {
    var m := s.workers[w].phase.m;
    var s1, s2 := ScriptStates(s, w, now);
    var head, middle := [Pool.UpdateStore(w, now)], [Pool.Count(w), Pool.Count(w), Pool.Count(w)];
    var tail := [Pool.Count(w)] + if Validate(m) == Fine then [] else [Pool.Record(w)];
    assert Pool.Exec(s, head) == Some(s1) by {
      Then(s, [], s, Pool.UpdateStore(w, now));
      assert [] + head == head;
    }
    assert Pool.Exec(s, head + middle) == Some(s2) by {
      CountSteps(s1, w);
      Pool.ExecAppend(s, head, middle);
    }
    ConcludeSteps(s2, w);
    Pool.ExecAppend(s, head + middle, tail);
    assert Script(w, m, now) == (head + middle) + tail;
  }

  class Worker {
    const store: StateStore
    var messagesProcessed: nat
    var errors: nat
    var anomalies: nat
    var dropped: nat
    var duplicates: nat
    var outOfOrder: nat

    constructor (store: StateStore)
      ensures this.store == store && Model() == Pool.FRESH_WORKER
    {
      this.store := store;
      messagesProcessed, errors, anomalies := 0, 0, 0;
      dropped, duplicates, outOfOrder := 0, 0, 0;
    }

    function Model(): Pool.Worker
      reads this
    {
      Pool.Worker(Pool.Idle, messagesProcessed, errors, anomalies, dropped, duplicates, outOfOrder)
    }

    method ProcessMessage(msg: Msg, now: int)
      requires store.Valid()
      modifies this, store, store.sensors.Values
      ensures store.Valid() && fresh(store.sensors.Values - old(store.sensors.Values))
      ensures (store.Model(), Model()) == Process(old(store.Model()), old(Model()), msg, now)
      ensures VerdictShows(old(store.Model()), old(Model()), msg, store.Model(), Model())
    {
      ProcessShows(store.Model(), Model(), msg, now);
      var result := store.Update(msg, now);
      CountResult(result);
      CountVerdict(msg);
    }

    method CountResult(result: UpdateResult)
      modifies this
      ensures Model() == AddResult(old(Model()), result)
    {
      if result.droppedCount > 0 {
        dropped := dropped + result.droppedCount;
      }
      if result.isDuplicate {
        duplicates := duplicates + 1;
      }
      if result.isOutOfOrder {
        outOfOrder := outOfOrder + 1;
      }
    }

    method CountVerdict(msg: Msg)
      requires store.Valid()
      modifies this, store.sensors.Values
      ensures store.Valid()
      ensures (store.Model(), Model()) == Conclude(old(store.Model()), old(Model()), msg)
    {
      match Validate(msg) {
        case OutOfRange =>
          anomalies := anomalies + 1;
          store.RecordAnomaly(msg.sensorID);
        case Malformed =>
          errors := errors + 1;
          store.RecordError(msg.sensorID);
        case Fine =>
          messagesProcessed := messagesProcessed + 1;
      }
    }

    /** The worker's loop once no more jobs can arrive. Which ready case `select`
        takes is its own choice, so it may leave before the queue is empty; what it
        took, it has handled completely, in order, nil pointers skipped. */
    method Run(jobs: seq<Pool.Job>, stopClosed: bool, clock: nat -> int) returns (rest: seq<Pool.Job>)
      requires store.Valid()
      modifies this, store, store.sensors.Values
      ensures store.Valid() && fresh(store.sensors.Values - old(store.sensors.Values))
      ensures |rest| <= |jobs| && rest == jobs[|jobs| - |rest|..]
      ensures !stopClosed ==> rest == []
      ensures (store.Model(), Model()) ==
        ProcessAll(old(store.Model()), old(Model()), MsgsIn(jobs[..|jobs| - |rest|]), clock)
    {
      var taken, handled := 0, 0;
      while true
        invariant taken <= |jobs|
        invariant store.Valid() && fresh(store.sensors.Values - old(store.sensors.Values))
        invariant handled == |MsgsIn(jobs[..taken])|
        invariant (store.Model(), Model()) ==
          ProcessAll(old(store.Model()), old(Model()), MsgsIn(jobs[..taken]), clock)
        decreases |jobs| - taken
      {
        var leave: bool := *;
        if (stopClosed && leave) || taken == |jobs| {
          rest := jobs[taken..];
          assert |jobs| - |rest| == taken;
          return;
        }
        var job := jobs[taken];
        OneMoreJob(old(store.Model()), old(Model()), jobs, taken, clock);
        taken := taken + 1;
        if job.Nil? {
          continue;
        }
        ProcessMessage(job.msg, clock(handled));
        handled := handled + 1;
      }
    }
  }

  // ----- Statistics -----

  datatype ProcessorStats = ProcessorStats(
    totalProcessed: nat,
    totalErrors: nat,
    totalAnomalies: nat,
    totalDropped: nat,
    totalDuplicates: nat,
    totalOutOfOrder: nat,
    knownSensors: nat)

  ghost function Models(ws: seq<Worker>): (ms: seq<Pool.Worker>)
    reads ws
    ensures |ms| == |ws|
    ensures forall i :: 0 <= i < |ws| ==> ms[i] == ws[i].Model()
  {
    if ws == [] then [] else Models(ws[..|ws| - 1]) + [ws[|ws| - 1].Model()]
  }

  lemma SumPrefix(k: Measure, ms: seq<Pool.Worker>, i: nat)
    requires i < |ms|
    ensures Sum(k, ms[..i + 1]) == Sum(k, ms[..i]) + Value(k, ms[i])
  {
    assert ms[..i + 1][..i] == ms[..i];
  }

  /** The totals over the given workers, as the pool's laws speak of them. */
  ghost predicate Totals(stats: ProcessorStats, ms: seq<Pool.Worker>) {
    && stats.totalProcessed == Sum(Processed, ms)
    && stats.totalErrors == Sum(Shown(Errors), ms)
    && stats.totalAnomalies == Sum(Shown(Anomalies), ms)
    && stats.totalDropped == Sum(Shown(Dropped), ms)
    && stats.totalDuplicates == Sum(Shown(Duplicates), ms)
    && stats.totalOutOfOrder == Sum(Shown(OutOfOrder), ms)
  }

  lemma TotalsOneMore(stats: ProcessorStats, ms: seq<Pool.Worker>, i: nat)
    requires i < |ms| && Totals(stats, ms[..i])
    ensures Totals(ProcessorStats(
      stats.totalProcessed + ms[i].processed,
      stats.totalErrors + ms[i].errors,
      stats.totalAnomalies + ms[i].anomalies,
      stats.totalDropped + ms[i].dropped,
      stats.totalDuplicates + ms[i].duplicates,
      stats.totalOutOfOrder + ms[i].outOfOrder,
      stats.knownSensors), ms[..i + 1])
  {
    SumPrefix(Processed, ms, i);
    SumPrefix(Shown(Errors), ms, i);
    SumPrefix(Shown(Anomalies), ms, i);
    SumPrefix(Shown(Dropped), ms, i);
    SumPrefix(Shown(Duplicates), ms, i);
    SumPrefix(Shown(OutOfOrder), ms, i);
  }

  /** Adds up the workers' counters. */
  method Stats(workers: seq<Worker>, store: StateStore) returns (stats: ProcessorStats)
    requires store.Valid()
    ensures Totals(stats, Models(workers))
    ensures stats.knownSensors == |store.Model()|
  {
    var known := store.Count();
    stats := ProcessorStats(0, 0, 0, 0, 0, 0, known);
    ghost var ms := Models(workers);
    for i := 0 to |workers|
      invariant Totals(stats, ms[..i]) && stats.knownSensors == known
    {
      var w := workers[i];
      TotalsOneMore(stats, ms, i);
      stats := ProcessorStats(
        stats.totalProcessed + w.messagesProcessed,
        stats.totalErrors + w.errors,
        stats.totalAnomalies + w.anomalies,
        stats.totalDropped + w.dropped,
        stats.totalDuplicates + w.duplicates,
        stats.totalOutOfOrder + w.outOfOrder,
        stats.knownSensors);
    }
    assert ms[..|workers|] == ms;
  }
}
