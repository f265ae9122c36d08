/** The processor's statistics and the store's: two views of the same events. */
module Agreement {
  import opened Protocol
  import opened Store
  import opened Pool
  import opened PoolInvariants
  import opened Accounting
  import TrackerLaws

  function SensorCount(c: Counter, e: Sensor): nat {
    match c
    case Dropped => e.track.dropped
    case Duplicates => e.track.duplicates
    case OutOfOrder => e.track.outOfOrder
    case Errors => e.errors
    case Anomalies => e.anomalies
  }

  /** A count summed over all sensors. */
  ghost function Total(c: Counter, st: Store): nat {
    if st == map[] then 0
    else
      var id :| id in st;
      SensorCount(c, st[id]) + Total(c, st - {id})
  }

  lemma {:induction false} TotalWithout(c: Counter, st: Store, id: string)
    requires id in st
    ensures Total(c, st) == SensorCount(c, st[id]) + Total(c, st - {id})
    decreases |st|
  {
    var k :| k in st && Total(c, st) == SensorCount(c, st[k]) + Total(c, st - {k});
    if k != id {
      TotalWithout(c, st - {k}, id);
      TotalWithout(c, st - {id}, k);
      assert st - {k} - {id} == st - {id} - {k};
    }
  }

  lemma TotalPut(c: Counter, st: Store, id: string, e: Sensor)
    ensures Total(c, st[id := e]) ==
      Total(c, st) + SensorCount(c, e) - (if id in st then SensorCount(c, st[id]) else 0)
  {
    var st' := st[id := e];
    TotalWithout(c, st', id);
    if id in st {
      TotalWithout(c, st, id);
      assert st' - {id} == st - {id};
    } else {
      assert st' - {id} == st;
    }
  }

  lemma {:induction false} TotalSame(c: Counter, a: Store, b: Store)
    requires a.Keys == b.Keys
    requires forall id :: id in a ==> SensorCount(c, a[id]) == SensorCount(c, b[id])
    ensures Total(c, a) == Total(c, b)
    decreases |a|
  {
    if a == map[] {
      assert b == map[];
    } else {
      var id :| id in a;
      TotalWithout(c, a, id);
      TotalWithout(c, b, id);
      TotalSame(c, a - {id}, b - {id});
    }
  }

  ghost predicate Agree(c: Counter, s: State) {
    Sum(Shown(c), s.workers) + Sum(Owed(c), s.workers) == Total(c, s.store)
  }

  /** Applying one message changes a sensor's count by exactly what the result of
      the update says, which is what the worker will add to its own. */
  lemma UpdateAddsResult(s: State, m: Msg, now: int, c: Counter)
    requires OnePlace(s) && SeesSensor(s, m.sensorID)
    ensures var (e, r) := UpdateSensor(s.store, m, now);
      SensorCount(c, e) - (if m.sensorID in s.store then SensorCount(c, s.store[m.sensorID]) else 0)
        == OwedBy(c, AddingDropped(0, m, r))
  {
    if m.sensorID in s.store {
      TrackerLaws.GapIsExact(SeqsOf(AppliedMsgs(s), m.sensorID), m.sequence);
    }
  }

  lemma UpdateAddsToWorker(s: State, w: nat, now: int, c: Counter)
    requires Enabled(s, UpdateStore(w, now))
    ensures var (s', m) := (Next(s, UpdateStore(w, now)), s.workers[w].phase.m);
      && Sum(Shown(c), s'.workers) == Sum(Shown(c), s.workers)
      && Sum(Owed(c), s'.workers) == Sum(Owed(c), s.workers)
           + OwedBy(c, AddingDropped(0, m, UpdateSensor(s.store, m, now).1))
  {
    SumStep(Shown(c), s, UpdateStore(w, now));
    SumStep(Owed(c), s, UpdateStore(w, now));
  }

  lemma UpdateAddsToTotal(s: State, w: nat, now: int, c: Counter)
    requires Places(s) && Sees(s) && Enabled(s, UpdateStore(w, now))
    ensures var m := s.workers[w].phase.m;
      Total(c, Next(s, UpdateStore(w, now)).store) ==
        Total(c, s.store) + OwedBy(c, AddingDropped(0, m, UpdateSensor(s.store, m, now).1))
  {
    var m := s.workers[w].phase.m;
    assert SeesSensor(s, m.sensorID);
    UpdateAddsResult(s, m, now, c);
    TotalPut(c, s.store, m.sensorID, UpdateSensor(s.store, m, now).0);
  }

  lemma AgreeUpdate(s: State, w: nat, now: int, c: Counter)
    requires Places(s) && Sees(s) && Enabled(s, UpdateStore(w, now)) && Agree(c, s)
    ensures Agree(c, Next(s, UpdateStore(w, now)))
  {
    UpdateAddsToWorker(s, w, now, c);
    UpdateAddsToTotal(s, w, now, c);
  }

  lemma AgreeRecord(s: State, w: nat, c: Counter)
    requires Places(s) && Sees(s) && Enabled(s, Record(w)) && Agree(c, s)
    ensures Agree(c, Next(s, Record(w)))
  {
    SumStep(Shown(c), s, Record(w));
    SumStep(Owed(c), s, Record(w));
    SensorKnown(s, w);
    var op := RecordOp(s.workers[w].phase);
    TotalPut(c, s.store, op.id, Apply(s.store, op)[op.id]);
  }

  lemma AgreeElsewhere(s: State, a: Action, c: Counter)
    requires Enabled(s, a) && Agree(c, s)
    requires !a.UpdateStore? && !a.Record? && !a.Scan?
    ensures Agree(c, Next(s, a))
  {
    SumStep(Shown(c), s, a);
    SumStep(Owed(c), s, a);
  }

  lemma AgreeStep(s: State, a: Action, c: Counter)
    requires Places(s) && Sees(s) && Enabled(s, a) && Agree(c, s)
    ensures Agree(c, Next(s, a))
  {
    match a
    case UpdateStore(w, now) => AgreeUpdate(s, w, now, c);
    case Record(w) => AgreeRecord(s, w, c);
    case Scan(now, timeout) => TotalSame(c, s.store, Next(s, a).store);
    case _ => AgreeElsewhere(s, a, c);
  }

  lemma {:induction false} ExecAgree(numWorkers: int, queueSize: int, acts: seq<Action>, c: Counter)
    requires Exec(Init(numWorkers, queueSize), acts).Some?
    ensures Agree(c, Exec(Init(numWorkers, queueSize), acts).value)
  {
    if acts == [] {
      SumInit(Shown(c), numWorkers, queueSize);
      SumInit(Owed(c), numWorkers, queueSize);
    } else {
      var before := acts[..|acts| - 1];
      ExecAgree(numWorkers, queueSize, before, c);
      ExecSound(numWorkers, queueSize, before);
      AgreeStep(Exec(Init(numWorkers, queueSize), before).value, acts[|acts| - 1], c);
    }
  }

  ghost predicate AllAtRest(s: State) {
    forall w :: 0 <= w < |s.workers| ==> !InHand(s.workers[w].phase)
  }

  lemma RestOwesNothing(c: Counter, s: State)
    requires AllAtRest(s)
    ensures Sum(Owed(c), s.workers) == 0
  {
    SumZero(Owed(c), s.workers);
  }

  /** In every reachable state each of the five counts, summed over the workers and
      corrected by what each owes at its point in the loop, is the count summed over
      the sensors; with every worker at rest the sums are equal. */
  lemma TwoViewsAgree(numWorkers: int, queueSize: int, s: State, c: Counter)
    requires Reachable(numWorkers, queueSize, s)
    ensures Sum(Shown(c), s.workers) + Sum(Owed(c), s.workers) == Total(c, s.store)
    ensures AllAtRest(s) ==> Sum(Shown(c), s.workers) == Total(c, s.store)
  {
    var acts :| Exec(Init(numWorkers, queueSize), acts) == Some(s);
    ExecAgree(numWorkers, queueSize, acts, c);
    if AllAtRest(s) {
      RestOwesNothing(c, s);
    }
  }

  // ----- Verdicts -----

  /** The types whose payload the worker reads. */
  predicate Parsed(sensorType: string) {
    || sensorType == "gps" || sensorType == "drone" || sensorType == "vehicle"
    || sensorType == "temperature" || sensorType == "radar" || sensorType == "patient_vitals"
  }

  /** What is to be made of a message, by its own type and payload. */
  predicate Judged(m: Msg, v: Verdict) {
    if Parsed(m.sensorType) then m.payload == v else v == Fine
  }

  lemma ValidateJudges(m: Msg)
    ensures Judged(m, Validate(m))
  {
  }

  /** How many of the messages are to get this verdict. */
  function VerdictCount(ms: seq<Msg>, v: Verdict): nat {
    if ms == [] then 0
    else VerdictCount(ms[..|ms| - 1], v) + if Judged(ms[|ms| - 1], v) then 1 else 0
  }

  lemma VerdictCountSnoc(ms: seq<Msg>, m: Msg, v: Verdict)
    ensures VerdictCount(ms + [m], v) == VerdictCount(ms, v) + if Judged(m, v) then 1 else 0
  {
    assert (ms + [m])[..|ms|] == ms;
  }

  /** How many of the messages are from this sensor and to get this verdict. */
  function Verdicts(ms: seq<Msg>, id: string, v: Verdict): nat {
    if ms == [] then 0
    else
      var m := ms[|ms| - 1];
      Verdicts(ms[..|ms| - 1], id, v) + if m.sensorID == id && Judged(m, v) then 1 else 0
  }

  lemma VerdictsSnoc(ms: seq<Msg>, m: Msg, id: string, v: Verdict)
    ensures Verdicts(ms + [m], id, v) == Verdicts(ms, id, v) + if m.sensorID == id && Judged(m, v) then 1 else 0
  {
    assert (ms + [m])[..|ms|] == ms;
  }

  /** The sensor-side count of a verdict. */
  function Recorded(st: Store, id: string, v: Verdict): nat {
    if id !in st then 0
    else match v
      case Fine => 0
      case OutOfRange => st[id].anomalies
      case Malformed => st[id].errors
  }

  /** The worker-side counts, less those whose messages are not finished with. */
  ghost function Concluded(s: State, v: Verdict): int {
    match v
    case Fine => Sum(Processed, s.workers)
    case OutOfRange => Sum(Shown(Anomalies), s.workers) + Sum(Owed(Anomalies), s.workers)
    case Malformed => Sum(Shown(Errors), s.workers) + Sum(Owed(Errors), s.workers)
  }

  /** A worker records an anomaly or an error only for a message with that verdict. */
  ghost predicate VerdictKnown(ph: Phase) {
    && (ph.RecordingAnomaly? ==> Judged(ph.m, OutOfRange))
    && (ph.RecordingError? ==> Judged(ph.m, Malformed))
  }

  ghost predicate AllVerdictsKnown(s: State) {
    forall w :: 0 <= w < |s.workers| ==> VerdictKnown(s.workers[w].phase)
  }

  lemma VerdictKnownStep(s: State, a: Action)
    requires Enabled(s, a) && AllVerdictsKnown(s)
    ensures AllVerdictsKnown(Next(s, a))
  {
    if a.Count? { ValidateJudges(s.workers[a.w].phase.m); }
  }

  lemma RecordedStep(s: State, a: Action, id: string, v: Verdict)
    requires Places(s) && Sees(s) && Enabled(s, a) && AllVerdictsKnown(s) && v != Fine
    ensures Recorded(Next(s, a).store, id, v) == Recorded(s.store, id, v) +
      if Finishes(s, a) && s.workers[a.w].phase.m.sensorID == id && Judged(s.workers[a.w].phase.m, v)
      then 1 else 0
  {
    match a
    case Record(w) => SensorKnown(s, w);
    case Count(w) => ValidateJudges(s.workers[w].phase.m);
    case _ =>
  }

  lemma ProcessedDelta(s: State, a: Action)
    requires Enabled(s, a) && AllVerdictsKnown(s)
    ensures Concluded(Next(s, a), Fine) == Concluded(s, Fine) +
      if Finishes(s, a) && Judged(s.workers[a.w].phase.m, Fine) then 1 else 0
  {
    if a.Count? { ValidateJudges(s.workers[a.w].phase.m); }
    SumStep(Processed, s, a);
  }

  lemma AnomaliesDelta(s: State, a: Action)
    requires Enabled(s, a) && AllVerdictsKnown(s)
    ensures Concluded(Next(s, a), OutOfRange) == Concluded(s, OutOfRange) +
      if Finishes(s, a) && Judged(s.workers[a.w].phase.m, OutOfRange) then 1 else 0
  {
    if a.Count? { ValidateJudges(s.workers[a.w].phase.m); }
    SumStep(Shown(Anomalies), s, a);
    SumStep(Owed(Anomalies), s, a);
  }

  lemma ErrorsDelta(s: State, a: Action)
    requires Enabled(s, a) && AllVerdictsKnown(s)
    ensures Concluded(Next(s, a), Malformed) == Concluded(s, Malformed) +
      if Finishes(s, a) && Judged(s.workers[a.w].phase.m, Malformed) then 1 else 0
  {
    if a.Count? { ValidateJudges(s.workers[a.w].phase.m); }
    SumStep(Shown(Errors), s, a);
    SumStep(Owed(Errors), s, a);
  }

  lemma ConcludedDelta(s: State, a: Action, v: Verdict)
    requires Enabled(s, a) && AllVerdictsKnown(s)
    ensures Concluded(Next(s, a), v) == Concluded(s, v) +
      if Finishes(s, a) && Judged(s.workers[a.w].phase.m, v) then 1 else 0
  {
    match v
    case Fine => ProcessedDelta(s, a);
    case OutOfRange => AnomaliesDelta(s, a);
    case Malformed => ErrorsDelta(s, a);
  }

  /** The counts of a verdict, per sensor and over the workers, are those of the
      finished messages that call for it. */
  ghost predicate VerdictsTold(s: State, id: string, v: Verdict)
    requires OnePlace(s)
  {
    && (v != Fine ==> Recorded(s.store, id, v) == Verdicts(FinishedMsgs(s), id, v))
    && Concluded(s, v) == VerdictCount(FinishedMsgs(s), v)
  }

  lemma SensorVerdictsStep(s: State, a: Action, id: string, v: Verdict)
    requires Places(s) && Sees(s) && Enabled(s, a) && AllVerdictsKnown(s) && v != Fine
    requires Recorded(s.store, id, v) == Verdicts(FinishedMsgs(s), id, v)
    ensures OnePlace(Next(s, a))
    ensures Recorded(Next(s, a).store, id, v) == Verdicts(FinishedMsgs(Next(s, a)), id, v)
  {
    FinishedMsgsStep(s, a);
    RecordedStep(s, a, id, v);
    if Finishes(s, a) {
      VerdictsSnoc(FinishedMsgs(s), s.workers[a.w].phase.m, id, v);
    }
  }

  lemma FinishedVerdictsStep(s: State, a: Action, v: Verdict)
    requires Places(s) && Enabled(s, a)
    ensures OnePlace(Next(s, a))
    ensures VerdictCount(FinishedMsgs(Next(s, a)), v) == VerdictCount(FinishedMsgs(s), v) +
      if Finishes(s, a) && Judged(s.workers[a.w].phase.m, v) then 1 else 0
  {
    FinishedMsgsStep(s, a);
    if Finishes(s, a) {
      VerdictCountSnoc(FinishedMsgs(s), s.workers[a.w].phase.m, v);
    }
  }

  lemma TotalVerdictsStep(s: State, a: Action, v: Verdict)
    requires Places(s) && Enabled(s, a) && AllVerdictsKnown(s)
    requires Concluded(s, v) == VerdictCount(FinishedMsgs(s), v)
    ensures OnePlace(Next(s, a))
    ensures Concluded(Next(s, a), v) == VerdictCount(FinishedMsgs(Next(s, a)), v)
  {
    FinishedVerdictsStep(s, a, v);
    ConcludedDelta(s, a, v);
  }

  lemma VerdictsStep(s: State, a: Action, id: string, v: Verdict)
    requires Places(s) && Sees(s) && Enabled(s, a) && AllVerdictsKnown(s)
    requires VerdictsTold(s, id, v)
    ensures OnePlace(Next(s, a)) && VerdictsTold(Next(s, a), id, v)
  {
    TotalVerdictsStep(s, a, v);
    if v != Fine { SensorVerdictsStep(s, a, id, v); }
  }

  lemma VerdictsInit(numWorkers: int, queueSize: int, id: string, v: Verdict)
    ensures OnePlace(Init(numWorkers, queueSize)) && VerdictsTold(Init(numWorkers, queueSize), id, v)
  {
    SoundInit(numWorkers, queueSize);
    SumInit(Processed, numWorkers, queueSize);
    SumInit(Shown(Anomalies), numWorkers, queueSize);
    SumInit(Owed(Anomalies), numWorkers, queueSize);
    SumInit(Shown(Errors), numWorkers, queueSize);
    SumInit(Owed(Errors), numWorkers, queueSize);
  }

  lemma {:induction false} ExecVerdicts(numWorkers: int, queueSize: int, acts: seq<Action>, id: string, v: Verdict)
    requires Exec(Init(numWorkers, queueSize), acts).Some?
    ensures var s := Exec(Init(numWorkers, queueSize), acts).value;
      AllVerdictsKnown(s) && OnePlace(s) && VerdictsTold(s, id, v)
  {
    if acts == [] {
      VerdictsInit(numWorkers, queueSize, id, v);
    } else {
      var before := acts[..|acts| - 1];
      ExecVerdicts(numWorkers, queueSize, before, id, v);
      ExecSound(numWorkers, queueSize, before);
      var p := Exec(Init(numWorkers, queueSize), before).value;
      VerdictKnownStep(p, acts[|acts| - 1]);
      VerdictsStep(p, acts[|acts| - 1], id, v);
    }
  }

  /** In every reachable state a sensor's anomaly and error counts are exactly its
      finished messages whose type is read and whose payload is out of range, or
      malformed: no count is lost to a sensor the store does not know. */
  lemma {:induction false} VerdictsReachStore(numWorkers: int, queueSize: int, s: State, id: string)
    requires Reachable(numWorkers, queueSize, s)
    ensures OnePlace(s)
    ensures Verdicts(FinishedMsgs(s), id, OutOfRange) == if id in s.store then s.store[id].anomalies else 0
    ensures Verdicts(FinishedMsgs(s), id, Malformed) == if id in s.store then s.store[id].errors else 0
  {
    var acts :| Exec(Init(numWorkers, queueSize), acts) == Some(s);
    ExecVerdicts(numWorkers, queueSize, acts, id, OutOfRange);
    ExecVerdicts(numWorkers, queueSize, acts, id, Malformed);
  }

  /** And the workers' totals: processed are exactly the finished messages whose type
      is not read or whose payload is fine; anomalies and errors are the finished ones
      out of range, or malformed, and those about to be recorded as such. */
  lemma {:induction false} VerdictsReachTotals(numWorkers: int, queueSize: int, s: State)
    requires Reachable(numWorkers, queueSize, s)
    ensures OnePlace(s)
    ensures Sum(Processed, s.workers) == VerdictCount(FinishedMsgs(s), Fine)
    ensures Sum(Shown(Anomalies), s.workers) + Sum(Owed(Anomalies), s.workers) ==
      VerdictCount(FinishedMsgs(s), OutOfRange)
    ensures Sum(Shown(Errors), s.workers) + Sum(Owed(Errors), s.workers) ==
      VerdictCount(FinishedMsgs(s), Malformed)
  {
    var acts :| Exec(Init(numWorkers, queueSize), acts) == Some(s);
    ExecVerdicts(numWorkers, queueSize, acts, [], Fine);
    ExecVerdicts(numWorkers, queueSize, acts, [], OutOfRange);
    ExecVerdicts(numWorkers, queueSize, acts, [], Malformed);
  }
}
