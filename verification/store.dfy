/** The sensor store as a value, the critical sections that change it, and laws
    over every run of them. `StateStores` implements these sections on objects. */
module Store {
  import opened Protocol
  import opened Tracker

  datatype Status = Healthy | Stale

  datatype Sensor = Sensor(
    sensorID: string,
    sensorType: string,
    status: Status,
    firstSeen: int,
    lastSeen: int,
    errors: nat,
    anomalies: nat,
    track: Track)

  type Store = map<string, Sensor>

  /** One critical section of the store. The clock reading a section takes under
      the lock is its argument. */
  datatype Op =
    | Update(msg: Msg, now: int)
    | RecordError(id: string)
    | RecordAnomaly(id: string)
    | CheckStale(now: int, timeout: int)

  function UpdateSensor(st: Store, m: Msg, now: int): (Sensor, UpdateResult) {
    if m.sensorID !in st then
      (Sensor(m.sensorID, m.sensorType, Healthy, now, now, 0, 0, First(m.sequence)), NEW_SENSOR)
    else
      var e := st[m.sensorID];
      var (t, r) := Step(e.track, m.sequence);
      (e.(lastSeen := now, status := Healthy, track := t), r)
  }

  predicate Silent(s: Sensor, now: int, timeout: int) {
    s.status == Healthy && now - s.lastSeen > timeout
  }

  /** The sensors a scan turns from healthy to stale, which are the ones it reports. */
  function NewlyStale(st: Store, now: int, timeout: int): set<string> {
    set id | id in st && Silent(st[id], now, timeout)
  }

  function Scanned(st: Store, now: int, timeout: int): Store {
    map id | id in st ::
      if Silent(st[id], now, timeout) then st[id].(status := Stale) else st[id]
  }

  function Apply(st: Store, op: Op): Store {
    match op
    case Update(m, now) =>
      st[m.sensorID := UpdateSensor(st, m, now).0]
    case RecordError(id) =>
      if id in st then st[id := st[id].(errors := st[id].errors + 1)] else st
    case RecordAnomaly(id) =>
      if id in st then st[id := st[id].(anomalies := st[id].anomalies + 1)] else st
    case CheckStale(now, timeout) =>
      Scanned(st, now, timeout)
  }

  function After(ops: seq<Op>): Store {
    if ops == [] then map[] else Apply(After(ops[..|ops| - 1]), ops[|ops| - 1])
  }
}

module StoreLaws {
  import opened Protocol
  import opened Tracker
  import opened Store
  import TrackerLaws

  // ----- Sensor isolation -----

  predicate Concerns(op: Op, id: string) {
    match op
    case Update(m, _) => m.sensorID == id
    case RecordError(i) => i == id
    case RecordAnomaly(i) => i == id
    case CheckStale(_, _) => true
  }

  predicate Updates(op: Op, id: string) {
    op.Update? && op.msg.sensorID == id
  }

  /** The part of a run that one sensor can notice. */
  function Project(ops: seq<Op>, id: string): seq<Op> {
    if ops == [] then []
    else
      Project(ops[..|ops| - 1], id) + (if Concerns(ops[|ops| - 1], id) then [ops[|ops| - 1]] else [])
  }

  predicate SameSensor(a: Store, b: Store, id: string) {
    (id in a <==> id in b) && (id in a ==> a[id] == b[id])
  }

  /** A run's messages of one sensor, as sequence numbers. */
  function Received(ops: seq<Op>, id: string): seq<Uint64> {
    if ops == [] then []
    else
      var op := ops[|ops| - 1];
      Received(ops[..|ops| - 1], id)
        + (if Updates(op, id) then [op.msg.sequence] else [])
  }

  lemma AfterSnoc(ops: seq<Op>, op: Op)
    ensures After(ops + [op]) == Apply(After(ops), op)
  {
    assert (ops + [op])[..|ops|] == ops;
  }

  lemma ApplyIsLocal(a: Store, b: Store, op: Op, id: string)
    requires SameSensor(a, b, id)
    ensures Concerns(op, id) ==> SameSensor(Apply(a, op), Apply(b, op), id)
    ensures !Concerns(op, id) ==> SameSensor(Apply(a, op), a, id)
  {
  }

  /** What the store holds for a sensor after an interleaved run is what it would
      hold had only that sensor's operations, and the scans, been run. */
  lemma {:induction false} Isolation(ops: seq<Op>, id: string)
    ensures SameSensor(After(ops), After(Project(ops, id)), id)
  {
    if ops != [] {
      var before, op := ops[..|ops| - 1], ops[|ops| - 1];
      Isolation(before, id);
      ApplyIsLocal(After(before), After(Project(before, id)), op, id);
      if Concerns(op, id) {
        AfterSnoc(Project(before, id), op);
      } else {
        assert Project(ops, id) == Project(before, id);
      }
    }
  }

  /** So any two interleavings of the same per-sensor runs leave the same store. */
  lemma InterleavingIrrelevant(a: seq<Op>, b: seq<Op>)
    requires forall id :: Project(a, id) == Project(b, id)
    ensures After(a) == After(b)
  {
    forall id: string
      ensures id in After(a) <==> id in After(b)
      ensures id in After(a) ==> After(a)[id] == After(b)[id]
    {
      Isolation(a, id);
      Isolation(b, id);
    }
  }

  lemma ApplyTrack(st: Store, op: Op, id: string)
    ensures Updates(op, id) ==>
      && id in Apply(st, op)
      && Apply(st, op)[id].track == (if id in st then Step(st[id].track, op.msg.sequence).0 else First(op.msg.sequence))
    ensures !Updates(op, id) ==>
      && (id in Apply(st, op) <==> id in st)
      && (id in st ==> Apply(st, op)[id].track == st[id].track)
    ensures id in st ==> Apply(st, op)[id].sensorID == st[id].sensorID
    ensures id !in st && id in Apply(st, op) ==> Apply(st, op)[id].sensorID == id
  {
  }

  /** The store knows exactly the sensors that were updated, under their own
      names, and each one's tracker has run on exactly that sensor's messages. */
  lemma {:induction false} TracksReceived(ops: seq<Op>, id: string)
    ensures id in After(ops) <==> Received(ops, id) != []
    ensures id in After(ops) ==>
      After(ops)[id].sensorID == id && After(ops)[id].track == Run(Received(ops, id))
  {
    if ops != [] {
      var before, op := ops[..|ops| - 1], ops[|ops| - 1];
      TracksReceived(before, id);
      ApplyTrack(After(before), op, id);
      if Updates(op, id) {
        if Received(before, id) != [] {
          TrackerLaws.RunSnoc(Received(before, id), op.msg.sequence);
        }
        assert Received(ops, id) == Received(before, id) + [op.msg.sequence];
      } else {
        assert Received(ops, id) == Received(before, id);
      }
    }
  }

  /** A message is answered as a new sensor's exactly if it is its sensor's first. */
  lemma {:induction false} NewExactlyOnce(ops: seq<Op>, m: Msg, now: int)
    ensures UpdateSensor(After(ops), m, now).1.isNewSensor <==> Received(ops, m.sensorID) == []
  {
    TracksReceived(ops, m.sensorID);
  }

  /** How often errors, or anomalies, were recorded for a sensor already known. */
  function RecordedErrors(ops: seq<Op>, id: string): nat {
    if ops == [] then 0
    else
      var before := ops[..|ops| - 1];
      RecordedErrors(before, id)
        + if ops[|ops| - 1] == Op.RecordError(id) && Received(before, id) != [] then 1 else 0
  }

  function RecordedAnomalies(ops: seq<Op>, id: string): nat {
    if ops == [] then 0
    else
      var before := ops[..|ops| - 1];
      RecordedAnomalies(before, id)
        + if ops[|ops| - 1] == Op.RecordAnomaly(id) && Received(before, id) != [] then 1 else 0
  }

  lemma {:induction false} CountsRecorded(ops: seq<Op>, id: string)
    ensures id in After(ops) ==>
      After(ops)[id].errors == RecordedErrors(ops, id) && After(ops)[id].anomalies == RecordedAnomalies(ops, id)
    ensures id !in After(ops) ==> RecordedErrors(ops, id) == 0 && RecordedAnomalies(ops, id) == 0
  {
    if ops != [] {
      CountsRecorded(ops[..|ops| - 1], id);
      TracksReceived(ops[..|ops| - 1], id);
    }
  }

  // ----- Staleness over whole runs -----

  predicate HasTime(op: Op) {
    op.Update? || op.CheckStale?
  }

  /** The clock never runs backwards, and every scan uses the same timeout. */
  predicate Timely(ops: seq<Op>, timeout: int) {
    && (forall i, j :: 0 <= i < j < |ops| && HasTime(ops[i]) && HasTime(ops[j]) ==> ops[i].now <= ops[j].now)
    && (forall i :: 0 <= i < |ops| && ops[i].CheckStale? ==> ops[i].timeout == timeout)
  }

  /** Operation `i` is a scan that reports `id`. */
  predicate Reports(ops: seq<Op>, i: nat, id: string)
    requires i < |ops|
  {
    ops[i].CheckStale? && id in NewlyStale(After(ops[..i]), ops[i].now, ops[i].timeout)
  }

  function ReportCount(ops: seq<Op>, id: string): nat {
    if ops == [] then 0
    else
      ReportCount(ops[..|ops| - 1], id) + (if Reports(ops, |ops| - 1, id) then 1 else 0)
  }

  lemma TimelyPrefix(ops: seq<Op>, timeout: int, n: nat)
    requires n <= |ops| && Timely(ops, timeout)
    ensures Timely(ops[..n], timeout)
  {
  }

  /** A stale sensor was found silent for too long by some scan, and has been
      silent ever since. */
  lemma {:induction false} StaleHasWitness(ops: seq<Op>, timeout: int, id: string) returns (i: nat)
    requires Timely(ops, timeout)
    requires id in After(ops) && After(ops)[id].status == Stale
    ensures i < |ops| && ops[i].CheckStale?
    ensures ops[i].now - After(ops)[id].lastSeen > timeout
  {
    var n := |ops| - 1;
    var before := After(ops[..n]);
    if Reports(ops, n, id) {
      i := n;
    } else {
      TimelyPrefix(ops, timeout, n);
      i := StaleHasWitness(ops[..n], timeout, id);
    }
  }

  /** Operation `i` is the sensor's last message. */
  predicate LastUpdate(ops: seq<Op>, i: nat, id: string) {
    && i < |ops| && Updates(ops[i], id)
    && forall k :: i < k < |ops| ==> !Updates(ops[k], id)
  }

  /** Operation `i` is the sensor's first message. */
  predicate FirstUpdate(ops: seq<Op>, i: nat, id: string) {
    && i < |ops| && Updates(ops[i], id)
    && forall k :: 0 <= k < i ==> !Updates(ops[k], id)
  }

  lemma SeenStep(st: Store, op: Op, id: string)
    requires id in Apply(st, op)
    ensures Updates(op, id) ==> Apply(st, op)[id].lastSeen == op.now
    ensures !Updates(op, id) ==> id in st && Apply(st, op)[id].lastSeen == st[id].lastSeen
    ensures id in st ==>
      Apply(st, op)[id].firstSeen == st[id].firstSeen && Apply(st, op)[id].sensorType == st[id].sensorType
    ensures id !in st ==>
      Apply(st, op)[id].firstSeen == op.now && Apply(st, op)[id].sensorType == op.msg.sensorType
  {
  }

  /** A known sensor's times are those of its first and its last message, and its
      type is what the first one said, whatever else happened in between. */
  lemma {:induction false} SeenWhen(ops: seq<Op>, id: string) returns (first: nat, last: nat)
    requires id in After(ops)
    ensures FirstUpdate(ops, first, id) && LastUpdate(ops, last, id)
    ensures After(ops)[id].firstSeen == ops[first].now
    ensures After(ops)[id].sensorType == ops[first].msg.sensorType
    ensures After(ops)[id].lastSeen == ops[last].now
  {
    var n := |ops| - 1;
    var prior := ops[..n];
    SeenStep(After(prior), ops[n], id);
    if id in After(prior) {
      first, last := SeenWhen(prior, id);
      if Updates(ops[n], id) { last := n; }
    } else {
      first, last := n, n;
      TracksReceived(prior, id);
      forall k | 0 <= k < n ensures !Updates(ops[k], id) {
        NeverReceived(prior, id, k);
        assert prior[k] == ops[k];
      }
    }
  }

  lemma {:induction false} NeverReceived(ops: seq<Op>, id: string, k: nat)
    requires Received(ops, id) == [] && k < |ops|
    ensures !Updates(ops[k], id)
  {
    if k < |ops| - 1 {
      NeverReceived(ops[..|ops| - 1], id, k);
    }
  }

  /** A sensor's last-seen time is that of its last message. */
  lemma {:induction false} LastSeenIs(ops: seq<Op>, last: nat, id: string)
    requires id in After(ops) && LastUpdate(ops, last, id)
    ensures After(ops)[id].lastSeen == ops[last].now
  {
    var _, k := SeenWhen(ops, id);
    assert k == last;
  }

  /** Right after a scan a sensor is stale exactly when it has been silent for
      longer than the timeout. */
  lemma StaleExactlyWhenSilent(ops: seq<Op>, timeout: int, id: string)
    requires Timely(ops, timeout)
    requires ops != [] && ops[|ops| - 1].CheckStale?
    requires id in After(ops)
    ensures After(ops)[id].status == Stale <==>
      ops[|ops| - 1].now - After(ops)[id].lastSeen > timeout
    ensures forall last: nat :: LastUpdate(ops, last, id) ==> After(ops)[id].lastSeen == ops[last].now
  {
    var prior := ops[..|ops| - 1];
    assert After(ops) == Scanned(After(prior), ops[|ops| - 1].now, timeout);
    if After(ops)[id].status == Stale {
      var i := StaleHasWitness(ops, timeout, id);
      assert i == |ops| - 1 || ops[i].now <= ops[|ops| - 1].now;
    }
    forall last: nat | LastUpdate(ops, last, id) ensures After(ops)[id].lastSeen == ops[last].now {
      LastSeenIs(ops, last, id);
    }
  }

  /** Scan `i` reported `id`, and no message of it has been applied since. */
  predicate ReportedSince(ops: seq<Op>, i: nat, id: string) {
    && i < |ops| && Reports(ops, i, id)
    && forall k :: i < k < |ops| ==> !Updates(ops[k], id)
  }

  lemma ReportedSinceSnoc(ops: seq<Op>, i: nat, id: string)
    requires i < |ops| - 1 && !Updates(ops[|ops| - 1], id)
    ensures ReportedSince(ops, i, id) <==> ReportedSince(ops[..|ops| - 1], i, id)
  {
    var prior := ops[..|ops| - 1];
    assert ops[..i] == prior[..i];
    assert forall k :: i < k < |prior| ==> ops[k] == prior[k];
    if ReportedSince(prior, i, id) {
      forall k | i < k < |ops| ensures !Updates(ops[k], id) {
        assert k < |prior| ==> !Updates(prior[k], id);
      }
    }
  }

  lemma StatusStep(st: Store, op: Op, id: string)
    requires id in Apply(st, op)
    ensures Apply(st, op)[id].status == Stale <==>
      !Updates(op, id) && id in st
        && (st[id].status == Stale || (op.CheckStale? && id in NewlyStale(st, op.now, op.timeout)))
  {
  }

  /** In any run, with any clock, a sensor is stale exactly when some scan has
      reported it and no message of it has been applied since. */
  lemma {:induction false} StaleExactlySinceReport(ops: seq<Op>, id: string)
    requires id in After(ops)
    ensures After(ops)[id].status == Stale <==> exists i: nat :: ReportedSince(ops, i, id)
  {
    var n := |ops| - 1;
    var prior := ops[..n];
    StatusStep(After(prior), ops[n], id);
    if !Updates(ops[n], id) {
      StaleExactlySinceReport(prior, id);
      if i: nat :| ReportedSince(prior, i, id) {
        ReportedSinceSnoc(ops, i, id);
        assert ReportedSince(ops, i, id);
      } else if i: nat :| ReportedSince(ops, i, id) && i < n {
        ReportedSinceSnoc(ops, i, id);
        assert false;
      } else {
        assert Reports(ops, n, id) <==> ReportedSince(ops, n, id);
      }
    } else {
      forall i: nat ensures !ReportedSince(ops, i, id) {
        assert i == n ==> !Reports(ops, i, id);
      }
    }
  }

  /** Between two reports of one sensor there is a message from it. */
  lemma UpdateBetweenReports(ops: seq<Op>, i: nat, j: nat, id: string)
    requires i < j < |ops| && Reports(ops, i, id) && Reports(ops, j, id)
    ensures exists k :: i < k < j && Updates(ops[k], id)
  {
    var prior := ops[..j];
    StaleExactlySinceReport(prior, id);
    assert prior[..i] == ops[..i];
    assert After(prior)[id].status == Healthy;
    assert Reports(prior, i, id) && !ReportedSince(prior, i, id);
    var k :| i < k < j && Updates(prior[k], id);
    assert Updates(ops[k], id);
  }

  /** So a sensor is never reported more often than it has sent messages, and a
      healthy one strictly less often. */
  lemma {:induction false} ReportsAtMostMessages(ops: seq<Op>, id: string)
    ensures id !in After(ops) ==> ReportCount(ops, id) == 0
    ensures id in After(ops) ==>
      ReportCount(ops, id) + (if After(ops)[id].status == Healthy then 1 else 0)
        <= After(ops)[id].track.messages
  {
    if ops != [] {
      ReportsAtMostMessages(ops[..|ops| - 1], id);
    }
  }
}
