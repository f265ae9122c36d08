/** The whole path: a fresh simulator's output through the pool into the store. */
module Fleet {
  import opened Protocol
  import opened Pool
  import opened PoolInvariants
  import opened Accounting
  import Direct
  import Lossless
  import S = Simulator

  /** Sensor `j` stands at its last number with its every message counted, none called
      a duplicate, and out-of-order arrivals balancing drops and a late start; with one
      worker there are neither. */
  ghost predicate Accounted(s: State, ids: seq<string>, j: nat)
    requires j < |ids|
  {
    && OnePlace(s) && ids[j] in s.store && SeqsOf(AppliedMsgs(s), ids[j]) != []
    && var (t, k) := (s.store[ids[j]].track, S.Emitted(|MsgsIn(s.sent)|, j, |ids|));
       var first := SeqsOf(AppliedMsgs(s), ids[j])[0];
       && t.last == t.messages == k
       && t.duplicates == 0
       && t.outOfOrder == t.dropped + first - 1
       && first <= |s.workers|
       && (|s.workers| == 1 ==> t.dropped == 0 && t.outOfOrder == 0)
  }

  /** However many workers and whatever the schedule, once the pool has drained a
      simulator's output, every sensor that has had a turn, and has a name of its own,
      is accounted for. */
  lemma SensorAccounted(numWorkers: int, queueSize: int, s: State, ids: seq<string>, j: nat)
    requires Reachable(numWorkers, queueSize, s) && Direct.Drained(s)
    requires S.NumberedByTurn(MsgsIn(s.sent), ids)
    requires j < |ids| && j < |MsgsIn(s.sent)| && S.Alone(ids, |MsgsIn(s.sent)|, j)
    ensures Accounted(s, ids, j)
  {
    S.OutputIsLossless(s.sent, ids, j);
    SomeTurn(|MsgsIn(s.sent)|, j, |ids|);
    Lossless.DrainedIsApplied(numWorkers, queueSize, s, ids[j]);
    Lossless.LosslessComplete(numWorkers, queueSize, s, ids[j], 1);
    Lossless.LosslessAlways(numWorkers, queueSize, s, ids[j], 1);
    if |s.workers| == 1 {
      Lossless.LosslessOneWorker(numWorkers, queueSize, s, ids[j], 1);
    }
  }

  lemma {:induction false} SomeTurn(k: nat, j: nat, g: nat)
    requires j < g && j < k
    ensures S.Emitted(k, j, g) > 0
  {
    S.EmittedQuotient(k, j, g);
    if k / g == 0 {
      S.Division(k, g, 0, k);
    }
  }

  /** The same from the configuration: a fresh simulator with no known type listed
      twice, run for less than 2^64 messages, all of them sent and drained. */
  lemma FleetAccounted(numWorkers: int, queueSize: int, s: State,
                       types: seq<string>, n: nat, delivered: seq<Msg>, j: nat)
    requires var ids := S.Roster(types, n);
      && S.NoTypeTwice(types) && S.NumberedFrom(delivered, ids, S.Zeros(|ids|))
      && |delivered| < MODULUS && j < |ids| && j < |delivered|
    requires Reachable(numWorkers, queueSize, s) && Direct.Drained(s) && MsgsIn(s.sent) == delivered
    ensures Accounted(s, S.Roster(types, n), j)
  {
    var ids := S.Roster(types, n);
    if n == 0 { S.NoSensors(types); }
    S.FreshIsNumberedByTurn(delivered, ids);
    S.NamesDistinctExactly(types, n);
    forall i | 0 <= i < |ids| && i < |delivered| && i != j ensures ids[i] != ids[j] {
      assert if i < j then ids[i] != ids[j] else ids[j] != ids[i];
    }
    SensorAccounted(numWorkers, queueSize, s, ids, j);
  }

  /** Builds a simulator and runs it until `ticks` messages are delivered. In whatever
      pool they are then sent and drained, every sensor that has had a turn is
      accounted for; and there is a way for any pool to send and drain them. */
  method RunFleet(sensorTypes: seq<string>, numberOfSensors: int, ticks: nat, payload: nat -> Verdict,
                  ghost numWorkers: int, ghost queueSize: int)
    returns (delivered: seq<Msg>, ghost ids: seq<string>)
    requires S.NoTypeTwice(sensorTypes) && ticks < MODULUS
    ensures ids == S.Roster(
      if sensorTypes == [] then ["gps", "drone", "vehicle", "temperature"] else sensorTypes,
      if numberOfSensors < 0 then 0 else numberOfSensors)
    ensures |delivered| == if ids == [] then 0 else ticks
    ensures forall s, j: nat | j < |ids| && j < |delivered| ::
      Reachable(numWorkers, queueSize, s) && Direct.Drained(s) && MsgsIn(s.sent) == delivered ==>
        Accounted(s, ids, j)
    ensures exists s :: Reachable(numWorkers, queueSize, s) && Direct.Drained(s) && MsgsIn(s.sent) == delivered
  {
    ghost var types := if sensorTypes == [] then S.KNOWN_TYPES else sensorTypes;
    ghost var n := if numberOfSensors < 0 then 0 else numberOfSensors;
    var simulator := new S.Simulator(sensorTypes, numberOfSensors);
    ids := S.Roster(types, n);
    assert simulator.Sequences() == S.Zeros(|ids|);
    var totalSent, started;
    delivered, totalSent, started := simulator.Run(ticks, false, payload);
    forall s, j: nat |
      Reachable(numWorkers, queueSize, s) && Direct.Drained(s) && MsgsIn(s.sent) == delivered
      && j < |ids| && j < |delivered|
      ensures Accounted(s, ids, j)
    {
      FleetAccounted(numWorkers, queueSize, s, types, n, delivered, j);
    }
    ghost var s := Direct.StreamDrains(numWorkers, queueSize, delivered);
  }
}
