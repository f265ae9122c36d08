/** The store as the program keeps it: one mutable entry object per sensor,
    updated in place under a lock. Every method is one critical section, and is
    proved to do what the corresponding `Store.Op` does to the store's value. */
module StateStores {
  import opened Protocol
  import opened Tracker
  import opened Store
  import opened StoreLaws
  import TrackerLaws

  /** `xs` lists the members of `ids`, each exactly once. */
  predicate Lists(xs: seq<string>, ids: set<string>) {
    if xs == [] then ids == {}
    else
      var x := xs[|xs| - 1];
      x in ids && Lists(xs[..|xs| - 1], ids - {x})
  }

  lemma ListsOneMore(xs: seq<string>, ids: set<string>, x: string)
    requires Lists(xs, ids) && x !in ids
    ensures Lists(xs + [x], ids + {x})
  {
    assert (xs + [x])[..|xs|] == xs;
    assert (ids + {x}) - {x} == ids;
  }

  lemma {:induction false} ListsExactlyOnce(xs: seq<string>, ids: set<string>)
    requires Lists(xs, ids)
    ensures forall x :: x in xs <==> x in ids
    ensures Distinct(xs)
    ensures |xs| == |ids|
  {
    if xs != [] {
      var before, x := xs[..|xs| - 1], xs[|xs| - 1];
      ListsExactlyOnce(before, ids - {x});
      assert xs == before + [x];
    }
  }

  /** The exported snapshot of one sensor. */
  datatype SensorState = SensorState(
    sensorID: string,
    sensorType: string,
    status: Status,
    lastSequence: Uint64,
    firstSeen: int,
    lastSeen: int,
    messageCount: nat,
    droppedCount: Uint64,
    duplicateCount: nat,
    outOfOrderCount: nat,
    errorCount: nat,
    anomalyCount: nat)

  function View(st: SensorState, recentSeqs: set<Uint64>): Sensor {
    Sensor(st.sensorID, st.sensorType, st.status, st.firstSeen, st.lastSeen, st.errorCount, st.anomalyCount,
           Track(st.lastSequence, st.messageCount, st.droppedCount, st.duplicateCount, st.outOfOrderCount, recentSeqs))
  }

  /** What a sensor's state shows, in terms of the operations that led to it. */
  ghost predicate Shows(st: SensorState, ops: seq<Op>, id: string)
    requires Received(ops, id) != []
  {
    var ss := Received(ops, id);
    && st.sensorID == id
    && st.lastSequence == TrackerLaws.Max(ss)
    && st.messageCount == |ss|
    && st.droppedCount == Run(ss).dropped
    && st.duplicateCount == Run(ss).duplicates
    && st.outOfOrderCount == Run(ss).outOfOrder
    && st.errorCount == RecordedErrors(ops, id)
    && st.anomalyCount == RecordedAnomalies(ops, id)
    && (st.status == Stale <==> exists i: nat :: ReportedSince(ops, i, id))
    && (exists first: nat :: FirstUpdate(ops, first, id)
          && st.firstSeen == ops[first].now && st.sensorType == ops[first].msg.sensorType)
    && (exists last: nat :: LastUpdate(ops, last, id) && st.lastSeen == ops[last].now)
  }

  /** The snapshot of a store's sensor shows the history that led to the store. */
  lemma {:induction false} ViewShows(st: SensorState, recentSeqs: set<Uint64>, ops: seq<Op>, id: string)
    requires id in After(ops) && View(st, recentSeqs) == After(ops)[id]
    ensures Received(ops, id) != [] && Shows(st, ops, id)
  {
    TracksReceived(ops, id);
    CountsRecorded(ops, id);
    TrackerLaws.Conservation(Received(ops, id));
    StaleExactlySinceReport(ops, id);
    var first, last := SeenWhen(ops, id);
  }

  lemma ScanShows(before: Store, after: Store, now: int, timeout: int)
    requires after.Keys == before.Keys
    requires forall id :: id in NewlyStale(before, now, timeout) ==> after[id] == before[id].(status := Stale)
    requires forall id :: id in before && id !in NewlyStale(before, now, timeout) ==> after[id] == before[id]
    ensures after == Apply(before, Op.CheckStale(now, timeout))
  {
  }

  class SensorEntry {
    var state: SensorState
    var recentSeqs: set<Uint64>

    /** The entry of a sensor whose first message this is. */
    constructor (msg: Msg, now: int)
      ensures Model() == UpdateSensor(map[], msg, now).0
    {
      state := SensorState(msg.sensorID, msg.sensorType, Healthy, msg.sequence, now, now, 1, 0, 0, 0, 0, 0);
      recentSeqs := {msg.sequence};
    }

    function Model(): Sensor
      reads this
    {
      View(state, recentSeqs)
    }

    /** Forgets the numbers that have fallen out of the window. */
    method PruneRecentSeqs()
      modifies this`recentSeqs
      ensures recentSeqs == Prune(state.lastSequence, old(recentSeqs))
    {
      if state.lastSequence < WINDOW {
        return;
      }
      var floor := Sub64(state.lastSequence, WINDOW);
      var todo := recentSeqs;
      while todo != {}
        invariant todo <= old(recentSeqs)
        invariant recentSeqs <= old(recentSeqs)
        invariant forall x :: x in old(recentSeqs) ==> (x in recentSeqs <==> x in todo || !(x < floor))
        decreases todo
      {
        var s :| s in todo;
        if s < floor {
          recentSeqs := recentSeqs - {s};
        }
        todo := todo - {s};
      }
    }

    /** The bookkeeping of one further message. */
    method Receive(sequence: Uint64, now: int) returns (result: UpdateResult)
      modifies this
      ensures result == Step(old(Model()).track, sequence).1
      ensures Model() == old(Model()).(
        lastSeen := now, status := Healthy, track := Step(old(Model()).track, sequence).0)
    {
      state := state.(lastSeen := now, status := Healthy, messageCount := state.messageCount + 1);
      result := UpdateResult(false, false, false, 0);
      if sequence == state.lastSequence {
        result := result.(isDuplicate := true);
        state := state.(duplicateCount := state.duplicateCount + 1);
      } else if sequence > state.lastSequence {
        var gap := Sub64(Sub64(sequence, state.lastSequence), 1);
        if gap > 0 {
          state := state.(droppedCount := Add64(state.droppedCount, gap));
          result := result.(droppedCount := gap);
        }
        state := state.(lastSequence := sequence);
        recentSeqs := recentSeqs + {sequence};
        PruneRecentSeqs();
      } else {
        if sequence in recentSeqs {
          result := result.(isDuplicate := true);
          state := state.(duplicateCount := state.duplicateCount + 1);
        } else {
          result := result.(isOutOfOrder := true);
          state := state.(outOfOrderCount := state.outOfOrderCount + 1);
          recentSeqs := recentSeqs + {sequence};
        }
      }
    }
  }

  class StateStore {
    var sensors: map<string, SensorEntry>

    /** Each sensor has an entry object of its own, bearing its name. */
    ghost predicate Valid()
      reads this, sensors.Values
    {
      && (forall id :: id in sensors ==> sensors[id].state.sensorID == id)
      && (forall i, j :: i in sensors && j in sensors && i != j ==> sensors[i] != sensors[j])
    }

    function Model(): Store
      reads this, sensors.Values
    {
      map id | id in sensors :: sensors[id].Model()
    }

    constructor ()
      ensures Valid() && Model() == map[]
    {
      sensors := map[];
    }

    method Update(msg: Msg, now: int) returns (result: UpdateResult)
      requires Valid()
      modifies this, sensors.Values
      ensures Valid() && fresh(sensors.Values - old(sensors.Values))
      ensures Model() == Apply(old(Model()), Op.Update(msg, now))
      ensures result == UpdateSensor(old(Model()), msg, now).1
    {
      if msg.sensorID !in sensors {
        AddSensor(msg, now);
        return NEW_SENSOR;
      }
      var entry := sensors[msg.sensorID];
      assert forall id :: id in sensors && id != msg.sensorID ==> sensors[id] != entry;
      result := entry.Receive(msg.sequence, now);
      assert Model() == old(Model())[msg.sensorID := entry.Model()];
    }

    method AddSensor(msg: Msg, now: int)
      requires Valid() && msg.sensorID !in sensors
      modifies this
      ensures Valid() && fresh(sensors.Values - old(sensors.Values))
      ensures Model() == old(Model())[msg.sensorID := UpdateSensor(map[], msg, now).0]
    {
      var entry := new SensorEntry(msg, now);
      sensors := sensors[msg.sensorID := entry];
    }

    /** Counts a processing failure; a no-op for an unknown sensor. */
    method RecordError(sensorID: string)
      requires Valid()
      modifies sensors.Values
      ensures Valid()
      ensures Model() == Apply(old(Model()), Op.RecordError(sensorID))
    {
      if sensorID in sensors {
        var entry := sensors[sensorID];
        entry.state := entry.state.(errorCount := entry.state.errorCount + 1);
      }
    }

    /** Counts an out-of-range value; a no-op for an unknown sensor. */
    method RecordAnomaly(sensorID: string)
      requires Valid()
      modifies sensors.Values
      ensures Valid()
      ensures Model() == Apply(old(Model()), Op.RecordAnomaly(sensorID))
    {
      if sensorID in sensors {
        var entry := sensors[sensorID];
        entry.state := entry.state.(anomalyCount := entry.state.anomalyCount + 1);
      }
    }

    /** Marks the sensors silent for longer than the timeout, and lists each one
        that was healthy until now exactly once. */
    method CheckStale(now: int, timeout: int) returns (newlyStale: seq<string>)
      requires Valid()
      modifies sensors.Values
      ensures Valid()
      ensures Model() == Apply(old(Model()), Op.CheckStale(now, timeout))
      ensures Lists(newlyStale, NewlyStale(old(Model()), now, timeout))
    {
      ghost var before := Model();
      newlyStale := Scan(now, timeout, NewlyStale(before, now, timeout));
      ScanShows(before, Model(), now, timeout);
    }

    /** The loop of `CheckStale`, given the sensors that are due. */
    method Scan(now: int, timeout: int, ghost due: set<string>) returns (newlyStale: seq<string>)
      requires Valid() && due <= sensors.Keys
      requires forall id :: id in sensors ==> (id in due <==>
        sensors[id].state.status != Stale && now - sensors[id].state.lastSeen > timeout)
      modifies sensors.Values`state
      ensures Lists(newlyStale, due)
      ensures forall id :: id in due ==> sensors[id].state == old(sensors[id].state).(status := Stale)
      ensures forall id :: id in sensors && id !in due ==> sensors[id].state == old(sensors[id].state)
    {
      newlyStale := [];
      var todo := sensors.Keys;
      while todo != {}
        invariant todo <= sensors.Keys
        invariant forall id :: id in due && id !in todo ==>
          sensors[id].state == old(sensors[id].state).(status := Stale)
        invariant forall id :: id in todo || (id in sensors && id !in due) ==>
          sensors[id].state == old(sensors[id].state)
        invariant Lists(newlyStale, due - todo)
        decreases todo
      {
        var id :| id in todo;
        var entry := sensors[id];
        var rest := todo - {id};
        if entry.state.status != Stale && now - entry.state.lastSeen > timeout {
          ListsOneMore(newlyStale, due - todo, id);
          assert due - rest == (due - todo) + {id};
          entry.state := entry.state.(status := Stale);
          newlyStale := newlyStale + [entry.state.sensorID];
        } else {
          assert due - rest == due - todo;
        }
        todo := rest;
      }
      assert due - todo == due;
    }

    /** A copy of the sensor's state; given the operations that led to the store, it
        shows them. */
    method Get(sensorID: string, ghost ops: seq<Op>) returns (state: Option<SensorState>)
      requires Valid()
      ensures Model() == After(ops) ==>
        (state.Some? <==> Received(ops, sensorID) != []) && (state.Some? ==> Shows(state.value, ops, sensorID))
      ensures state.Some? <==> sensorID in Model()
      ensures state.Some? ==> exists recent :: View(state.value, recent) == Model()[sensorID]
    {
      if sensorID in sensors {
        assert Model()[sensorID] == View(sensors[sensorID].state, sensors[sensorID].recentSeqs);
        if Model() == After(ops) {
          ViewShows(sensors[sensorID].state, sensors[sensorID].recentSeqs, ops, sensorID);
        }
        return Some(sensors[sensorID].state);
      }
      if Model() == After(ops) { TracksReceived(ops, sensorID); }
      return None;
    }

    /** A copy of every sensor's state, each exactly once, in no particular order. */
    method List() returns (out: seq<SensorState>)
      requires Valid()
      ensures exists names :: Listed(out, names)
    {
      out := [];
      ghost var names := [];
      var todo := sensors.Keys;
      while todo != {}
        invariant todo <= sensors.Keys
        invariant Lists(names, sensors.Keys - todo) && |out| == |names|
        invariant forall k :: 0 <= k < |out| ==> names[k] in sensors && out[k] == sensors[names[k]].state
        decreases todo
      {
        var id :| id in todo;
        ListsOneMore(names, sensors.Keys - todo, id);
        assert sensors.Keys - (todo - {id}) == (sensors.Keys - todo) + {id};
        out, names := out + [sensors[id].state], names + [id];
        todo := todo - {id};
      }
      assert sensors.Keys - todo == Model().Keys;
      forall k | 0 <= k < |out|
        ensures exists recent :: View(out[k], recent) == Model()[names[k]]
      {
        assert View(out[k], sensors[names[k]].recentSeqs) == Model()[names[k]];
      }
      assert Listed(out, names);
    }

    /** `names` lists the known sensors, each once, and `out` their states. */
    ghost predicate Listed(out: seq<SensorState>, names: seq<string>)
      reads this, sensors.Values
      requires Valid()
    {
      && Lists(names, Model().Keys) && |out| == |names|
      && forall k :: 0 <= k < |out| ==>
        && names[k] in Model()
        && exists recent :: View(out[k], recent) == Model()[names[k]]
    }

    method Count() returns (n: nat)
      requires Valid()
      ensures n == |Model()|
    {
      assert Model().Keys == sensors.Keys;
      n := |sensors|;
    }
  }
}
