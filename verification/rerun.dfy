/** Recording a run and replaying the file through a fresh pool, to get the same
    sensor state back. */
module Rerun {
  import opened Protocol
  import opened Pool
  import opened Accounting
  import opened Replay
  import Direct

  /** For this sensor the store shows what handling the messages directly, one after
      another, would have left: mark, message count, errors and anomalies; and with
      one worker all of the sequence bookkeeping. */
  ghost predicate Reproduces(s: State, ms: seq<Msg>, clock: nat -> int, id: string) {
    var d := Direct.DirectStore(ms, clock);
    && (id in s.store <==> id in d)
    && (id in s.store ==>
          var (mine, theirs) := (s.store[id], d[id]);
          && mine.track.last == theirs.track.last
          && mine.track.messages == theirs.track.messages
          && mine.errors == theirs.errors && mine.anomalies == theirs.anomalies
          && (|s.workers| == 1 ==> mine.track == theirs.track))
  }

  /** The pool has been sent exactly these messages in this order, and has handled
      them all. */
  ghost predicate Handled(numWorkers: int, queueSize: int, s: State, ms: seq<Msg>) {
    Reachable(numWorkers, queueSize, s) && Direct.Drained(s) && MsgsIn(s.sent) == ms
  }

  lemma HandledReproduces(numWorkers: int, queueSize: int, s: State, ms: seq<Msg>, clock: nat -> int, id: string)
    requires Handled(numWorkers, queueSize, s, ms)
    ensures Reproduces(s, ms, clock, id)
  {
    Direct.DrainedMatchesDirect(numWorkers, queueSize, s, clock, id);
    if |s.workers| == 1 {
      Direct.OneWorkerMatchesDirect(numWorkers, queueSize, s, clock, id);
    }
  }

  /** Replays any file into a pool: what the player handed over before the first
      trouble, if any, is what the drained pool reproduces, for every sensor, number of
      workers and schedule. */
  method RerunFile(c: Codec, w: World, content: Option<string>,
                   ghost numWorkers: int, ghost queueSize: int, ghost clock: nat -> int)
    returns (count: nat, err: Option<ReplayError>, handled: seq<Msg>)
    ensures count == |handled|
    ensures content.Some? && err.None? ==> Decodes(c, NonBlank(ScanLines(content.value).lines), handled)
    ensures forall s, id :: Handled(numWorkers, queueSize, s, handled) ==> Reproduces(s, handled, clock, id)
  {
    ghost var upTo;
    count, err, handled, upTo := Replay.Replay(c, w, content);
    if content.Some? && err.None? {
      var lines := ScanLines(content.value).lines;
      assert lines[..upTo] == lines;
    }
    forall s, id | Handled(numWorkers, queueSize, s, handled) ensures Reproduces(s, handled, clock, id) {
      HandledReproduces(numWorkers, queueSize, s, handled, clock, id);
    }
  }

  /** Records messages into a fresh file and replays it into a pool: once drained the
      pool's store shows what direct handling of the recorded messages would have, and
      draining is always possible. */
  method RecordThenRerun(c: Codec, ms: seq<Msg>, ghost numWorkers: int, ghost queueSize: int, ghost clock: nat -> int)
    returns (handled: seq<Msg>, err: Option<ReplayError>)
    requires Faithful(c) && forall k :: 0 <= k < |ms| ==> c.encode(ms[k]).Some?
    ensures handled == ms && err == None
    ensures forall s, id :: Handled(numWorkers, queueSize, s, handled) ==> Reproduces(s, ms, clock, id)
    ensures exists s :: Handled(numWorkers, queueSize, s, handled)
  {
    handled, err := RecordThenReplay(c, ms);
    forall s, id | Handled(numWorkers, queueSize, s, handled) ensures Reproduces(s, ms, clock, id) {
      HandledReproduces(numWorkers, queueSize, s, handled, clock, id);
    }
    ghost var s := Direct.StreamDrains(numWorkers, queueSize, ms);
    assert Handled(numWorkers, queueSize, s, handled);
  }
}
