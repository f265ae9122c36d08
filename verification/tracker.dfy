/** The per-sensor sequence tracker: what `StateStore.Update` does to the
    sequence bookkeeping of one sensor, as a function of that bookkeeping. */
module Tracker {
  import opened Protocol

  /** How far behind the high-water mark a number is still remembered. */
  const WINDOW: Uint64 := 64

  datatype Track = Track(
    last: Uint64,
    messages: nat,
    dropped: Uint64,
    duplicates: nat,
    outOfOrder: nat,
    recent: set<Uint64>)

  datatype UpdateResult = UpdateResult(
    isNewSensor: bool,
    isDuplicate: bool,
    isOutOfOrder: bool,
    droppedCount: Uint64)

  const NEW_SENSOR := UpdateResult(true, false, false, 0)
  const DUPLICATE := UpdateResult(false, true, false, 0)
  const OUT_OF_ORDER := UpdateResult(false, false, true, 0)

  function Prune(last: Uint64, seqs: set<Uint64>): set<Uint64> {
    if last < WINDOW then seqs
    else set x | x in seqs && !(x < Sub64(last, WINDOW))
  }

  /** The entry created by a sensor's first message. */
  function First(s: Uint64): Track {
    Track(s, 1, 0, 0, 0, {s})
  }

  /** One further message with sequence number `s`. */
  function Step(t: Track, s: Uint64): (Track, UpdateResult) {
    var t := t.(messages := t.messages + 1);
    if s == t.last then
      (t.(duplicates := t.duplicates + 1), DUPLICATE)
    else if s > t.last then
      var gap := Sub64(Sub64(s, t.last), 1);
      (t.(dropped := if gap > 0 then Add64(t.dropped, gap) else t.dropped,
          last := s,
          recent := Prune(s, t.recent + {s})),
       UpdateResult(false, false, false, gap))
    else if s in t.recent then
      (t.(duplicates := t.duplicates + 1), DUPLICATE)
    else
      (t.(outOfOrder := t.outOfOrder + 1, recent := t.recent + {s}), OUT_OF_ORDER)
  }

  /** The entry after a whole nonempty history of sequence numbers. */
  function Run(ss: seq<Uint64>): Track
    requires ss != []
  {
    if |ss| == 1 then First(ss[0]) else Step(Run(ss[..|ss| - 1]), ss[|ss| - 1]).0
  }

  /** What `Update` reported for each message of a history. */
  function Results(ss: seq<Uint64>): (rs: seq<UpdateResult>)
    ensures |rs| == |ss|
  {
    if ss == [] then []
    else if |ss| == 1 then [NEW_SENSOR]
    else
      var before := ss[..|ss| - 1];
      Results(before) + [Step(Run(before), ss[|ss| - 1]).1]
  }
}
