/** What every reachable state of the pool satisfies about the messages in it:
    the queue is first-in first-out, each message is in exactly one place, and the
    store has seen exactly the applied ones. */
module PoolInvariants {
  import opened Protocol
  import opened Store
  import opened Pool
  import Tracker
  import TrackerLaws
  import StoreLaws

  // ----- The queue -----

  /** The queue is exactly the unread end of the sequence of sends. */
  ghost predicate Fifo(s: State) {
    && s.workers != []
    && 0 < s.capacity && |s.queue| <= s.capacity
    && |s.takers| <= |s.sent|
    && s.queue == s.sent[|s.takers|..]
  }

  lemma FifoStep(s: State, a: Action)
    requires Fifo(s) && Enabled(s, a)
    ensures Fifo(Next(s, a))
    ensures |Next(s, a).workers| == |s.workers| && Next(s, a).capacity == s.capacity
  {
    if a.Send? {
      assert (s.sent + [a.job])[|s.takers|..] == s.sent[|s.takers|..] + [a.job];
    } else if a.Dequeue? {
      assert s.sent[|s.takers|..][1..] == s.sent[|s.takers| + 1..];
    }
  }

  // ----- Where each message is -----

  /** Position `i` holds a message, and it has been taken off the queue. */
  ghost predicate Taken(s: State, i: nat) {
    i < |s.takers| && i < |s.sent| && s.sent[i].Job?
  }

  /** The worker that took message `i` still has it in hand. */
  ghost predicate Busy(s: State, i: nat)
    requires i < |s.takers|
  {
    && s.takers[i] < |s.workers|
    && var ph := s.workers[s.takers[i]].phase; InHand(ph) && ph.i == i
  }

  /** The worker that took message `i` has not yet applied it to the store. */
  ghost predicate Held(s: State, i: nat)
    requires i < |s.takers|
  {
    Busy(s, i) && s.workers[s.takers[i]].phase.Holding?
  }

  /** What a worker has in hand is a message it took itself. */
  ghost predicate HandOK(s: State, w: nat)
    requires w < |s.workers|
  {
    var ph := s.workers[w].phase;
    InHand(ph) ==> Taken(s, ph.i) && s.takers[ph.i] == w && s.sent[ph.i] == Job(ph.m)
  }

  ghost predicate HandsFull(s: State) {
    forall w: nat :: w < |s.workers| ==> HandOK(s, w)
  }

  /** Of the messages taken off the queue, each is either held or applied, and
      each applied one either finished or still in hand; none is ever applied or
      finished twice. */
  ghost predicate OnePlace(s: State) {
    && (forall i: nat :: i in s.applied <==> Taken(s, i) && !Held(s, i))
    && (forall i: nat :: i in s.finished <==> Taken(s, i) && !Busy(s, i))
    && Distinct(s.applied) && Distinct(s.finished)
  }

  ghost predicate Places(s: State) {
    Fifo(s) && HandsFull(s) && OnePlace(s)
  }

  lemma HandsFullStep(s: State, a: Action)
    requires Fifo(s) && HandsFull(s) && Enabled(s, a)
    ensures HandsFull(Next(s, a))
  {
    var s' := Next(s, a);
    forall w: nat | w < |s.workers| ensures HandOK(s', w) {
      assert HandOK(s, w);
    }
  }

  lemma DistinctSnoc(xs: seq<nat>, x: nat)
    requires Distinct(xs) && x !in xs
    ensures Distinct(xs + [x])
  {
  }

  /** A step leaves the place of every message alone but the one it handles. */
  lemma OthersStay(s: State, a: Action, i: nat)
    requires Places(s) && Enabled(s, a) && i < |s.takers|
    requires IsWorkerAction(a) && InHand(s.workers[a.w].phase) ==> i != s.workers[a.w].phase.i
    ensures i < |Next(s, a).takers|
    ensures Taken(Next(s, a), i) == Taken(s, i)
    ensures Busy(Next(s, a), i) == Busy(s, i) && Held(Next(s, a), i) == Held(s, i)
  {
  }

  lemma OnePlaceStep(s: State, a: Action)
    requires Places(s) && Enabled(s, a)
    ensures OnePlace(Next(s, a))
  {
    var s' := Next(s, a);
    FifoStep(s, a);
    if IsWorkerAction(a) && InHand(s.workers[a.w].phase) {
      var k := s.workers[a.w].phase.i;
      assert HandOK(s, a.w);
      assert Busy(s, k);
      if a.UpdateStore? { DistinctSnoc(s.applied, k); }
      else if s'.finished != s.finished { DistinctSnoc(s.finished, k); }
      forall i: nat
        ensures i in s'.applied <==> Taken(s', i) && !Held(s', i)
        ensures i in s'.finished <==> Taken(s', i) && !Busy(s', i)
      {
        if i != k && i < |s.takers| { OthersStay(s, a, i); }
      }
    } else {
      forall i: nat
        ensures i in s'.applied <==> Taken(s', i) && !Held(s', i)
        ensures i in s'.finished <==> Taken(s', i) && !Busy(s', i)
      {
        if i < |s.takers| { OthersStay(s, a, i); }
      }
    }
  }

  lemma PlacesStep(s: State, a: Action)
    requires Places(s) && Enabled(s, a)
    ensures Places(Next(s, a))
  {
    FifoStep(s, a);
    HandsFullStep(s, a);
    OnePlaceStep(s, a);
  }

  // ----- What the store has seen -----

  ghost predicate AllMessages(sent: seq<Job>, ks: seq<nat>) {
    forall j :: 0 <= j < |ks| ==> ks[j] < |sent| && sent[ks[j]].Job?
  }

  /** The messages at the given positions. */
  function MsgsAt(sent: seq<Job>, ks: seq<nat>): (ms: seq<Msg>)
    requires AllMessages(sent, ks)
    ensures |ms| == |ks|
    ensures forall j :: 0 <= j < |ks| ==> ms[j] == sent[ks[j]].msg
  {
    if ks == [] then []
    else
      MsgsAt(sent, ks[..|ks| - 1]) + [sent[ks[|ks| - 1]].msg]
  }

  lemma MsgsAtSnoc(sent: seq<Job>, ks: seq<nat>, k: nat)
    requires AllMessages(sent, ks) && k < |sent| && sent[k].Job?
    ensures AllMessages(sent, ks + [k])
    ensures MsgsAt(sent, ks + [k]) == MsgsAt(sent, ks) + [sent[k].msg]
  {
    assert (ks + [k])[..|ks|] == ks;
  }

  /** Further sends leave earlier positions alone. */
  lemma MsgsAtGrows(sent: seq<Job>, more: seq<Job>, ks: seq<nat>)
    requires AllMessages(sent, ks) && sent <= more
    ensures AllMessages(more, ks) && MsgsAt(more, ks) == MsgsAt(sent, ks)
  {
    forall j | 0 <= j < |ks| ensures MsgsAt(more, ks)[j] == MsgsAt(sent, ks)[j] {
      assert more[ks[j]] == sent[ks[j]];
    }
  }

  lemma AppliedAreMessages(s: State)
    requires OnePlace(s)
    ensures AllMessages(s.sent, s.applied)
    ensures AllMessages(s.sent, s.finished)
  {
    forall j | 0 <= j < |s.applied| ensures s.applied[j] < |s.sent| && s.sent[s.applied[j]].Job? {
      assert s.applied[j] in s.applied;
    }
    forall j | 0 <= j < |s.finished| ensures s.finished[j] < |s.sent| && s.sent[s.finished[j]].Job? {
      assert s.finished[j] in s.finished;
    }
  }

  /** The messages applied to the store so far, in the order of application. */
  ghost function AppliedMsgs(s: State): seq<Msg>
    requires OnePlace(s)
  {
    AppliedAreMessages(s);
    MsgsAt(s.sent, s.applied)
  }

  /** The store knows exactly the sensors with an applied message, and each one's
      tracker has run on exactly its applied messages, in that order. */
  ghost predicate SeesSensor(s: State, id: string)
    requires OnePlace(s)
  {
    var ss := SeqsOf(AppliedMsgs(s), id);
    && (id in s.store <==> ss != [])
    && (id in s.store ==> s.store[id].track == Tracker.Run(ss))
  }

  ghost predicate Sees(s: State)
    requires OnePlace(s)
  {
    forall id :: SeesSensor(s, id)
  }

  lemma SeqsOfSnoc(ms: seq<Msg>, m: Msg, id: string)
    ensures SeqsOf(ms + [m], id) == SeqsOf(ms, id) + (if m.sensorID == id then [m.sequence] else [])
  {
    assert (ms + [m])[..|ms|] == ms;
  }

  lemma {:induction false} SeqsOfHas(ms: seq<Msg>, k: nat)
    requires k < |ms|
    ensures ms[k].sequence in SeqsOf(ms, ms[k].sensorID)
  {
    if k < |ms| - 1 {
      SeqsOfHas(ms[..|ms| - 1], k);
    }
  }

  lemma AppliedStep(s: State, a: Action)
    requires Places(s) && Enabled(s, a)
    ensures s.sent <= Next(s, a).sent
    ensures a.UpdateStore? ==>
      var ph := s.workers[a.w].phase;
      && ph.i < |s.sent| && s.sent[ph.i] == Job(ph.m)
      && Next(s, a).applied == s.applied + [ph.i] && Next(s, a).sent == s.sent
    ensures !a.UpdateStore? ==> Next(s, a).applied == s.applied
  {
    if a.UpdateStore? { assert HandOK(s, a.w); }
  }

  lemma AppliedMsgsStep(s: State, a: Action)
    requires Places(s) && Enabled(s, a)
    ensures OnePlace(Next(s, a))
    ensures AppliedMsgs(Next(s, a)) ==
      if a.UpdateStore? then AppliedMsgs(s) + [s.workers[a.w].phase.m] else AppliedMsgs(s)
  {
    PlacesStep(s, a);
    AppliedAreMessages(s);
    AppliedStep(s, a);
    if a.UpdateStore? {
      MsgsAtSnoc(s.sent, s.applied, s.workers[a.w].phase.i);
    } else {
      MsgsAtGrows(s.sent, Next(s, a).sent, s.applied);
    }
  }

  lemma SeesUpdate(s: State, w: nat, now: int, id: string)
    requires Places(s) && Enabled(s, UpdateStore(w, now)) && SeesSensor(s, id)
    requires OnePlace(Next(s, UpdateStore(w, now)))
    ensures SeesSensor(Next(s, UpdateStore(w, now)), id)
  {
    AppliedMsgsStep(s, UpdateStore(w, now));
    var m := s.workers[w].phase.m;
    var ss := SeqsOf(AppliedMsgs(s), id);
    SeqsOfSnoc(AppliedMsgs(s), m, id);
    StoreLaws.ApplyTrack(s.store, Op.Update(m, now), id);
    if m.sensorID == id {
      if ss != [] { TrackerLaws.RunSnoc(ss, m.sequence); }
    } else {
      assert ss + [] == ss;
    }
  }

  lemma SeesStep(s: State, a: Action, id: string)
    requires Places(s) && Enabled(s, a) && SeesSensor(s, id)
    ensures OnePlace(Next(s, a)) && SeesSensor(Next(s, a), id)
  {
    AppliedMsgsStep(s, a);
    match a
    case UpdateStore(w, now) =>
      SeesUpdate(s, w, now, id);
    case Record(w) =>
      assert AppliedMsgs(Next(s, a)) == AppliedMsgs(s);
      StoreLaws.ApplyTrack(s.store, RecordOp(s.workers[w].phase), id);
    case Scan(now, timeout) =>
      assert AppliedMsgs(Next(s, a)) == AppliedMsgs(s);
      StoreLaws.ApplyTrack(s.store, Op.CheckStale(now, timeout), id);
    case _ =>
      assert AppliedMsgs(Next(s, a)) == AppliedMsgs(s);
  }

  /** A worker past the store update works for a sensor the store knows, so
      neither `RecordAnomaly` nor `RecordError` is ever a no-op here. */
  lemma SensorKnown(s: State, w: nat)
    requires Places(s) && Sees(s)
    requires w < |s.workers| && Applying(s.workers[w].phase)
    ensures s.workers[w].phase.m.sensorID in s.store
  {
    var ph := s.workers[w].phase;
    assert HandOK(s, w);
    assert ph.i in s.applied;
    var k :| 0 <= k < |s.applied| && s.applied[k] == ph.i;
    SeqsOfHas(AppliedMsgs(s), k);
    assert SeesSensor(s, ph.m.sensorID);
  }

  // ----- Every reachable state -----

  ghost predicate Sound(s: State) {
    Places(s) && Sees(s)
  }

  lemma SoundInit(numWorkers: int, queueSize: int)
    ensures Sound(Init(numWorkers, queueSize))
  {
    var s := Init(numWorkers, queueSize);
    forall id ensures SeesSensor(s, id) {
    }
  }

  lemma SoundStep(s: State, a: Action)
    requires Sound(s) && Enabled(s, a)
    ensures Sound(Next(s, a))
  {
    PlacesStep(s, a);
    forall id ensures SeesSensor(Next(s, a), id) {
      assert SeesSensor(s, id);
      SeesStep(s, a, id);
    }
  }

  lemma {:induction false} ExecSound(numWorkers: int, queueSize: int, acts: seq<Action>)
    requires Exec(Init(numWorkers, queueSize), acts).Some?
    ensures var s := Exec(Init(numWorkers, queueSize), acts).value;
      && Sound(s) && |s.workers| == |Init(numWorkers, queueSize).workers|
      && s.capacity == Init(numWorkers, queueSize).capacity
  {
    if acts == [] {
      SoundInit(numWorkers, queueSize);
    } else {
      var before := acts[..|acts| - 1];
      ExecSound(numWorkers, queueSize, before);
      var p := Exec(Init(numWorkers, queueSize), before).value;
      SoundStep(p, acts[|acts| - 1]);
      FifoStep(p, acts[|acts| - 1]);
    }
  }

  /** In every reachable state the queue is first-in first-out, every message is in
      exactly one place, and the store reflects exactly the applied messages. */
  lemma ReachableSound(numWorkers: int, queueSize: int, s: State)
    requires Reachable(numWorkers, queueSize, s)
    ensures Sound(s)
    ensures |s.workers| == if numWorkers <= 0 then 4 else numWorkers
    ensures s.capacity == if queueSize <= 0 then 1000 else queueSize
  {
    var acts :| Exec(Init(numWorkers, queueSize), acts) == Some(s);
    ExecSound(numWorkers, queueSize, acts);
  }

  lemma {:induction false} ReachableOn(numWorkers: int, queueSize: int, p: State, acts: seq<Action>)
    requires Reachable(numWorkers, queueSize, p) && Exec(p, acts).Some?
    ensures Reachable(numWorkers, queueSize, Exec(p, acts).value)
  {
    var before :| Exec(Init(numWorkers, queueSize), before) == Some(p);
    ExecAppend(Init(numWorkers, queueSize), before, acts);
    assert Exec(Init(numWorkers, queueSize), before + acts) == Exec(p, acts);
  }
}
