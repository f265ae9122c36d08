/** What concurrency can and cannot do to sequence accounting on a lossless stream:
    one sensor's messages sent once each, in order, with anything else in between. */
module Lossless {
  import opened Protocol
  import opened Store
  import opened Pool
  import opened PoolInvariants
  import opened Accounting
  import opened Overtaking
  import opened TrackerLaws
  import Tracker
  import FullHistory

  // ----- Streams -----

  /** The numbers of one sensor's messages among some jobs, in order. */
  function Numbers(js: seq<Job>, id: string): seq<Uint64> {
    SeqsOf(MsgsIn(js), id)
  }

  ghost predicate Consecutive(ss: seq<Uint64>, s0: Uint64) {
    forall k :: 0 <= k < |ss| ==> ss[k] == s0 + k
  }

  /** The sensor's messages are numbered s0, s0 + 1, ... in the order they appear. */
  ghost predicate Stream(js: seq<Job>, id: string, s0: Uint64) {
    Consecutive(Numbers(js, id), s0)
  }

  ghost predicate IsNumber(js: seq<Job>, i: nat, id: string, x: Uint64) {
    i < |js| && js[i].Job? && js[i].msg.sensorID == id && js[i].msg.sequence == x
  }

  lemma {:induction false} SeqsOfAppend(a: seq<Msg>, b: seq<Msg>, id: string)
    ensures SeqsOf(a + b, id) == SeqsOf(a, id) + SeqsOf(b, id)
  {
    if b == [] {
      assert a + b == a;
    } else {
      var b', m := b[..|b| - 1], b[|b| - 1];
      SeqsOfAppend(a, b', id);
      assert a + b == (a + b') + [m];
      SeqsOfSnoc(a + b', m, id);
    }
  }

  lemma NumbersAppend(a: seq<Job>, b: seq<Job>, id: string)
    ensures Numbers(a + b, id) == Numbers(a, id) + Numbers(b, id)
  {
    MsgsInAppend(a, b);
    SeqsOfAppend(MsgsIn(a), MsgsIn(b), id);
  }

  lemma NumbersSplit(js: seq<Job>, i: nat, id: string, x: Uint64)
    requires IsNumber(js, i, id, x)
    ensures Numbers(js, id) == Numbers(js[..i], id) + [x] + Numbers(js[i + 1..], id)
  {
    assert js == js[..i + 1] + js[i + 1..];
    assert js[..i + 1] == js[..i] + [js[i]];
    NumbersAppend(js[..i + 1], js[i + 1..], id);
    MsgsInSnoc(js[..i], js[i]);
    SeqsOfSnoc(MsgsIn(js[..i]), js[i].msg, id);
  }

  /** In a stream a message's number is the starting number plus its rank. */
  lemma NumberIsRank(js: seq<Job>, i: nat, id: string, s0: Uint64, x: Uint64)
    requires Stream(js, id, s0) && IsNumber(js, i, id, x)
    ensures x == s0 + |Numbers(js[..i], id)|
    ensures |Numbers(js[..i], id)| < |Numbers(js, id)|
    ensures Stream(js[..i], id, s0)
  {
    NumbersSplit(js, i, id, x);
    var before := Numbers(js[..i], id);
    assert Numbers(js, id)[|before|] == x;
    forall k | 0 <= k < |before| ensures before[k] == s0 + k {
      assert Numbers(js, id)[k] == before[k];
    }
  }

  lemma {:induction false} PositionOf(js: seq<Job>, id: string, x: Uint64) returns (i: nat)
    requires x in Numbers(js, id)
    ensures IsNumber(js, i, id, x)
  {
    var n := |js| - 1;
    if js[n].Job? && js[n].msg.sensorID == id && js[n].msg.sequence == x {
      i := n;
    } else {
      MsgsInSnoc(js[..n], js[n]);
      assert js == js[..n] + [js[n]];
      if js[n].Job? {
        SeqsOfSnoc(MsgsIn(js[..n]), js[n].msg, id);
      } else {
        assert MsgsIn(js) == MsgsIn(js[..n]);
      }
      i := PositionOf(js[..n], id, x);
    }
  }

  lemma NumbersRise(js: seq<Job>, id: string, s0: Uint64, i: nat, j: nat, x: Uint64, y: Uint64)
    requires Stream(js, id, s0) && i < j && IsNumber(js, i, id, x) && IsNumber(js, j, id, y)
    ensures x < y
  {
    NumberIsRank(js, j, id, s0, y);
    assert IsNumber(js[..j], i, id, x);
    NumberIsRank(js[..j], i, id, s0, x);
  }

  /** In a stream every smaller number was sent earlier. */
  lemma SmallerIsEarlier(js: seq<Job>, id: string, s0: Uint64, j: nat, y: Uint64, x: Uint64) returns (i: nat)
    requires Stream(js, id, s0) && IsNumber(js, j, id, y) && s0 <= x < y
    ensures i < j && IsNumber(js, i, id, x)
  {
    NumberIsRank(js, j, id, s0, y);
    assert Numbers(js[..j], id)[x - s0] == x;
    i := PositionOf(js[..j], id, x);
  }

  // ----- The numbers applied -----

  /** The numbers of one sensor's messages at some positions, in that order. */
  function NumbersAt(sent: seq<Job>, ks: seq<nat>, id: string): seq<Uint64>
    requires AllMessages(sent, ks)
  {
    SeqsOf(MsgsAt(sent, ks), id)
  }

  lemma AllMessagesPrefix(sent: seq<Job>, ks: seq<nat>, n: nat)
    requires AllMessages(sent, ks) && n <= |ks|
    ensures AllMessages(sent, ks[..n])
  {
  }

  lemma NumbersAtSnoc(sent: seq<Job>, ks: seq<nat>, k: nat, id: string)
    requires AllMessages(sent, ks) && k < |sent| && sent[k].Job?
    ensures AllMessages(sent, ks + [k])
    ensures NumbersAt(sent, ks + [k], id) ==
      NumbersAt(sent, ks, id) + if sent[k].msg.sensorID == id then [sent[k].msg.sequence] else []
  {
    MsgsAtSnoc(sent, ks, k);
    SeqsOfSnoc(MsgsAt(sent, ks), sent[k].msg, id);
  }

  lemma Unsnoc(sent: seq<Job>, ks: seq<nat>, id: string)
    requires AllMessages(sent, ks) && ks != []
    ensures var (p, k) := (ks[..|ks| - 1], ks[|ks| - 1]);
      && AllMessages(sent, p) && k < |sent| && sent[k].Job?
      && NumbersAt(sent, ks, id) ==
           NumbersAt(sent, p, id) + if sent[k].msg.sensorID == id then [sent[k].msg.sequence] else []
  {
    var p, k := ks[..|ks| - 1], ks[|ks| - 1];
    assert ks == p + [k];
    NumbersAtSnoc(sent, p, k, id);
  }

  lemma {:induction false} AppliedPosition(sent: seq<Job>, ks: seq<nat>, id: string, x: Uint64) returns (k: nat)
    requires AllMessages(sent, ks) && x in NumbersAt(sent, ks, id)
    ensures k < |ks| && IsNumber(sent, ks[k], id, x)
  {
    Unsnoc(sent, ks, id);
    k := |ks| - 1;
    if !IsNumber(sent, ks[k], id, x) {
      k := AppliedPosition(sent, ks[..k], id, x);
    }
  }

  lemma {:induction false} AppliedHas(sent: seq<Job>, ks: seq<nat>, id: string, k: nat, x: Uint64)
    requires AllMessages(sent, ks) && k < |ks| && IsNumber(sent, ks[k], id, x)
    ensures x in NumbersAt(sent, ks, id)
  {
    Unsnoc(sent, ks, id);
    if k < |ks| - 1 {
      AppliedHas(sent, ks[..|ks| - 1], id, k, x);
    }
  }

  /** The first number applied, and where: nothing of the sensor came before it. */
  lemma {:induction false} FirstPosition(sent: seq<Job>, ks: seq<nat>, id: string) returns (k: nat)
    requires AllMessages(sent, ks) && NumbersAt(sent, ks, id) != []
    ensures k < |ks| && IsNumber(sent, ks[k], id, NumbersAt(sent, ks, id)[0])
    ensures AllMessages(sent, ks[..k]) && NumbersAt(sent, ks[..k], id) == []
  {
    Unsnoc(sent, ks, id);
    var p := ks[..|ks| - 1];
    if NumbersAt(sent, p, id) == [] {
      k := |p|;
    } else {
      k := FirstPosition(sent, p, id);
      assert ks[..k] == p[..k];
    }
  }

  /** On a stream no number is applied twice. */
  lemma {:induction false} AppliedDistinct(sent: seq<Job>, ks: seq<nat>, id: string, s0: Uint64)
    requires AllMessages(sent, ks) && Distinct(ks) && Stream(sent, id, s0)
    ensures |Elems(NumbersAt(sent, ks, id))| == |NumbersAt(sent, ks, id)|
  {
    if ks == [] {
      assert NumbersAt(sent, ks, id) == [];
      assert Elems(NumbersAt(sent, ks, id)) == {};
    } else {
      var p, k := ks[..|ks| - 1], ks[|ks| - 1];
      Unsnoc(sent, ks, id);
      AppliedDistinct(sent, p, id, s0);
      var before, all := NumbersAt(sent, p, id), NumbersAt(sent, ks, id);
      if sent[k].msg.sensorID == id {
        var x := sent[k].msg.sequence;
        if x in before {
          var j := AppliedPosition(sent, p, id, x);
          if p[j] < k { NumbersRise(sent, id, s0, p[j], k, x, x); }
          else { NumbersRise(sent, id, s0, k, p[j], x, x); }
        }
        assert Elems(all) == Elems(before) + {x};
      } else {
        assert all == before;
      }
    }
  }

  // ----- Bounds -----

  lemma {:induction false} ImageBound(xs: set<Uint64>, ps: set<nat>, js: seq<Job>, id: string)
    requires forall x :: x in xs ==> exists i :: i in ps && IsNumber(js, i, id, x)
    ensures |xs| <= |ps|
    decreases xs
  {
    if x :| x in xs {
      var i :| i in ps && IsNumber(js, i, id, x);
      forall y | y in xs - {x} ensures exists j :: j in ps - {i} && IsNumber(js, j, id, y) {
        var j :| j in ps && IsNumber(js, j, id, y);
        assert j in ps - {i};
      }
      ImageBound(xs - {x}, ps - {i}, js, id);
    }
  }

  /** Any set of numbers smaller than an applied message's, none of them applied
      before it, has at most N - 1 members. */
  lemma AheadBound(s: State, k: nat, id: string, s0: Uint64, y: Uint64, xs: set<Uint64>)
    requires Places(s) && k < |s.applied| && OvertakesFew(s, k)
    requires Stream(s.sent, id, s0) && IsNumber(s.sent, s.applied[k], id, y)
    requires AllMessages(s.sent, s.applied[..k])
    requires forall x :: x in xs ==> s0 <= x < y && x !in NumbersAt(s.sent, s.applied[..k], id)
    ensures |xs| <= |s.workers| - 1
  {
    forall x | x in xs ensures exists i :: i in Overtook(s, k) && IsNumber(s.sent, i, id, x) {
      var i := SmallerIsEarlier(s.sent, id, s0, s.applied[k], y, x);
      if i in s.applied[..k] {
        var l :| 0 <= l < k && s.applied[..k][l] == i;
        AppliedHas(s.sent, s.applied[..k], id, l, x);
      }
      assert i in Overtook(s, k);
    }
    ImageBound(xs, Overtook(s, k), s.sent, id);
  }

  lemma AppliedInStream(s: State, id: string, s0: Uint64, x: Uint64)
    requires OnePlace(s) && Stream(s.sent, id, s0) && x in SeqsOf(AppliedMsgs(s), id)
    ensures s0 <= x < s0 + |Numbers(s.sent, id)|
  {
    AppliedAreMessages(s);
    var k := AppliedPosition(s.sent, s.applied, id, x);
    NumberIsRank(s.sent, s.applied[k], id, s0, x);
  }

  /** The numbers up to the mark that have been sent and not yet applied. */
  ghost function Overtaken(ss: seq<Uint64>, s0: Uint64): set<Uint64>
    requires ss != []
  {
    FullHistory.Between(s0, Max(ss)) - Elems(ss)
  }

  lemma OvertakenBound(s: State, id: string, s0: Uint64)
    requires Places(s) && AllOvertakeFew(s) && Stream(s.sent, id, s0)
    requires SeqsOf(AppliedMsgs(s), id) != []
    ensures |Overtaken(SeqsOf(AppliedMsgs(s), id), s0)| <= |s.workers| - 1
  {
    AppliedAreMessages(s);
    var ss := SeqsOf(AppliedMsgs(s), id);
    MaxIsMaximum(ss);
    var k := AppliedPosition(s.sent, s.applied, id, Max(ss));
    assert OvertakesFew(s, k);
    AllMessagesPrefix(s.sent, s.applied, k);
    forall x | x in Overtaken(ss, s0) ensures s0 <= x < Max(ss) && x !in NumbersAt(s.sent, s.applied[..k], id) {
      if x in NumbersAt(s.sent, s.applied[..k], id) {
        var l := AppliedPosition(s.sent, s.applied[..k], id, x);
        AppliedHas(s.sent, s.applied, id, l, x);
      }
    }
    AheadBound(s, k, id, s0, Max(ss), Overtaken(ss, s0));
  }

  lemma FirstBound(s: State, id: string, s0: Uint64)
    requires Places(s) && AllOvertakeFew(s) && Stream(s.sent, id, s0)
    requires SeqsOf(AppliedMsgs(s), id) != []
    ensures s0 <= SeqsOf(AppliedMsgs(s), id)[0] <= s0 + |s.workers| - 1
  {
    AppliedAreMessages(s);
    var ss := SeqsOf(AppliedMsgs(s), id);
    AppliedInStream(s, id, s0, ss[0]);
    var k := FirstPosition(s.sent, s.applied, id);
    assert OvertakesFew(s, k);
    if s0 < ss[0] {
      AheadBound(s, k, id, s0, ss[0], FullHistory.Between(s0, ss[0] - 1));
    }
  }

  lemma OvertakenCount(s: State, id: string, s0: Uint64)
    requires Places(s) && Stream(s.sent, id, s0)
    requires SeqsOf(AppliedMsgs(s), id) != []
    ensures var ss := SeqsOf(AppliedMsgs(s), id);
      && Tracker.Run(ss).duplicates == 0
      && |Overtaken(ss, s0)| == Max(ss) - s0 + 1 - |ss|
      && |Overtaken(ss, s0)| == Tracker.Run(ss).dropped + (ss[0] - s0) - Tracker.Run(ss).outOfOrder
  {
    AppliedAreMessages(s);
    var ss := SeqsOf(AppliedMsgs(s), id);
    MaxIsMaximum(ss);
    AppliedDistinct(s.sent, s.applied, id, s0);
    FullHistory.ExactWhenNothingForgotten(ss);
    Conservation(ss);
    forall x | x in ss ensures s0 <= x <= Max(ss) {
      AppliedInStream(s, id, s0, x);
    }
    assert Elems(ss) <= FullHistory.Between(s0, Max(ss));
    assert Max(ss) >= s0;
  }

  // ----- Main results -----

  /** On a lossless stream, whatever the schedule, at every moment: no message is
      taken for a duplicate; the first one applied is at most N - 1 late; and the
      loss the counters still show, once out-of-order arrivals are set off against
      drops, is exactly the number of messages overtaken and not yet applied, which
      is never more than N - 1. */
  lemma LosslessAlways(numWorkers: int, queueSize: int, s: State, id: string, s0: Uint64)
    requires Reachable(numWorkers, queueSize, s)
    requires Stream(s.sent, id, s0) && id in s.store
    ensures OnePlace(s) && SeqsOf(AppliedMsgs(s), id) != []
    ensures var (t, first) := (s.store[id].track, SeqsOf(AppliedMsgs(s), id)[0]);
      && t.duplicates == 0
      && s0 <= first <= s0 + |s.workers| - 1
      && first <= t.last < s0 + |Numbers(s.sent, id)|
      && t.messages == (t.last - s0 + 1) - |Overtaken(SeqsOf(AppliedMsgs(s), id), s0)|
      && t.dropped + (first - s0) - t.outOfOrder == |Overtaken(SeqsOf(AppliedMsgs(s), id), s0)|
      && |Overtaken(SeqsOf(AppliedMsgs(s), id), s0)| <= |s.workers| - 1
  {
    var acts :| Exec(Init(numWorkers, queueSize), acts) == Some(s);
    ExecSound(numWorkers, queueSize, acts);
    ExecOvertakesFew(numWorkers, queueSize, acts);
    assert SeesSensor(s, id);
    var ss := SeqsOf(AppliedMsgs(s), id);
    OvertakenBound(s, id, s0);
    OvertakenCount(s, id, s0);
    FirstBound(s, id, s0);
    Conservation(ss);
    MaxIsMaximum(ss);
    assert ss[0] in ss;
    AppliedInStream(s, id, s0, Max(ss));
  }

  /** Every gap ever reported on a lossless stream is at most N - 1. */
  lemma LosslessGap(numWorkers: int, queueSize: int, s: State, w: nat, now: int, s0: Uint64)
    requires Reachable(numWorkers, queueSize, s) && Enabled(s, UpdateStore(w, now))
    requires Stream(s.sent, s.workers[w].phase.m.sensorID, s0)
    ensures UpdateSensor(s.store, s.workers[w].phase.m, now).1.droppedCount <= |s.workers| - 1
  {
    var acts :| Exec(Init(numWorkers, queueSize), acts) == Some(s);
    ExecSound(numWorkers, queueSize, acts);
    ExecOvertakesFew(numWorkers, queueSize, acts);
    var m := s.workers[w].phase.m;
    var id := m.sensorID;
    assert SeesSensor(s, id) && HandOK(s, w);
    var ss := SeqsOf(AppliedMsgs(s), id);
    if ss != [] {
      MaxIsMaximum(ss);
      GapIsExact(ss, m.sequence);
      if m.sequence > Max(ss) + 1 {
        var s' := Next(s, UpdateStore(w, now));
        var k := |s.applied|;
        PlacesStep(s, UpdateStore(w, now));
        UpdateOvertakesFew(s, w, now);
        AppliedAreMessages(s);
        assert s'.applied[..k] == s.applied;
        AppliedInStream(s, id, s0, Max(ss));
        AheadBound(s', k, id, s0, m.sequence, FullHistory.Between(Max(ss) + 1, m.sequence - 1));
      }
    }
  }

  ghost predicate AllApplied(s: State, id: string) {
    forall i: nat :: i < |s.sent| && s.sent[i].Job? && s.sent[i].msg.sensorID == id ==> i in s.applied
  }

  /** Once every message of a lossless stream has been applied, the mark and the
      count are exact, nothing is called a duplicate, and out-of-order arrivals
      exactly make up for the drops and for a late start. */
  lemma LosslessComplete(numWorkers: int, queueSize: int, s: State, id: string, s0: Uint64)
    requires Reachable(numWorkers, queueSize, s)
    requires Stream(s.sent, id, s0) && AllApplied(s, id) && Numbers(s.sent, id) != []
    ensures OnePlace(s) && SeqsOf(AppliedMsgs(s), id) != [] && id in s.store
    ensures var (t, n, first) := (s.store[id].track, |Numbers(s.sent, id)|, SeqsOf(AppliedMsgs(s), id)[0]);
      && t.last == s0 + n - 1
      && t.messages == n
      && t.duplicates == 0
      && t.outOfOrder == t.dropped + (first - s0)
  {
    ReachableSound(numWorkers, queueSize, s);
    AppliedAreMessages(s);
    var ss, all := SeqsOf(AppliedMsgs(s), id), Numbers(s.sent, id);
    forall x | x in all ensures x in ss {
      var i := PositionOf(s.sent, id, x);
      var k :| 0 <= k < |s.applied| && s.applied[k] == i;
      AppliedHas(s.sent, s.applied, id, k, x);
    }
    assert all[0] in ss;
    assert SeesSensor(s, id);
    LosslessAlways(numWorkers, queueSize, s, id, s0);
    MaxIsMaximum(ss);
    Conservation(ss);
    assert all[|all| - 1] in ss && all[|all| - 1] == s0 + |all| - 1;
    forall x | s0 <= x <= Max(ss) ensures x in ss {
      assert all[x - s0] == x;
    }
    assert Overtaken(ss, s0) == {};
  }

  /** Nothing queued and nothing held means everything sent has been applied. */
  lemma DrainedIsApplied(numWorkers: int, queueSize: int, s: State, id: string)
    requires Reachable(numWorkers, queueSize, s)
    requires s.queue == [] && forall w :: 0 <= w < |s.workers| ==> !s.workers[w].phase.Holding?
    ensures AllApplied(s, id)
  {
    ReachableSound(numWorkers, queueSize, s);
    forall i: nat | i < |s.sent| && s.sent[i].Job? ensures i in s.applied {
      assert Taken(s, i) && !Held(s, i);
    }
  }

  lemma {:induction false} RunOfConsecutive(ss: seq<Uint64>, s0: Uint64)
    requires ss != [] && Consecutive(ss, s0)
    ensures var t := Tracker.Run(ss);
      t.last == s0 + |ss| - 1 && t.dropped == 0 && t.duplicates == 0 && t.outOfOrder == 0
  {
    if |ss| > 1 {
      RunOfConsecutive(ss[..|ss| - 1], s0);
    }
  }

  /** With one worker a lossless stream is seen as one at every moment: nothing
      dropped, nothing repeated, nothing out of order. */
  lemma LosslessOneWorker(numWorkers: int, queueSize: int, s: State, id: string, s0: Uint64)
    requires Reachable(numWorkers, queueSize, s) && |s.workers| == 1
    requires Stream(s.sent, id, s0) && id in s.store
    ensures var t := s.store[id].track;
      && t.dropped == 0 && t.duplicates == 0 && t.outOfOrder == 0
      && t.last == s0 + t.messages - 1
  {
    ReachableSound(numWorkers, queueSize, s);
    OneWorkerInOrder(numWorkers, queueSize, s);
    assert SeesSensor(s, id);
    var ms, all := AppliedMsgs(s), MsgsIn(s.sent);
    var ss := SeqsOf(ms, id);
    assert all == ms + all[|ms|..];
    SeqsOfAppend(ms, all[|ms|..], id);
    forall k | 0 <= k < |ss| ensures ss[k] == s0 + k {
      assert Numbers(s.sent, id)[k] == ss[k];
    }
    RunOfConsecutive(ss, s0);
    Conservation(ss);
  }

  /** The messages numbered 1 to `n` of one sensor. */
  function FirstMsgs(id: string, n: nat): (ms: seq<Msg>)
    requires n < MODULUS
    ensures |ms| == n && forall k :: 0 <= k < n ==> ms[k] == Msg(id, [], k + 1, Fine)
  {
    seq(n, k requires 0 <= k < n => Msg(id, [], k + 1, Fine))
  }

  lemma {:induction false} FirstNumbers(js: seq<Job>, id: string, n: nat)
    requires n < MODULUS && |js| == n && forall k :: 0 <= k < n ==> js[k] == Job(Msg(id, [], k + 1, Fine))
    ensures |Numbers(js, id)| == n && Stream(js, id, 1)
  {
    if n > 0 {
      FirstNumbers(js[..n - 1], id, n - 1);
      assert js == js[..n - 1] + [js[n - 1]];
      MsgsInSnoc(js[..n - 1], js[n - 1]);
      SeqsOfSnoc(MsgsIn(js[..n - 1]), js[n - 1].msg, id);
    }
  }

  /** The bounds are met: in a pool of any number N of workers a lossless stream 1, ...,
      N can be first heard of with number N, and N - 1 numbers seem to be missing. */
  lemma LosslessTight(numWorkers: int, queueSize: int, id: string) returns (s: State)
    requires |Init(numWorkers, queueSize).workers| < MODULUS
    ensures Reachable(numWorkers, queueSize, s) && Stream(s.sent, id, 1) && id in s.store
    ensures s.store[id].track.last == |s.workers| && s.store[id].track.messages == 1
    ensures OnePlace(s) && SeqsOf(AppliedMsgs(s), id) == [|s.workers|]
    ensures |Overtaken(SeqsOf(AppliedMsgs(s), id), 1)| == |s.workers| - 1
  {
    var n := |Init(numWorkers, queueSize).workers|;
    s := OvertakingTight(numWorkers, queueSize, FirstMsgs(id, n));
    FirstNumbers(s.sent, id, n);
    ReachableSound(numWorkers, queueSize, s);
    AppliedAreMessages(s);
    assert AppliedMsgs(s) == [Msg(id, [], n, Fine)];
    assert SeqsOf([], id) == [] && [Msg(id, [], n, Fine)][..0] == [];
    assert SeqsOf(AppliedMsgs(s), id) == [n];
    assert SeesSensor(s, id);
    LosslessAlways(numWorkers, queueSize, s, id, 1);
  }
}
