/** How far concurrency can reorder messages: with N workers a message is applied
    ahead of at most N - 1 earlier ones. */
module Overtaking {
  import opened Protocol
  import opened Pool
  import opened PoolInvariants
  import opened Accounting

  /** The messages sent before the `k`-th applied one and not applied before it. */
  ghost function Overtook(s: State, k: nat): set<nat>
    requires k < |s.applied| && s.applied[k] < |s.sent|
  {
    set i: nat | i < s.applied[k] && s.sent[i].Job? && i !in s.applied[..k]
  }

  ghost predicate OvertakesFew(s: State, k: nat)
    requires k < |s.applied|
  {
    s.applied[k] < |s.sent| && |Overtook(s, k)| <= |s.workers| - 1
  }

  ghost predicate AllOvertakeFew(s: State) {
    forall k: nat :: k < |s.applied| ==> OvertakesFew(s, k)
  }

  /** Distinct held messages are held by distinct workers. */
  lemma {:induction false} HeldBound(s: State, held: set<nat>, n: nat, w: nat)
    requires forall i :: i in held ==>
      i < |s.takers| && Held(s, i) && s.takers[i] < n && s.takers[i] != w
    ensures |held| <= if w < n then n - 1 else n
    decreases n
  {
    if n == 0 {
      assert held == {};
    } else if i :| i in held && s.takers[i] == n - 1 {
      HeldBound(s, held - {i}, n - 1, w);
    } else {
      HeldBound(s, held, n - 1, w);
    }
  }

  lemma UpdateOvertakesFew(s: State, w: nat, now: int)
    requires Places(s) && Enabled(s, UpdateStore(w, now))
    ensures OvertakesFew(Next(s, UpdateStore(w, now)), |s.applied|)
  {
    var s' := Next(s, UpdateStore(w, now));
    var j := s.workers[w].phase.i;
    assert HandOK(s, w);
    assert s'.applied[..|s.applied|] == s.applied;
    var held := Overtook(s', |s.applied|);
    forall i | i in held
      ensures i < |s.takers| && Held(s, i) && s.takers[i] < |s.workers| && s.takers[i] != w
    {
      assert Taken(s, i);
    }
    HeldBound(s, held, |s.workers|, w);
  }

  lemma OvertakesFewStep(s: State, a: Action)
    requires Places(s) && AllOvertakeFew(s) && Enabled(s, a)
    ensures AllOvertakeFew(Next(s, a))
  {
    var s' := Next(s, a);
    FifoStep(s, a);
    if a.UpdateStore? {
      UpdateOvertakesFew(s, a.w, a.now);
    }
    forall k: nat | k < |s.applied| ensures OvertakesFew(s', k) {
      assert OvertakesFew(s, k);
      assert s'.applied[..k] == s.applied[..k];
      assert Overtook(s', k) == Overtook(s, k);
    }
  }

  lemma {:induction false} ExecOvertakesFew(numWorkers: int, queueSize: int, acts: seq<Action>)
    requires Exec(Init(numWorkers, queueSize), acts).Some?
    ensures AllOvertakeFew(Exec(Init(numWorkers, queueSize), acts).value)
  {
    if acts != [] {
      var before := acts[..|acts| - 1];
      ExecOvertakesFew(numWorkers, queueSize, before);
      ExecSound(numWorkers, queueSize, before);
      OvertakesFewStep(Exec(Init(numWorkers, queueSize), before).value, acts[|acts| - 1]);
    }
  }

  /** In every reachable state, each message ever applied went ahead of at most
      N - 1 messages sent before it, N being the number of workers. */
  lemma OvertakingBound(numWorkers: int, queueSize: int, s: State, k: nat)
    requires Reachable(numWorkers, queueSize, s) && k < |s.applied|
    ensures s.applied[k] < |s.sent| && s.sent[s.applied[k]].Job?
    ensures |Overtook(s, k)| <= |s.workers| - 1
  {
    var acts :| Exec(Init(numWorkers, queueSize), acts) == Some(s);
    ExecOvertakesFew(numWorkers, queueSize, acts);
    ExecSound(numWorkers, queueSize, acts);
    AppliedAreMessages(s);
    assert OvertakesFew(s, k);
  }

  // ----- The bound is met -----

  /** The messages have all been sent and counted, and the first workers hold one each,
      in order; nothing else has happened. */
  ghost predicate Behind(s: State, ms: seq<Msg>) {
    && s.queue == [] && s.applied == [] && s.finished == [] && 0 < s.capacity
    && s.gate == Gate(true, false, false, 0, 0, 0, |ms|, 0)
    && |s.sent| == |s.takers| == |ms| <= |s.workers|
    && (forall k :: 0 <= k < |ms| ==> s.sent[k] == Job(ms[k]) && s.workers[k].phase == Holding(k, ms[k]))
    && (forall w :: |ms| <= w < |s.workers| ==> s.workers[w].phase == Idle)
    && (forall w :: 0 <= w < |s.workers| ==> Value(Delivered, s.workers[w]) == 0)
  }

  lemma BehindOneMore(s: State, ms: seq<Msg>, m: Msg)
    requires Behind(s, ms) && |ms| < |s.workers|
    ensures var acts := CallSteps(Job(m), true) + [Dequeue(|ms|)];
      Exec(s, acts).Some? && Behind(Exec(s, acts).value, ms + [m])
      && |Exec(s, acts).value.workers| == |s.workers|
  {
    CallRuns(s, Job(m), true);
    ExecSnoc(s, CallSteps(Job(m), true), Dequeue(|ms|));
  }

  /** Any messages, up to one a worker, can get there. */
  lemma {:induction false} AllBehind(numWorkers: int, queueSize: int, ms: seq<Msg>) returns (s: State)
    requires |ms| <= |Init(numWorkers, queueSize).workers|
    ensures Reachable(numWorkers, queueSize, s) && Behind(s, ms)
    ensures |s.workers| == |Init(numWorkers, queueSize).workers|
  {
    if ms == [] {
      s := Init(numWorkers, queueSize);
      assert Exec(s, []) == Some(s);
    } else {
      var before, m := ms[..|ms| - 1], ms[|ms| - 1];
      var p := AllBehind(numWorkers, queueSize, before);
      var acts := CallSteps(Job(m), true) + [Dequeue(|before|)];
      BehindOneMore(p, before, m);
      ReachableOn(numWorkers, queueSize, p, acts);
      s := Exec(p, acts).value;
      assert before + [m] == ms;
    }
  }

  function Below(n: nat): (r: set<nat>)
    ensures forall i :: i in r <==> 0 <= i < n
    ensures |r| == n
  {
    if n == 0 then {} else Below(n - 1) + {n - 1}
  }

  lemma OvertookAll(s: State, n: nat)
    requires s.applied == [n] && n < |s.sent| && forall i :: 0 <= i < n ==> s.sent[i].Job?
    ensures |Overtook(s, 0)| == n
  {
    assert Overtook(s, 0) == Below(n);
  }

  lemma ApplyHeld(p: State, w: nat)
    requires w < |p.workers| && p.workers[w].phase.Holding?
    ensures var a := UpdateStore(w, 0);
      && Enabled(p, a) && Next(p, a).sent == p.sent && |Next(p, a).workers| == |p.workers|
      && Next(p, a).applied == p.applied + [p.workers[w].phase.i]
  {
  }

  /** In a pool of any size the last of N messages can go ahead of all the others. */
  lemma OvertakingTight(numWorkers: int, queueSize: int, ms: seq<Msg>) returns (s: State)
    requires |ms| == |Init(numWorkers, queueSize).workers|
    ensures Reachable(numWorkers, queueSize, s) && |s.workers| == |ms| > 0
    ensures |s.sent| == |ms| && forall k :: 0 <= k < |ms| ==> s.sent[k] == Job(ms[k])
    ensures s.applied == [|ms| - 1] && |Overtook(s, 0)| == |s.workers| - 1
  {
    var p := AllBehind(numWorkers, queueSize, ms);
    var n := |ms| - 1;
    var a := UpdateStore(n, 0);
    assert p.workers[n].phase == Holding(n, ms[n]);
    ApplyHeld(p, n);
    s := Next(p, a);
    OvertookAll(s, n);
    ExecCons(p, a, []);
    assert [a] + [] == [a];
    ReachableOn(numWorkers, queueSize, p, [a]);
  }

  // ----- One worker -----

  /** With one worker messages are applied in the order they were sent. */
  lemma OneWorkerAscends(s: State, j: nat, k: nat)
    requires Places(s) && AllOvertakeFew(s) && |s.workers| == 1
    requires j < k < |s.applied|
    ensures s.applied[j] < s.applied[k]
  {
    assert OvertakesFew(s, j);
    AppliedAreMessages(s);
    assert s.applied[k] !in s.applied[..j] && s.applied[k] != s.applied[j];
    assert s.applied[k] !in Overtook(s, j);
  }

  /** and none is left out. */
  lemma OneWorkerSkipsNone(s: State, i: nat, k: nat)
    requires Places(s) && AllOvertakeFew(s) && |s.workers| == 1
    requires k < |s.applied| && i < s.applied[k]
    requires i < |s.sent| && s.sent[i].Job?
    ensures exists j :: 0 <= j < k && s.applied[j] == i
  {
    assert OvertakesFew(s, k);
    assert i !in Overtook(s, k);
    assert i in s.applied[..k];
  }

  lemma {:induction false} NoMessages(js: seq<Job>)
    requires forall i :: 0 <= i < |js| ==> js[i].Nil?
    ensures MsgsIn(js) == []
  {
    if js != [] {
      NoMessages(js[..|js| - 1]);
    }
  }

  /** The position after the last message applied before the `k`-th one. */
  function Resume(s: State, k: nat): nat
    requires k < |s.applied|
  {
    if k == 0 then 0 else s.applied[k - 1] + 1
  }

  lemma OneWorkerGap(s: State, k: nat)
    requires Places(s) && AllOvertakeFew(s) && |s.workers| == 1 && k < |s.applied|
    ensures Resume(s, k) <= s.applied[k] < |s.sent| && s.sent[s.applied[k]].Job?
    ensures MsgsIn(s.sent[Resume(s, k)..s.applied[k]]) == []
  {
    AppliedAreMessages(s);
    if k > 0 { OneWorkerAscends(s, k - 1, k); }
    var gap := s.sent[Resume(s, k)..s.applied[k]];
    forall n | 0 <= n < |gap| ensures gap[n].Nil? {
      var i := Resume(s, k) + n;
      assert gap[n] == s.sent[i];
      if s.sent[i].Job? {
        OneWorkerSkipsNone(s, i, k);
        var l :| 0 <= l < k && s.applied[l] == i;
        if l < k - 1 { OneWorkerAscends(s, l, k - 1); }
        assert false;
      }
    }
    NoMessages(gap);
  }

  lemma MsgsInSplit(js: seq<Job>, i: nat, j: nat)
    requires i <= j < |js| && js[j].Job? && MsgsIn(js[i..j]) == []
    ensures MsgsIn(js[..j + 1]) == MsgsIn(js[..i]) + [js[j].msg]
  {
    assert js[..j] == js[..i] + js[i..j];
    MsgsInAppend(js[..i], js[i..j]);
    assert js[..j + 1] == js[..j] + [js[j]];
    MsgsInSnoc(js[..j], js[j]);
  }

  lemma OneWorkerNext(s: State, k: nat)
    requires Places(s) && AllOvertakeFew(s) && |s.workers| == 1 && k < |s.applied|
    ensures AllMessages(s.sent, s.applied[..k]) && AllMessages(s.sent, s.applied[..k + 1])
    ensures Resume(s, k) <= s.applied[k] < |s.sent| && s.sent[s.applied[k]].Job?
    ensures var m := s.sent[s.applied[k]].msg;
      && MsgsAt(s.sent, s.applied[..k + 1]) == MsgsAt(s.sent, s.applied[..k]) + [m]
      && MsgsIn(s.sent[..s.applied[k] + 1]) == MsgsIn(s.sent[..Resume(s, k)]) + [m]
  {
    AppliedAreMessages(s);
    OneWorkerGap(s, k);
    MsgsInSplit(s.sent, Resume(s, k), s.applied[k]);
    assert s.applied[..k + 1] == s.applied[..k] + [s.applied[k]];
    MsgsAtSnoc(s.sent, s.applied[..k], s.applied[k]);
  }

  lemma {:induction false} OneWorkerPrefix(s: State, k: nat)
    requires Places(s) && AllOvertakeFew(s) && |s.workers| == 1 && k < |s.applied|
    ensures AllMessages(s.sent, s.applied[..k + 1]) && s.applied[k] < |s.sent|
    ensures MsgsAt(s.sent, s.applied[..k + 1]) == MsgsIn(s.sent[..s.applied[k] + 1])
  {
    OneWorkerNext(s, k);
    if k > 0 {
      OneWorkerPrefix(s, k - 1);
    }
  }

  lemma {:induction false} MsgsInPrefix(js: seq<Job>, c: nat)
    requires c <= |js|
    ensures MsgsIn(js[..c]) <= MsgsIn(js)
  {
    assert js == js[..c] + js[c..];
    MsgsInAppend(js[..c], js[c..]);
  }

  lemma OneWorkerApplied(s: State)
    requires Places(s) && AllOvertakeFew(s) && |s.workers| == 1
    ensures AppliedMsgs(s) <= MsgsIn(s.sent)
  {
    AppliedAreMessages(s);
    if s.applied != [] {
      var k := |s.applied| - 1;
      OneWorkerPrefix(s, k);
      assert s.applied[..k + 1] == s.applied;
      MsgsInPrefix(s.sent, s.applied[k] + 1);
    }
  }

  /** With one worker, the messages applied are at any moment exactly an initial
      part of the messages sent; they are all of those taken off the queue but,
      perhaps, the last. */
  lemma OneWorkerInOrder(numWorkers: int, queueSize: int, s: State)
    requires Reachable(numWorkers, queueSize, s) && |s.workers| == 1
    ensures OnePlace(s)
    ensures AppliedMsgs(s) <= MsgsIn(s.sent)
    ensures s.queue == [] ==> |MsgsIn(s.sent)| <= |AppliedMsgs(s)| + 1
    ensures s.queue == [] && !s.workers[0].phase.Holding? ==> AppliedMsgs(s) == MsgsIn(s.sent)
  {
    var acts :| Exec(Init(numWorkers, queueSize), acts) == Some(s);
    ExecOvertakesFew(numWorkers, queueSize, acts);
    ExecSound(numWorkers, queueSize, acts);
    OneWorkerApplied(s);
    if s.queue == [] {
      OneWorkerRemainder(numWorkers, queueSize, s, acts);
    }
  }

  /** What an empty queue leaves unapplied is at most what the worker holds. */
  lemma OneWorkerRemainder(numWorkers: int, queueSize: int, s: State, acts: seq<Action>)
    requires Exec(Init(numWorkers, queueSize), acts) == Some(s)
    requires |s.workers| == 1 && s.queue == []
    ensures OnePlace(s)
    ensures |MsgsIn(s.sent)| == |AppliedMsgs(s)| + if s.workers[0].phase.Holding? then 1 else 0
  {
    ExecSound(numWorkers, queueSize, acts);
    ExecTakenCount(numWorkers, queueSize, acts);
    assert s.sent[..|s.takers|] == s.sent;
    assert s.workers[..0] == [];
  }

  lemma TakenCountStep(s: State, a: Action)
    requires Places(s) && Enabled(s, a)
    requires |MsgsIn(s.sent[..|s.takers|])| == |s.applied| + Sum(HasUnapplied, s.workers)
    ensures Fifo(Next(s, a))
    ensures var s' := Next(s, a);
      |MsgsIn(s'.sent[..|s'.takers|])| == |s'.applied| + Sum(HasUnapplied, s'.workers)
  {
    TakenMsgsStep(s, a);
    SumStep(HasUnapplied, s, a);
  }

  lemma {:induction false} ExecTakenCount(numWorkers: int, queueSize: int, acts: seq<Action>)
    requires Exec(Init(numWorkers, queueSize), acts).Some?
    ensures var s := Exec(Init(numWorkers, queueSize), acts).value;
      Fifo(s) && |MsgsIn(s.sent[..|s.takers|])| == |s.applied| + Sum(HasUnapplied, s.workers)
  {
    ExecSound(numWorkers, queueSize, acts);
    if acts == [] {
      SumInit(HasUnapplied, numWorkers, queueSize);
    } else {
      var before := acts[..|acts| - 1];
      ExecTakenCount(numWorkers, queueSize, before);
      ExecSound(numWorkers, queueSize, before);
      TakenCountStep(Exec(Init(numWorkers, queueSize), before).value, acts[|acts| - 1]);
    }
  }
}
