/** Laws of the sequence tracker over whole histories.

    The reference is the history itself: its maximum, its set of numbers, and
    the position at which the high-water mark last moved. */
module TrackerLaws {
  import opened Protocol
  import opened Tracker

  // ----- Reference definitions, on the history alone -----

  function Elems(ss: seq<Uint64>): set<Uint64> {
    set x | x in ss
  }

  function Max(ss: seq<Uint64>): Uint64
    requires ss != []
  {
    if |ss| == 1 then ss[0]
    else
      var m := Max(ss[..|ss| - 1]);
      if ss[|ss| - 1] > m then ss[|ss| - 1] else m
  }

  /** The position at which the high-water mark last moved. */
  function LastAdvance(ss: seq<Uint64>): (k: nat)
    requires ss != []
    ensures k < |ss|
  {
    if |ss| == 1 then 0
    else
      var before := ss[..|ss| - 1];
      if ss[|ss| - 1] > Max(before) then |ss| - 1 else LastAdvance(before)
  }

  /** The numbers still within the window of the high-water mark. */
  function InWindow(ss: seq<Uint64>): set<Uint64>
    requires ss != []
  {
    set x | x in ss && x + 64 >= Max(ss)
  }

  /** The numbers below the window that arrived since the mark last moved. */
  function LateArrivals(ss: seq<Uint64>): set<Uint64>
    requires ss != []
  {
    set x | x in ss[LastAdvance(ss)..] && x + 64 < Max(ss)
  }

  /** `s` was received, but has left the window and has not come back since the
      mark last moved: the tracker no longer knows it. */
  predicate Forgotten(ss: seq<Uint64>, s: Uint64)
    requires ss != []
  {
    s in ss && s + 64 < Max(ss) && s !in ss[LastAdvance(ss)..]
  }

  /** How many messages of a history repeated a forgotten number. */
  function ForgottenRepeats(ss: seq<Uint64>): nat {
    if |ss| <= 1 then 0
    else
      var before := ss[..|ss| - 1];
      ForgottenRepeats(before) + (if Forgotten(before, ss[|ss| - 1]) then 1 else 0)
  }

  lemma Snoc(ss: seq<Uint64>)
    requires |ss| > 1
    ensures ss == ss[..|ss| - 1] + [ss[|ss| - 1]]
    ensures Elems(ss) == Elems(ss[..|ss| - 1]) + {ss[|ss| - 1]}
  {
    assert ss == ss[..|ss| - 1] + [ss[|ss| - 1]];
  }

  lemma {:induction false} MaxIsMaximum(ss: seq<Uint64>)
    requires ss != []
    ensures Max(ss) in ss
    ensures forall x :: x in ss ==> x <= Max(ss)
  {
    if |ss| > 1 {
      MaxIsMaximum(ss[..|ss| - 1]);
      Snoc(ss);
    }
  }

  /** The mark last moved at the first arrival of the maximum. */
  lemma {:induction false} LastAdvanceIsFirstMaximum(ss: seq<Uint64>)
    requires ss != []
    ensures ss[LastAdvance(ss)] == Max(ss)
    ensures Max(ss) !in ss[..LastAdvance(ss)]
  {
    if |ss| > 1 {
      var before := ss[..|ss| - 1];
      LastAdvanceIsFirstMaximum(before);
      MaxIsMaximum(before);
      assert ss[..LastAdvance(ss)] == before[..LastAdvance(ss)];
    }
  }

  lemma RunSnoc(ss: seq<Uint64>, s: Uint64)
    requires ss != []
    ensures Run(ss + [s]) == Step(Run(ss), s).0
    ensures Max(ss + [s]) == if s > Max(ss) then s else Max(ss)
  {
    assert (ss + [s])[..|ss|] == ss;
  }

  // ----- Counting laws -----

  /** Unconditional conservation of sequence numbers. Every message is the first
      one, an advance, a duplicate or out of order; advances and gaps together
      span exactly the distance the mark has travelled. Hence the drop counter
      is bounded by that distance and its 64-bit addition never wraps. */
  lemma {:induction false} Conservation(ss: seq<Uint64>)
    requires ss != []
    ensures Run(ss).last == Max(ss)
    ensures Run(ss).messages == |ss|
    ensures Run(ss).dropped + |ss| == (Max(ss) - ss[0]) + 1 + Run(ss).duplicates + Run(ss).outOfOrder
    ensures Run(ss).dropped <= Max(ss) - ss[0]
    ensures 1 + Run(ss).duplicates + Run(ss).outOfOrder <= |ss|
  {
    if |ss| > 1 {
      Conservation(ss[..|ss| - 1]);
    }
  }

  /** What one message adds to the drop counter is exactly the gap it reports,
      which is the number of sequence numbers it jumped over. */
  lemma {:induction false} GapIsExact(ss: seq<Uint64>, s: Uint64)
    requires ss != []
    ensures var (t, r) := Step(Run(ss), s);
      && t == Run(ss + [s])
      && r.droppedCount == (if s > Max(ss) then s - Max(ss) - 1 else 0)
      && t.dropped == Run(ss).dropped + r.droppedCount
  {
    assert (ss + [s])[..|ss|] == ss;
    Conservation(ss);
    Conservation(ss + [s]);
  }

  // ----- What the window remembers -----

  lemma LastAdvanceSnoc(ss: seq<Uint64>)
    requires |ss| > 1
    ensures var before, s := ss[..|ss| - 1], ss[|ss| - 1];
      Elems(ss[LastAdvance(ss)..]) ==
        if s > Max(before) then {s} else Elems(before[LastAdvance(before)..]) + {s}
  {
    var before, s := ss[..|ss| - 1], ss[|ss| - 1];
    Snoc(ss);
    if s > Max(before) {
      assert ss[LastAdvance(ss)..] == [s];
    } else {
      assert ss[LastAdvance(ss)..] == before[LastAdvance(before)..] + [s];
    }
  }

  /** The remembered set in closed form: the numbers within the window, and
      whatever has arrived since the mark last moved. The incremental pruning of
      the code, one advance at a time, computes exactly this. */
  lemma {:induction false} WindowExact(ss: seq<Uint64>)
    requires ss != []
    ensures Run(ss).recent == InWindow(ss) + Elems(ss[LastAdvance(ss)..])
  {
    Conservation(ss);
    MaxIsMaximum(ss);
    if |ss| > 1 {
      var before, s := ss[..|ss| - 1], ss[|ss| - 1];
      WindowExact(before);
      Conservation(before);
      MaxIsMaximum(before);
      Snoc(ss);
      LastAdvanceSnoc(ss);
      LastAdvanceIsFirstMaximum(before);
      forall x: Uint64
        ensures x in Run(ss).recent <==> x in InWindow(ss) + Elems(ss[LastAdvance(ss)..])
      {
        assert x in ss <==> x in before || x == s;
        if x in before[LastAdvance(before)..] {
          assert x in before;
        }
      }
    }
  }

  /** The mark itself is remembered, nothing above it is, everything remembered
      was received, and everything received within the window is remembered. */
  lemma {:induction false} WindowInvariant(ss: seq<Uint64>)
    requires ss != []
    ensures var t := Run(ss);
      && t.last in t.recent
      && (forall x :: x in t.recent ==> x in ss && x <= t.last)
      && (forall x :: x in ss && t.last <= x + 64 ==> x in t.recent)
  {
    WindowExact(ss);
    Conservation(ss);
    MaxIsMaximum(ss);
    forall x | x in ss[LastAdvance(ss)..] ensures x in ss {
    }
  }

  /** Exactly when `Update` answers what: a duplicate is a repeat the tracker has
      not forgotten; out of order is anything else below the mark. */
  lemma ClassifiedExactly(ss: seq<Uint64>, s: Uint64)
    requires ss != []
    ensures var r := Step(Run(ss), s).1;
      && (r.isDuplicate <==> s in ss && !Forgotten(ss, s))
      && (r.isOutOfOrder <==> s < Max(ss) && (s in ss ==> Forgotten(ss, s)))
      && (r.isNewSensor <==> false)
  {
    WindowExact(ss);
    Conservation(ss);
    MaxIsMaximum(ss);
    forall x | x in ss[LastAdvance(ss)..] ensures x in ss {
    }
  }

  /** The width of the window, on answers alone. Whatever the history, a number
      received before and at most 64 behind the mark is a duplicate; */
  lemma {:induction false} WindowIs64(ss: seq<Uint64>, s: Uint64)
    requires s in ss && Max(ss) <= s + 64
    ensures s in Run(ss).recent && Step(Run(ss), s).1 == UpdateResult(false, true, false, 0)
  {
    ClassifiedExactly(ss, s);
    WindowInvariant(ss);
  }

  /** and one left 65 or more behind when the mark moves is not remembered, and is
      called out of order if it comes again. */
  lemma {:induction false} ForgetsPast64(ss: seq<Uint64>, m: Uint64, s: Uint64)
    requires s in ss && m > Max(ss) && s + 65 <= m
    ensures s !in Run(ss + [m]).recent
    ensures Step(Run(ss + [m]), s).1 == UpdateResult(false, false, true, 0)
  {
    var all := ss + [m];
    assert all[..|ss|] == ss;
    ClassifiedExactly(all, s);
    WindowExact(all);
    Conservation(all);
  }

  /** The edge itself: 65 behind is forgotten, 64 behind is not. */
  lemma {:induction false} WindowEdge(x: Uint64)
    requires x + 65 < MODULUS
    ensures Step(Run([x, x + 64]), x).1.isDuplicate
    ensures Step(Run([x, x + 65]), x).1.isOutOfOrder
  {
    assert [x, x + 64][..1] == [x];
    WindowIs64([x, x + 64], x);
    ForgetsPast64([x], x + 65, x);
    assert [x] + [x + 65 as Uint64] == [x, x + 65];
  }

  // ----- Memory -----

  /** A set of numbers is no larger than any range that holds it. */
  lemma {:induction false} SizeInRange(a: set<Uint64>, lo: int, hi: int)
    requires lo <= hi
    requires forall x :: x in a ==> lo <= x < hi
    ensures |a| <= hi - lo
    decreases hi - lo
  {
    if lo == hi {
      assert a == {};
    } else if x :| x in a && x == hi - 1 {
      SizeInRange(a - {x}, lo, hi - 1);
    } else {
      SizeInRange(a, lo, hi - 1);
    }
  }

  lemma SubsetSize<T>(a: set<T>, b: set<T>)
    requires a <= b
    ensures |a| <= |b|
  {
    assert b == a + (b - a);
  }

  lemma {:induction false} LateArrivalsAreFew(ss: seq<Uint64>)
    requires ss != []
    ensures |LateArrivals(ss)| <= |ss| - 1 - LastAdvance(ss)
  {
    LastAdvanceIsFirstMaximum(ss);
    var tail := ss[LastAdvance(ss) + 1..];
    assert ss[LastAdvance(ss)..] == [Max(ss)] + tail;
    DistinctAtMostLength(tail);
    SubsetSize(LateArrivals(ss), Elems(tail));
  }

  lemma RecentSplits(ss: seq<Uint64>)
    requires ss != []
    ensures Run(ss).recent == InWindow(ss) + LateArrivals(ss)
    ensures InWindow(ss) !! LateArrivals(ss)
  {
    WindowExact(ss);
    forall x | x in ss[LastAdvance(ss)..] ensures x in ss {
    }
  }

  /** How much is remembered, exactly: at most 65 numbers within the window, plus
      the late arrivals since the mark last moved, which are never pruned. */
  lemma {:induction false} MemoryExact(ss: seq<Uint64>)
    requires ss != []
    ensures |Run(ss).recent| == |InWindow(ss)| + |LateArrivals(ss)|
    ensures |InWindow(ss)| <= 65
    ensures |LateArrivals(ss)| <= |ss| - 1 - LastAdvance(ss)
    ensures LastAdvance(ss) == |ss| - 1 ==> |Run(ss).recent| <= 65
  {
    RecentSplits(ss);
    MaxIsMaximum(ss);
    LateArrivalsAreFew(ss);
    SizeInRange(InWindow(ss), Max(ss) - 64, Max(ss) + 1);
  }

  lemma {:induction false} DistinctAtMostLength(ss: seq<Uint64>)
    ensures |Elems(ss)| <= |ss|
  {
    if ss != [] {
      var before, s := ss[..|ss| - 1], ss[|ss| - 1];
      DistinctAtMostLength(before);
      assert ss == before + [s];
      assert Elems(ss) == Elems(before) + {s};
    }
  }

  /** One message far ahead, then `k` distinct late ones. */
  function Flood(top: Uint64, k: nat): seq<Uint64>
    requires k + 64 < top
  {
    if k == 0 then [top] else Flood(top, k - 1) + [(k - 1) as Uint64]
  }

  lemma LateStep(ss: seq<Uint64>, s: Uint64)
    requires ss != [] && s < Run(ss).last && s !in Run(ss).recent
    ensures Run(ss + [s]).last == Run(ss).last
    ensures Run(ss + [s]).recent == Run(ss).recent + {s}
  {
    RunSnoc(ss, s);
  }

  /** The documented intent, a remembered set that cannot grow without limit, is
      not what the code achieves: `k` late arrivals after one message leave
      `k + 1` remembered numbers, for every `k` the number space allows. */
  lemma {:induction false} FloodIsRemembered(top: Uint64, k: nat)
    requires k + 64 < top
    ensures Run(Flood(top, k)).last == top
    ensures forall x: Uint64 :: x in Run(Flood(top, k)).recent <==> x == top || x < k
    ensures |Run(Flood(top, k)).recent| == k + 1
  {
    if k > 0 {
      FloodIsRemembered(top, k - 1);
      LateStep(Flood(top, k - 1), k - 1);
    }
  }
}
