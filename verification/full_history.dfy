/** The tracker without a window: it remembers every number it has seen. The
    windowed tracker of the code stands in for this one, and this module says
    exactly how well. */
module FullHistory {
  import opened Protocol
  import opened Tracker
  import opened TrackerLaws

  function FullStep(t: Track, s: Uint64): (Track, UpdateResult) {
    var t := t.(messages := t.messages + 1);
    if s in t.recent then
      (t.(duplicates := t.duplicates + 1), DUPLICATE)
    else if s > t.last then
      var gap := s - t.last - 1;
      (t.(dropped := Add64(t.dropped, gap), last := s, recent := t.recent + {s}),
       UpdateResult(false, false, false, gap))
    else
      (t.(outOfOrder := t.outOfOrder + 1, recent := t.recent + {s}), OUT_OF_ORDER)
  }

  function FullRun(ss: seq<Uint64>): Track
    requires ss != []
  {
    if |ss| == 1 then First(ss[0]) else FullStep(FullRun(ss[..|ss| - 1]), ss[|ss| - 1]).0
  }

  function FullResults(ss: seq<Uint64>): (rs: seq<UpdateResult>)
    ensures |rs| == |ss|
  {
    if ss == [] then []
    else if |ss| == 1 then [NEW_SENSOR]
    else
      var before := ss[..|ss| - 1];
      FullResults(before) + [FullStep(FullRun(before), ss[|ss| - 1]).1]
  }

  lemma {:induction false} FullRemembersAll(ss: seq<Uint64>)
    requires ss != []
    ensures FullRun(ss).recent == Elems(ss)
    ensures FullRun(ss).last == Max(ss)
  {
    if |ss| > 1 {
      FullRemembersAll(ss[..|ss| - 1]);
      MaxIsMaximum(ss[..|ss| - 1]);
      Snoc(ss);
    } else {
      assert Elems(ss) == {ss[0]};
    }
  }

  /** The full tracker's duplicate count is exactly the number of repeats. */
  lemma {:induction false} FullCounts(ss: seq<Uint64>)
    requires ss != []
    ensures FullRun(ss).recent == Elems(ss)
    ensures FullRun(ss).last == Max(ss)
    ensures FullRun(ss).duplicates == |ss| - |Elems(ss)|
  {
    FullRemembersAll(ss);
    if |ss| > 1 {
      FullCounts(ss[..|ss| - 1]);
      Snoc(ss);
    } else {
      assert Elems(ss) == {ss[0]};
    }
  }

  /** For every history the two trackers agree on the mark, the message count and
      the drop count. They disagree only in calling some true repeats out of
      order, and the number of those is the number of forgotten repeats. */
  lemma {:induction false} WindowedRefinesFull(ss: seq<Uint64>)
    requires ss != []
    ensures var (w, f) := (Run(ss), FullRun(ss));
      && w.last == f.last
      && w.messages == f.messages
      && w.dropped == f.dropped
      && w.duplicates + ForgottenRepeats(ss) == f.duplicates
      && w.outOfOrder == f.outOfOrder + ForgottenRepeats(ss)
  {
    if |ss| > 1 {
      var before, s := ss[..|ss| - 1], ss[|ss| - 1];
      WindowedRefinesFull(before);
      ClassifiedExactly(before, s);
      FullCounts(before);
      MaxIsMaximum(before);
      Conservation(before);
    }
  }

  /** One message is answered differently exactly when it repeats a forgotten number. */
  lemma SameAnswer(ss: seq<Uint64>, s: Uint64)
    requires ss != []
    ensures Step(Run(ss), s).1 == FullStep(FullRun(ss), s).1 <==> !Forgotten(ss, s)
  {
    ClassifiedExactly(ss, s);
    WindowedRefinesFull(ss);
    FullCounts(ss);
    MaxIsMaximum(ss);
    Conservation(ss);
  }

  /** The whole stream of answers is the full tracker's exactly when no message
      repeated a forgotten number, and the duplicate and out-of-order counters are
      right under exactly the same condition. */
  lemma {:induction false} ExactWhenNothingForgotten(ss: seq<Uint64>)
    requires ss != []
    ensures Results(ss) == FullResults(ss) <==> ForgottenRepeats(ss) == 0
    ensures Run(ss).duplicates == |ss| - |Elems(ss)| <==> ForgottenRepeats(ss) == 0
    ensures Run(ss).outOfOrder == FullRun(ss).outOfOrder <==> ForgottenRepeats(ss) == 0
    ensures Run(ss).duplicates <= |ss| - |Elems(ss)|
  {
    WindowedRefinesFull(ss);
    FullCounts(ss);
    if |ss| > 1 {
      var before, s := ss[..|ss| - 1], ss[|ss| - 1];
      ExactWhenNothingForgotten(before);
      SameAnswer(before, s);
      var n := |before|;
      assert Results(ss)[..n] == Results(before) && FullResults(ss)[..n] == FullResults(before);
      assert Results(ss)[n] == Step(Run(before), s).1;
      assert FullResults(ss)[n] == FullStep(FullRun(before), s).1;
      if Results(before) == FullResults(before) && Results(ss)[n] == FullResults(ss)[n] {
        assert Results(ss) == FullResults(ss);
      }
    }
  }

  /** The smallest kind of history on which the counters are wrong: a number, a jump
      past the window, and the same number again, which is called out of order. */
  lemma ForgottenRepeatExample()
    ensures var ss := [1, 164, 1];
      && Run(ss).duplicates == 0 && Run(ss).outOfOrder == 1
      && FullRun(ss).duplicates == 1 && FullRun(ss).outOfOrder == 0
  {
    var ss: seq<Uint64> := [1, 164, 1];
    assert ss[..2] == [1, 164] && [1, 164][..1] == [1 as Uint64];
    assert Run(ss[..2]).recent == {164};
  }

  /** No message lags more than the window behind the mark of the moment. */
  predicate WithinWindow(ss: seq<Uint64>) {
    forall k :: 0 < k < |ss| ==> Max(ss[..k]) <= ss[k] as int + 64
  }

  lemma {:induction false} WithinWindowForgetsNothing(ss: seq<Uint64>)
    requires WithinWindow(ss)
    ensures ForgottenRepeats(ss) == 0
  {
    if |ss| > 1 {
      var before := ss[..|ss| - 1];
      forall k | 0 < k < |before| ensures Max(before[..k]) <= before[k] as int + 64 {
        assert before[..k] == ss[..k];
      }
      WithinWindowForgetsNothing(before);
    }
  }

  // ----- Missing numbers -----

  /** The numbers from the first message's up to the mark that never arrived. */
  function Missing(ss: seq<Uint64>): set<Uint64>
    requires ss != []
  {
    set x: Uint64 | x in Between(ss[0], Max(ss)) && x !in ss
  }

  /** The numbers that arrived although they precede the first message's. */
  function BelowFirst(ss: seq<Uint64>): set<Uint64>
    requires ss != []
  {
    set x | x in ss && x < ss[0]
  }

  function Between(lo: Uint64, hi: Uint64): (r: set<Uint64>)
    ensures forall x: Uint64 :: x in r <==> lo <= x <= hi
    ensures |r| == if lo <= hi then hi - lo + 1 else 0
    decreases hi - lo
  {
    if lo > hi then {}
    else if lo == hi then {hi}
    else Between(lo, hi - 1) + {hi}
  }

  lemma PartitionSizes(ss: seq<Uint64>)
    requires ss != []
    ensures |Missing(ss)| + |Elems(ss)| == (Max(ss) - ss[0] + 1) + |BelowFirst(ss)|
  {
    MaxIsMaximum(ss);
    var range := Between(ss[0], Max(ss));
    assert ss[0] in ss;
    var above := Elems(ss) - BelowFirst(ss);
    assert range == Missing(ss) + above;
    assert Missing(ss) !! above;
    assert Elems(ss) == above + BelowFirst(ss);
  }

  /** The drop counter corrected by late arrivals counts the missing numbers
      exactly, up to the forgotten repeats, each of which hides one. */
  lemma {:induction false} MissingCount(ss: seq<Uint64>)
    requires ss != []
    ensures |Missing(ss)| ==
      Run(ss).dropped - Run(ss).outOfOrder + |BelowFirst(ss)| + ForgottenRepeats(ss)
    ensures |Missing(ss)| == Run(ss).dropped - Run(ss).outOfOrder + |BelowFirst(ss)|
      <==> ForgottenRepeats(ss) == 0
    ensures WithinWindow(ss) ==>
      |Missing(ss)| == Run(ss).dropped - Run(ss).outOfOrder + |BelowFirst(ss)|
  {
    PartitionSizes(ss);
    Conservation(ss);
    WindowedRefinesFull(ss);
    FullCounts(ss);
    if WithinWindow(ss) {
      WithinWindowForgetsNothing(ss);
    }
  }

  // ----- Order independence -----

  lemma SameElements(ss: seq<Uint64>, tt: seq<Uint64>)
    requires multiset(ss) == multiset(tt)
    ensures |ss| == |tt|
    ensures forall x :: x in ss <==> x in tt
    ensures Elems(ss) == Elems(tt)
  {
    assert |multiset(ss)| == |ss| && |multiset(tt)| == |tt|;
    forall x ensures x in ss <==> x in tt {
      assert x in ss <==> x in multiset(ss);
      assert x in tt <==> x in multiset(tt);
    }
  }

  lemma SpreadForgetsNothing(ss: seq<Uint64>)
    requires forall x, y :: x in ss && y in ss ==> x <= y + 64
    ensures WithinWindow(ss)
  {
    forall k | 0 < k < |ss| ensures Max(ss[..k]) <= ss[k] as int + 64 {
      MaxIsMaximum(ss[..k]);
      assert Max(ss[..k]) in ss;
      assert ss[k] in ss;
    }
  }

  /** Whatever order one sensor's messages are applied in, the mark and the
      message count come out the same, and so does the drop count corrected for
      lateness, up to forgotten repeats. When the numbers spread over no more than
      the window, all of it depends on the messages alone. */
  lemma OrderIndependence(ss: seq<Uint64>, tt: seq<Uint64>)
    requires ss != [] && multiset(ss) == multiset(tt)
    ensures tt != []
    ensures Run(ss).last == Run(tt).last && Run(ss).messages == Run(tt).messages
    ensures Run(ss).dropped + ss[0] - Run(ss).outOfOrder + ForgottenRepeats(ss)
      == Run(ss).last + 1 - |Elems(ss)|
      == Run(tt).dropped + tt[0] - Run(tt).outOfOrder + ForgottenRepeats(tt)
    ensures (forall x, y :: x in ss && y in ss ==> x <= y + 64) ==>
      && Run(ss).duplicates == |ss| - |Elems(ss)| == Run(tt).duplicates
      && Run(ss).dropped + ss[0] - Run(ss).outOfOrder == Run(tt).dropped + tt[0] - Run(tt).outOfOrder
  {
    SameElements(ss, tt);
    MaxIsMaximum(ss);
    MaxIsMaximum(tt);
    Conservation(ss);
    Conservation(tt);
    WindowedRefinesFull(ss);
    WindowedRefinesFull(tt);
    FullCounts(ss);
    FullCounts(tt);
    if forall x, y :: x in ss && y in ss ==> x <= y + 64 {
      SpreadForgetsNothing(ss);
      SpreadForgetsNothing(tt);
      WithinWindowForgetsNothing(ss);
      WithinWindowForgetsNothing(tt);
    }
  }
}
