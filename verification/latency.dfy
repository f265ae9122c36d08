/** The latency recorder: a circular buffer that keeps the latest samples, and the
    percentile summary computed from it. */
module Latency {
  const DEFAULT_CAPACITY := 10000

  datatype Snapshot = Snapshot(count: nat, min: int, p50: int, p95: int, p99: int, max: int)

  // ----- Sorting -----

  ghost predicate Ascending(xs: seq<int>) {
    forall i, j :: 0 <= i < j < |xs| ==> xs[i] <= xs[j]
  }

  function Insert(x: int, xs: seq<int>): seq<int> {
    if xs == [] || x <= xs[0] then [x] + xs else [xs[0]] + Insert(x, xs[1..])
  }

  function Sorted(xs: seq<int>): seq<int> {
    if xs == [] then [] else Insert(xs[0], Sorted(xs[1..]))
  }

  lemma {:induction false} InsertAdds(x: int, xs: seq<int>)
    ensures multiset(Insert(x, xs)) == multiset(xs) + multiset{x}
  {
    if xs != [] && x > xs[0] {
      InsertAdds(x, xs[1..]);
      assert xs == [xs[0]] + xs[1..];
    }
  }

  lemma {:induction false} InsertSorts(x: int, xs: seq<int>)
    requires Ascending(xs)
    ensures Ascending(Insert(x, xs))
    ensures Insert(x, xs) != [] && (Insert(x, xs)[0] == x || (xs != [] && Insert(x, xs)[0] == xs[0]))
  {
    if xs != [] && x > xs[0] {
      InsertSorts(x, xs[1..]);
      var rest := Insert(x, xs[1..]);
      assert xs[0] <= rest[0];
      forall i, j | 0 <= i < j < |rest| + 1 ensures ([xs[0]] + rest)[i] <= ([xs[0]] + rest)[j] {
        assert rest[0] <= rest[j - 1];
      }
    }
  }

  lemma {:induction false} SortedSorts(xs: seq<int>)
    ensures Ascending(Sorted(xs)) && multiset(Sorted(xs)) == multiset(xs)
    ensures |Sorted(xs)| == |xs|
  {
    if xs != [] {
      SortedSorts(xs[1..]);
      InsertSorts(xs[0], Sorted(xs[1..]));
      InsertAdds(xs[0], Sorted(xs[1..]));
      assert xs == [xs[0]] + xs[1..];
    }
    assert |multiset(Sorted(xs))| == |multiset(xs)|;
  }

  lemma MultisetTail(xs: seq<int>)
    requires xs != []
    ensures multiset(xs[1..]) == multiset(xs) - multiset{xs[0]}
  {
    assert xs == [xs[0]] + xs[1..];
  }

  lemma LeastIsFirst(a: seq<int>, b: seq<int>)
    requires a != [] && b != [] && Ascending(a) && multiset(a) == multiset(b)
    ensures a[0] <= b[0]
  {
    assert b[0] in multiset(a);
    assert b[0] in a;
  }

  /** A sequence has only one ascending rearrangement. */
  lemma {:induction false} AscendingUnique(a: seq<int>, b: seq<int>)
    requires Ascending(a) && Ascending(b) && multiset(a) == multiset(b)
    ensures a == b
  {
    assert |a| == |b| by { assert |multiset(a)| == |multiset(b)|; }
    if a != [] {
      LeastIsFirst(a, b);
      LeastIsFirst(b, a);
      MultisetTail(a);
      MultisetTail(b);
      AscendingUnique(a[1..], b[1..]);
      assert a == [a[0]] + a[1..] && b == [b[0]] + b[1..];
    }
  }

  lemma SortedIs(a: seq<int>, b: seq<int>)
    requires Ascending(a) && multiset(a) == multiset(b)
    ensures a == Sorted(b)
  {
    SortedSorts(b);
    AscendingUnique(a, Sorted(b));
  }

  lemma SortedPermuted(a: seq<int>, b: seq<int>)
    requires multiset(a) == multiset(b)
    ensures Sorted(a) == Sorted(b)
  {
    SortedSorts(a);
    SortedSorts(b);
    AscendingUnique(Sorted(a), Sorted(b));
  }

  /** Sorts in place. */
  method SortSlice(data: array<int>)
    modifies data
    ensures data[..] == Sorted(old(data[..]))
  {
    ghost var was := data[..];
    for i := 0 to data.Length
      invariant forall p, q :: 0 <= p < q < i ==> data[p] <= data[q]
      invariant multiset(data[..]) == multiset(was)
    {
      SinkInto(data, i);
    }
    SortedIs(data[..], was);
  }

  /** Moves element `i` down to its place among the sorted ones before it. */
  method SinkInto(data: array<int>, i: nat)
    requires i < data.Length && forall p, q :: 0 <= p < q < i ==> data[p] <= data[q]
    modifies data
    ensures forall p, q :: 0 <= p < q <= i ==> data[p] <= data[q]
    ensures multiset(data[..]) == multiset(old(data[..]))
  {
    var j := i;
    while j > 0 && data[j - 1] > data[j]
      invariant 0 <= j <= i
      invariant forall p, q :: 0 <= p < q <= i && q != j ==> data[p] <= data[q]
      invariant multiset(data[..]) == multiset(old(data[..]))
    {
      data[j - 1], data[j] := data[j], data[j - 1];
      j := j - 1;
    }
  }

  // ----- Percentiles -----

  function PercentileIndex(p: real, n: nat): (i: nat)
    requires 0.0 <= p <= 1.0 && n > 0
    ensures i < n
  {
    ProductBounds(p, (n - 1) as real);
    FloorBounds(p * ((n - 1) as real), n - 1);
    (p * ((n - 1) as real)).Floor
  }

  lemma FloorBounds(y: real, k: int)
    requires 0.0 <= y <= k as real
    ensures 0 <= y.Floor <= k
  {
  }

  lemma ProductBounds(p: real, x: real)
    requires 0.0 <= p <= 1.0 && 0.0 <= x
    ensures 0.0 <= p * x <= x
  {
  }

  lemma PercentileIndexRises(p: real, q: real, n: nat)
    requires 0.0 <= p <= q <= 1.0 && n > 0
    ensures PercentileIndex(p, n) <= PercentileIndex(q, n)
  {
    var x := (n - 1) as real;
    ProductBounds(q - p, x);
    assert p * x + (q - p) * x == q * x;
  }

  /** The summary of some samples; all zero if there are none. */
  function Summary(data: seq<int>): Snapshot {
    if data == [] then Snapshot(0, 0, 0, 0, 0, 0)
    else
      SortedSorts(data);
      var (s, n) := (Sorted(data), |data|);
      Snapshot(n, s[0],
        s[PercentileIndex(0.50, n)], s[PercentileIndex(0.95, n)], s[PercentileIndex(0.99, n)],
        s[n - 1])
  }

  function CountAtMost(xs: seq<int>, v: int): nat {
    if xs == [] then 0 else (if xs[0] <= v then 1 else 0) + CountAtMost(xs[1..], v)
  }

  function CountAtLeast(xs: seq<int>, v: int): nat {
    if xs == [] then 0 else (if xs[0] >= v then 1 else 0) + CountAtLeast(xs[1..], v)
  }

  lemma {:induction false} InsertKeepsCounts(x: int, xs: seq<int>, v: int)
    ensures CountAtMost(Insert(x, xs), v) == CountAtMost([x] + xs, v)
    ensures CountAtLeast(Insert(x, xs), v) == CountAtLeast([x] + xs, v)
  {
    assert ([x] + xs)[1..] == xs;
    if xs != [] && x > xs[0] {
      InsertKeepsCounts(x, xs[1..], v);
      var rest := Insert(x, xs[1..]);
      assert ([xs[0]] + rest)[1..] == rest;
      assert ([x] + xs[1..])[1..] == xs[1..];
    }
  }

  lemma {:induction false} SortedKeepsCounts(xs: seq<int>, v: int)
    ensures CountAtMost(Sorted(xs), v) == CountAtMost(xs, v)
    ensures CountAtLeast(Sorted(xs), v) == CountAtLeast(xs, v)
  {
    if xs != [] {
      SortedKeepsCounts(xs[1..], v);
      InsertKeepsCounts(xs[0], Sorted(xs[1..]), v);
      assert ([xs[0]] + Sorted(xs[1..]))[1..] == Sorted(xs[1..]);
    }
  }

  lemma {:induction false} CountsInAscending(xs: seq<int>, i: nat, v: int)
    requires Ascending(xs) && i < |xs|
    ensures v >= xs[i] ==> CountAtMost(xs, v) >= i + 1
    ensures v <= xs[i] ==> CountAtLeast(xs, v) >= |xs| - i
  {
    if |xs| > 1 {
      if i > 0 {
        CountsInAscending(xs[1..], i - 1, v);
      } else {
        CountsInAscending(xs[1..], 0, v);
        assert xs[0] <= xs[1];
      }
    }
  }

  /** The value the summary reports for `p` is a true order statistic of the
      samples: enough of them lie on either side of it. */
  lemma {:induction false} PercentileIsOrderStatistic(data: seq<int>, p: real)
    requires data != [] && 0.0 <= p <= 1.0
    ensures |Sorted(data)| == |data|
    ensures var (i, n) := (PercentileIndex(p, |data|), |data|);
      var v := Sorted(data)[i];
      v in data && CountAtMost(data, v) >= i + 1 && CountAtLeast(data, v) >= n - i
  {
    SortedSorts(data);
    var i := PercentileIndex(p, |data|);
    var v := Sorted(data)[i];
    assert v in multiset(Sorted(data));
    CountsInAscending(Sorted(data), i, v);
    SortedKeepsCounts(data, v);
  }

  lemma SortedExtremes(data: seq<int>)
    requires data != []
    ensures |Sorted(data)| == |data|
    ensures var (s, n) := (Sorted(data), |data|);
      s[0] in data && s[n - 1] in data && forall x :: x in data ==> s[0] <= x <= s[n - 1]
  {
    SortedSorts(data);
    var (s, n) := (Sorted(data), |data|);
    assert s[0] in multiset(s) && s[n - 1] in multiset(s);
    forall x | x in data ensures s[0] <= x <= s[n - 1] {
      assert x in multiset(data);
      assert x in s;
    }
  }

  /** The summary is in order, and its extremes are those of the samples. */
  lemma SummaryInOrder(data: seq<int>)
    requires data != []
    ensures var s := Summary(data);
      && s.count == |data|
      && s.min <= s.p50 <= s.p95 <= s.p99 <= s.max
      && s.min in data && s.max in data
      && forall x :: x in data ==> s.min <= x <= s.max
  {
    SortedSorts(data);
    SortedExtremes(data);
    PercentileIndexRises(0.50, 0.95, |data|);
    PercentileIndexRises(0.95, 0.99, |data|);
  }

  /** The positions of the three percentiles, in whole numbers. */
  lemma PercentilePositions(n: nat)
    requires n > 0
    ensures 2 * PercentileIndex(0.50, n) <= n - 1 < 2 * PercentileIndex(0.50, n) + 2
    ensures 100 * PercentileIndex(0.95, n) <= 95 * (n - 1) < 100 * PercentileIndex(0.95, n) + 100
    ensures 100 * PercentileIndex(0.99, n) <= 99 * (n - 1) < 100 * PercentileIndex(0.99, n) + 100
  {
  }

  /** What a summary says of the samples, on the samples alone: how many there are,
      their extremes, and three of them with so many samples at most as large and so
      many at least as large that, were all different, no other sample would do. */
  ghost predicate Describes(s: Snapshot, data: seq<int>) {
    var n := |data|;
    && s.count == n
    && s.min in data && s.p50 in data && s.p95 in data && s.p99 in data && s.max in data
    && (forall x :: x in data ==> s.min <= x <= s.max)
    && s.min <= s.p50 <= s.p95 <= s.p99 <= s.max
    && 2 * CountAtMost(data, s.p50) > n - 1 && 2 * CountAtLeast(data, s.p50) >= n + 1
    && 100 * CountAtMost(data, s.p95) > 95 * (n - 1) && 100 * CountAtLeast(data, s.p95) >= 5 * (n - 1) + 100
    && 100 * CountAtMost(data, s.p99) > 99 * (n - 1) && 100 * CountAtLeast(data, s.p99) >= (n - 1) + 100
  }

  lemma {:induction false} SummaryDescribes(data: seq<int>)
    requires data != []
    ensures Describes(Summary(data), data)
  {
    SummaryInOrder(data);
    PercentilePositions(|data|);
    PercentileIsOrderStatistic(data, 0.50);
    PercentileIsOrderStatistic(data, 0.95);
    PercentileIsOrderStatistic(data, 0.99);
  }

  // ----- The circular buffer -----

  /** The latest samples of a log, at most `capacity` of them. */
  function Latest(log: seq<int>, capacity: nat): seq<int> {
    if |log| <= capacity then log else log[|log| - capacity..]
  }

  lemma RotationPermutes(a: seq<int>, b: seq<int>)
    ensures multiset(a + b) == multiset(b + a)
  {
  }

  lemma LatestSlides(log: seq<int>, d: int, capacity: nat, oldest: int, others: seq<int>)
    requires 0 < capacity <= |log| && Latest(log, capacity) == [oldest] + others
    ensures Latest(log + [d], capacity) == others + [d]
  {
    assert Latest(log, capacity) == log[|log| - capacity..];
    assert Latest(log + [d], capacity) == log[|log| - capacity..][1..] + [d];
  }

  /** A summary of the last samples of the log, at most `capacity` of them. */
  ghost predicate DescribesLatest(s: Snapshot, log: seq<int>, capacity: nat) {
    if log == [] then s == Snapshot(0, 0, 0, 0, 0, 0)
    else if |log| <= capacity then Describes(s, log)
    else Describes(s, log[|log| - capacity..])
  }

  lemma {:induction false} LatestDescribed(log: seq<int>, capacity: nat)
    requires capacity > 0
    ensures DescribesLatest(Summary(Latest(log, capacity)), log, capacity)
  {
    if log != [] { SummaryDescribes(Latest(log, capacity)); }
  }

  class LatencyRecorder {
    const samples: array<int>
    var next: nat
    var full: bool
    /** Every sample ever recorded. */
    ghost var log: seq<int>

    /** Until it fills up the buffer is the log; from then on it is a rotation of the
        log's last stretch, `next` being where that stretch begins. */
    ghost predicate Valid()
      reads this, samples
    {
      && next < samples.Length
      && (full <==> |log| >= samples.Length)
      && (!full ==> samples[..next] == log)
      && (full ==> samples[next..] + samples[..next] == Latest(log, samples.Length))
    }

    constructor (capacity: int)
      ensures Valid() && fresh(samples) && log == []
      ensures samples.Length == if capacity <= 0 then 10000 else capacity
    {
      var c := if capacity <= 0 then DEFAULT_CAPACITY else capacity;
      samples := new int[c](_ => 0);
      next := 0;
      full := false;
      log := [];
    }

    method Record(d: int)
      requires Valid()
      modifies this, samples
      ensures Valid() && log == old(log) + [d]
    {
      ghost var was := samples[..];
      ghost var before := log;
      samples[next] := d;
      log := log + [d];
      next := next + 1;
      assert samples[..next] == was[..next - 1] + [d] && samples[next..] == was[next..];
      if old(full) {
        assert was[next - 1..] == [was[next - 1]] + was[next..];
        LatestSlides(before, d, samples.Length, was[next - 1], was[next..] + was[..next - 1]);
        assert samples[next..] + samples[..next] == Latest(log, samples.Length);
      }
      if next == samples.Length {
        next := 0;
        full := true;
        assert samples[0..] + samples[..0] == samples[..samples.Length];
      }
    }

    /** What the buffer holds is a rearrangement of the latest samples. */
    lemma {:induction false} HoldsLatest()
      requires Valid()
      ensures multiset(samples[..if full then samples.Length else next]) ==
        multiset(Latest(log, samples.Length))
    {
      if full {
        assert samples[..samples.Length] == samples[..next] + samples[next..];
        RotationPermutes(samples[..next], samples[next..]);
      }
    }

    /** Copies what the buffer holds; the part done under the lock. */
    method Copy() returns (data: array<int>)
      requires Valid()
      ensures fresh(data) && data.Length == |Latest(log, samples.Length)|
      ensures multiset(data[..]) == multiset(Latest(log, samples.Length))
    {
      var n := if full then samples.Length else next;
      data := new int[n];
      for i := 0 to n
        invariant forall k :: 0 <= k < i ==> data[k] == samples[k]
      {
        data[i] := samples[i];
      }
      assert data[..] == samples[..n];
      HoldsLatest();
    }

    /** Summarises exactly the latest samples, at most as many as the buffer holds. */
    method TakeSnapshot() returns (s: Snapshot)
      requires Valid()
      ensures s == Summary(Latest(log, samples.Length))
      ensures DescribesLatest(s, log, samples.Length)
    {
      var data := Copy();
      LatestSummary(data[..], log, samples.Length);
      s := Summarise(data);
      LatestDescribed(log, samples.Length);
    }
  }

  lemma LatestSummary(data: seq<int>, log: seq<int>, capacity: nat)
    requires multiset(data) == multiset(Latest(log, capacity))
    ensures Summary(data) == Summary(Latest(log, capacity))
  {
    SortedPermuted(data, Latest(log, capacity));
    assert |multiset(data)| == |data|;
    assert |multiset(Latest(log, capacity))| == |Latest(log, capacity)|;
  }

  /** Sorts the samples and picks the summary out of them. */
  method Summarise(data: array<int>) returns (s: Snapshot)
    modifies data
    ensures s == Summary(old(data[..]))
  {
    var n := data.Length;
    if n == 0 {
      return Snapshot(0, 0, 0, 0, 0, 0);
    }
    SortSlice(data);
    return Snapshot(n, data[0],
      data[PercentileIndex(0.50, n)], data[PercentileIndex(0.95, n)], data[PercentileIndex(0.99, n)],
      data[n - 1]);
  }
}
