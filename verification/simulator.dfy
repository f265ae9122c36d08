/** The simulator: sensor generators that number their own messages, and a round
    robin over them. Its output is the lossless in-order stream the pool's results
    about such streams start from. */
module Simulator {
  import opened Protocol
  import opened Pool
  import opened Accounting
  import opened PoolInvariants
  import Lossless
  import Tracker

  // ----- Round-robin arithmetic -----

  /** How many of the first `k` turns fall to generator `j` of `g`. */
  function Emitted(k: nat, j: nat, g: nat): nat
    requires j < g
  {
    if k == 0 then 0 else Emitted(k - 1, j, g) + if (k - 1) % g == j then 1 else 0
  }

  lemma {:induction false} NextTurn(k: nat, g: nat)
    requires g > 0
    ensures (k + 1) / g == k / g + if k % g == g - 1 then 1 else 0
    ensures (k + 1) % g == if k % g == g - 1 then 0 else k % g + 1
  {
    var q, r := k / g, k % g;
    assert k == g * q + r;
    if r == g - 1 {
      assert k + 1 == g * (q + 1);
      Division(k + 1, g, q + 1, 0);
    } else {
      Division(k + 1, g, q, r + 1);
    }
  }

  lemma {:induction false} Division(k: int, g: int, q: int, r: int)
    requires g > 0 && 0 <= r < g && k == g * q + r
    ensures k / g == q && k % g == r
  {
    var q', r' := k / g, k % g;
    assert k == g * q' + r';
    Product(g, q, q');
    Product(g, q', q);
  }

  lemma {:induction false} Product(g: int, a: int, b: int)
    requires g > 0
    ensures a > b ==> g * a >= g * b + g
    decreases a - b
  {
    if a > b {
      Distribute(g, a - 1);
      Product(g, a - 1, b);
    }
  }

  lemma Distribute(g: int, a: int)
    ensures g * (a + 1) == g * a + g
  {
  }

  lemma {:induction false} EmittedQuotient(k: nat, j: nat, g: nat)
    requires j < g
    ensures Emitted(k, j, g) == k / g + if k % g > j then 1 else 0
  {
    if k == 0 {
      Division(0, g, 0, 0);
    } else {
      EmittedQuotient(k - 1, j, g);
      NextTurn(k - 1, g);
    }
  }

  /** Generator `j` has had the ceiling of (k - j) / g turns, none if k <= j; so any
      two generators differ by at most one. */
  lemma {:induction false} RoundRobinIsFair(k: nat, i: nat, j: nat, g: nat)
    requires i < g && j < g
    ensures Emitted(k, j, g) == if k <= j then 0 else (k - j + g - 1) / g
    ensures -1 <= Emitted(k, i, g) - Emitted(k, j, g) <= 1
  {
    EmittedCeiling(k, j, g);
    DifferByOne(k, i, j, g);
  }

  lemma DifferByOne(k: nat, i: nat, j: nat, g: nat)
    requires i < g && j < g
    ensures -1 <= Emitted(k, i, g) - Emitted(k, j, g) <= 1
  {
    EmittedQuotient(k, i, g);
    EmittedQuotient(k, j, g);
  }

  lemma {:induction false} EmittedCeiling(k: nat, j: nat, g: nat)
    requires j < g
    ensures Emitted(k, j, g) == if k <= j then 0 else (k - j + g - 1) / g
  {
    EmittedQuotient(k, j, g);
    Euclid(k, g);
    CeilingByQuotient(k, j, g, k / g, k % g);
  }

  lemma {:induction false} Euclid(k: nat, g: nat)
    requires g > 0
    ensures k == g * (k / g) + k % g && 0 <= k / g && 0 <= k % g < g
  {
  }

  lemma {:induction false} CeilingByQuotient(k: nat, j: nat, g: nat, q: nat, r: nat)
    requires j < g && r < g && k == g * q + r
    ensures (q + if r > j then 1 else 0) == if k <= j then 0 else (k - j + g - 1) / g
  {
    Product(g, q, 0);
    if k <= j {
      assert q == 0;
    } else if r > j {
      assert g * (q + 1) == g * q + g;
      Division(k - j + g - 1, g, q + 1, r - j - 1);
    } else {
      Division(k - j + g - 1, g, q, r - j + g - 1);
    }
  }

  // ----- Generators -----

  class Generator {
    const id: string
    const sensorType: string
    var sequence: Uint64

    constructor (id: string, sensorType: string)
      ensures this.id == id && this.sensorType == sensorType && sequence == 0
    {
      this.id := id;
      this.sensorType := sensorType;
      sequence := 0;
    }

    /** The next message; `payload` is what its parser will make of the readings. */
    method Next(payload: Verdict) returns (m: Msg)
      modifies this`sequence
      ensures sequence == (old(sequence) + 1) % 0x1_0000_0000_0000_0000
      ensures m == Msg(id, sensorType, sequence, payload)
    {
      sequence := Add64(sequence, 1);
      m := Msg(id, sensorType, sequence, payload);
    }
  }

  // ----- The roster of sensors -----

  const KNOWN_TYPES := ["gps", "drone", "vehicle", "temperature"]

  function Decimal(n: nat): (d: string)
    ensures d != []
  {
    if n < 10 then [('0' as int + n) as char]
    else Decimal(n / 10) + [('0' as int + n % 10) as char]
  }

  lemma {:induction false} DecimalInjective(a: nat, b: nat)
    requires Decimal(a) == Decimal(b)
    ensures a == b
  {
    var d := Decimal(a);
    if a < 10 || b < 10 {
      assert |d| == 1;
    } else {
      assert d[..|d| - 1] == Decimal(a / 10) && d[..|d| - 1] == Decimal(b / 10);
      assert d[|d| - 1] == ('0' as int + a % 10) as char == ('0' as int + b % 10) as char;
      DecimalInjective(a / 10, b / 10);
    }
  }

  /** The number a string of decimal digits stands for. */
  function NumberRead(d: string): int {
    if d == [] then 0 else 10 * NumberRead(d[..|d| - 1]) + (d[|d| - 1] as int - '0' as int)
  }

  /** `Decimal` writes numbers the usual way: digits only, no leading zero, and they
      read as the number. */
  lemma {:induction false} DecimalReads(n: nat)
    ensures NumberRead(Decimal(n)) == n
    ensures forall i :: 0 <= i < |Decimal(n)| ==> '0' <= Decimal(n)[i] <= '9'
    ensures Decimal(n)[0] == '0' ==> n == 0
  {
    var d := Decimal(n);
    if n < 10 {
      assert d[..0] == [];
    } else {
      DecimalReads(n / 10);
      assert d[..|d| - 1] == Decimal(n / 10);
      assert d[0] == Decimal(n / 10)[0];
    }
  }

  function Name(sensorType: string, i: nat): string {
    sensorType + "-" + Decimal(i)
  }

  /** The name is one this type's sensors are given; by `NameInjective` no other
      type's are. */
  ghost predicate NamedAfter(id: string, sensorType: string) {
    sensorType in KNOWN_TYPES && exists i: nat :: id == Name(sensorType, i)
  }

  lemma NameInjective(t: string, i: nat, u: string, j: nat)
    requires t in KNOWN_TYPES && u in KNOWN_TYPES && Name(t, i) == Name(u, j)
    ensures t == u && i == j
  {
    assert Name(t, i)[0] == t[0] && Name(u, j)[0] == u[0];
    assert Name(t, i)[|t| + 1..] == Decimal(i) && Name(u, j)[|u| + 1..] == Decimal(j);
    DecimalInjective(i, j);
  }

  /** The names of `n` sensors of one type. */
  function Names(sensorType: string, n: nat): seq<string> {
    if n == 0 then [] else Names(sensorType, n - 1) + [Name(sensorType, n - 1)]
  }

  /** The names of all sensors, type by type; unknown types have none. */
  function Roster(types: seq<string>, n: nat): seq<string> {
    if types == [] then []
    else
      var t := types[|types| - 1];
      Roster(types[..|types| - 1], n) + if t in KNOWN_TYPES then Names(t, n) else []
  }

  lemma {:induction false} NamesHas(t: string, n: nat, i: nat)
    requires i < n
    ensures Name(t, i) in Names(t, n)
  {
    if i < n - 1 { NamesHas(t, n - 1, i); }
  }

  lemma {:induction false} NamesMember(t: string, n: nat, x: string) returns (i: nat)
    requires x in Names(t, n)
    ensures i < n && x == Name(t, i)
  {
    if x == Name(t, n - 1) { i := n - 1; } else { i := NamesMember(t, n - 1, x); }
  }

  lemma {:induction false} NamesDistinct(t: string, n: nat)
    requires t in KNOWN_TYPES
    ensures Distinct(Names(t, n))
  {
    if n > 0 {
      NamesDistinct(t, n - 1);
      if Name(t, n - 1) in Names(t, n - 1) {
        var i := NamesMember(t, n - 1, Name(t, n - 1));
        NameInjective(t, n - 1, t, i);
      }
    }
  }

  lemma {:induction false} RosterHas(types: seq<string>, n: nat, k: nat, i: nat)
    requires k < |types| && types[k] in KNOWN_TYPES && i < n
    ensures Name(types[k], i) in Roster(types, n)
  {
    var last := |types| - 1;
    if k < last {
      RosterHas(types[..last], n, k, i);
    } else {
      NamesHas(types[k], n, i);
    }
  }

  lemma {:induction false} RosterMember(types: seq<string>, n: nat, x: string) returns (k: nat, i: nat)
    requires x in Roster(types, n)
    ensures k < |types| && types[k] in KNOWN_TYPES && i < n && x == Name(types[k], i)
  {
    var last := |types| - 1;
    if x in Roster(types[..last], n) {
      k, i := RosterMember(types[..last], n, x);
    } else {
      k := last;
      i := NamesMember(types[last], n, x);
    }
  }

  lemma DistinctConcat(a: seq<string>, b: seq<string>)
    ensures Distinct(a + b) <==> Distinct(a) && Distinct(b) && forall x :: x in a ==> x !in b
  {
    var c := a + b;
    if Distinct(c) {
      forall i, j | 0 <= i < j < |a| ensures a[i] != a[j] { assert c[i] != c[j]; }
      forall i, j | 0 <= i < j < |b| ensures b[i] != b[j] { assert c[|a| + i] != c[|a| + j]; }
      forall x | x in a ensures x !in b {
        var i :| 0 <= i < |a| && a[i] == x;
        forall j | 0 <= j < |b| ensures b[j] != x { assert c[i] != c[|a| + j]; }
      }
    }
    if Distinct(a) && Distinct(b) && (forall x :: x in a ==> x !in b) {
      forall i, j | 0 <= i < j < |c| ensures c[i] != c[j] {
        if i < |a| && |a| <= j {
          assert c[i] in a && c[j] in b;
        }
      }
    }
  }

  /** The types the simulator has generators for. */
  predicate Known(sensorType: string) {
    sensorType == "gps" || sensorType == "drone" || sensorType == "vehicle" || sensorType == "temperature"
  }

  function KnownOnly(types: seq<string>): seq<string> {
    if types == [] then []
    else KnownOnly(types[..|types| - 1]) + if Known(types[|types| - 1]) then [types[|types| - 1]] else []
  }

  lemma {:induction false} NamesAt(t: string, n: nat, i: nat)
    requires i < n
    ensures |Names(t, n)| == n && Names(t, n)[i] == t + "-" + Decimal(i)
  {
    if i < n - 1 {
      NamesAt(t, n - 1, i);
    } else if n > 1 {
      NamesAt(t, n - 1, 0);
    }
  }

  /** Listing unknown types makes no difference, */
  lemma {:induction false} UnknownSkipped(types: seq<string>, n: nat)
    ensures Roster(types, n) == Roster(KnownOnly(types), n)
    ensures forall k :: 0 <= k < |KnownOnly(types)| ==> Known(KnownOnly(types)[k])
  {
    if types != [] {
      var before, t := types[..|types| - 1], types[|types| - 1];
      UnknownSkipped(before, n);
      if Known(t) {
        assert KnownOnly(types)[..|KnownOnly(before)|] == KnownOnly(before);
      } else {
        assert KnownOnly(types) == KnownOnly(before);
        assert Roster(types, n) == Roster(before, n);
      }
    }
  }

  /** and of known ones, the `i`-th sensor of the `k`-th has its place and its name. */
  lemma {:induction false} RosterAt(types: seq<string>, n: nat, k: nat, i: nat)
    requires forall j :: 0 <= j < |types| ==> Known(types[j])
    requires k < |types| && i < n
    ensures |Roster(types, n)| == n * |types| && n * k + i < n * |types|
    ensures Roster(types, n)[n * k + i] == types[k] + "-" + Decimal(i)
  {
    var before, t := types[..|types| - 1], types[|types| - 1];
    NamesAt(t, n, i);
    RosterSize(types, n);
    RosterSize(before, n);
    Product(n, |types|, k);
    if k < |before| {
      RosterAt(before, n, k, i);
    }
  }

  lemma {:induction false} RosterSize(types: seq<string>, n: nat)
    requires forall j :: 0 <= j < |types| ==> Known(types[j])
    ensures |Roster(types, n)| == n * |types|
  {
    if types != [] {
      var before := types[..|types| - 1];
      RosterSize(before, n);
      if n > 0 { NamesAt(types[|types| - 1], n, 0); }
      Distribute(n, |before|);
    }
  }

  /** No known type is listed twice. */
  ghost predicate NoTypeTwice(types: seq<string>) {
    forall i, j :: 0 <= i < j < |types| && types[i] in KNOWN_TYPES ==> types[i] != types[j]
  }

  lemma NoTypeTwiceSnoc(types: seq<string>, t: string)
    ensures NoTypeTwice(types + [t]) <==> NoTypeTwice(types) && !(t in KNOWN_TYPES && t in types)
  {
    var all := types + [t];
    if NoTypeTwice(all) {
      forall i, j | 0 <= i < j < |types| && types[i] in KNOWN_TYPES ensures types[i] != types[j] {
        assert all[i] != all[j];
      }
      forall i | 0 <= i < |types| && t in KNOWN_TYPES ensures types[i] != t {
        assert all[i] in KNOWN_TYPES ==> all[i] != all[|types|];
      }
    }
  }

  lemma {:induction false} NewNames(types: seq<string>, n: nat, t: string)
    requires t in KNOWN_TYPES && t !in types
    ensures forall x :: x in Roster(types, n) ==> x !in Names(t, n)
  {
    forall x | x in Roster(types, n) ensures x !in Names(t, n) {
      if x in Names(t, n) {
        var k, i := RosterMember(types, n, x);
        var j := NamesMember(t, n, x);
        NameInjective(types[k], i, t, j);
      }
    }
  }

  lemma {:induction false} OldNames(types: seq<string>, n: nat, t: string)
    requires n > 0 && t in KNOWN_TYPES && t in types
    ensures exists x :: x in Roster(types, n) && x in Names(t, n)
  {
    var k :| 0 <= k < |types| && types[k] == t;
    RosterHas(types, n, k, 0);
    NamesHas(t, n, 0);
  }

  /** Two simulated sensors share a name exactly when a known type is listed twice
      (and there is any sensor at all); nothing in the configuration forbids it. */
  lemma {:induction false} NamesDistinctExactly(types: seq<string>, n: nat)
    requires n > 0
    ensures Distinct(Roster(types, n)) <==> NoTypeTwice(types)
  {
    if types != [] {
      var before, t := types[..|types| - 1], types[|types| - 1];
      assert types == before + [t];
      NamesDistinctExactly(before, n);
      NoTypeTwiceSnoc(before, t);
      if t in KNOWN_TYPES {
        DistinctConcat(Roster(before, n), Names(t, n));
        NamesDistinct(t, n);
        if t in before { OldNames(before, n, t); } else { NewNames(before, n, t); }
      } else {
        assert Roster(types, n) == Roster(before, n);
      }
    }
  }

  // ----- Runs -----

  /** Turn `n` of a run is generator `n mod g`'s, whose messages are numbered by its turns. */
  ghost predicate NumberedByTurn(out: seq<Msg>, ids: seq<string>) {
    && (ids == [] ==> out == [])
    && forall n: nat :: n < |out| ==>
      && out[n].sensorID == ids[n % |ids|]
      && out[n].sequence == Emitted(n, n % |ids|, |ids|) + 1
  }

  /** A uint64 counter after `k` increments. */
  function CountUp(base: Uint64, k: nat): Uint64 {
    if k == 0 then base else Add64(CountUp(base, k - 1), 1)
  }

  lemma {:induction false} CountUpUnwrapped(base: Uint64, k: nat)
    requires base + k < MODULUS
    ensures CountUp(base, k) == base + k
  {
    if k > 0 {
      CountUpUnwrapped(base, k - 1);
    }
  }

  lemma OneMoreWraps(x: nat)
    ensures Add64(x % 0x1_0000_0000_0000_0000, 1) == (x + 1) % 0x1_0000_0000_0000_0000
  {
  }

  /** Counting up wraps at 2^64. */
  lemma {:induction false} CountUpWraps(base: Uint64, k: nat)
    ensures CountUp(base, k) == (base + k) % 0x1_0000_0000_0000_0000
  {
    if k > 0 {
      CountUpWraps(base, k - 1);
      OneMoreWraps(base + (k - 1));
    }
  }

  /** Each message is of its generator's type, and carries its reading. */
  ghost predicate Carries(out: seq<Msg>, types: seq<string>, payload: nat -> Verdict) {
    && (types == [] ==> out == [])
    && forall n: nat :: n < |out| ==>
      out[n].sensorType == types[n % |types|] && out[n].payload == payload(n)
  }

  lemma CarriesSnoc(out: seq<Msg>, types: seq<string>, payload: nat -> Verdict, m: Msg)
    requires types != [] && Carries(out, types, payload)
    requires m.sensorType == types[|out| % |types|] && m.payload == payload(|out|)
    ensures Carries(out + [m], types, payload)
  {
  }

  /** The counters of generators that have produced nothing yet. */
  function Zeros(n: nat): (ns: seq<Uint64>)
    ensures |ns| == n && forall i :: 0 <= i < n ==> ns[i] == 0
  {
    seq(n, _ => 0)
  }

  /** The same for generators that have already produced the given numbers; a
      generator's counter is a uint64 and wraps. */
  ghost predicate NumberedFrom(out: seq<Msg>, ids: seq<string>, bases: seq<Uint64>)
    requires |ids| == |bases|
  {
    && (ids == [] ==> out == [])
    && forall n: nat :: n < |out| ==>
      && out[n].sensorID == ids[n % |ids|]
      && out[n].sequence == CountUp(bases[n % |ids|], Emitted(n, n % |ids|, |ids|) + 1)
  }

  lemma {:induction false} NumberedSnoc(out: seq<Msg>, ids: seq<string>, bases: seq<Uint64>, m: Msg)
    requires |ids| == |bases| && ids != [] && NumberedFrom(out, ids, bases)
    requires var j := |out| % |ids|;
      m.sensorID == ids[j] && m.sequence == CountUp(bases[j], Emitted(|out|, j, |ids|) + 1)
    ensures NumberedFrom(out + [m], ids, bases)
  {
  }

  /** A fresh simulator's run, short of 2^64 messages, is numbered by turns from 1. */
  lemma {:induction false} FreshIsNumberedByTurn(out: seq<Msg>, ids: seq<string>)
    requires NumberedFrom(out, ids, Zeros(|ids|)) && |out| < MODULUS
    ensures NumberedByTurn(out, ids)
  {
    forall n: nat | n < |out|
      ensures out[n].sensorID == ids[n % |ids|] && out[n].sequence == Emitted(n, n % |ids|, |ids|) + 1
    {
      EmittedAtMost(n, n % |ids|, |ids|);
      CountUpUnwrapped(0, Emitted(n, n % |ids|, |ids|) + 1);
    }
  }

  // ----- When the streams are lossless -----

  /** No other generator that has had one of the first `turns` turns has the name of
      generator `j`. */
  ghost predicate Alone(ids: seq<string>, turns: nat, j: nat)
    requires j < |ids|
  {
    forall i :: 0 <= i < |ids| && i < turns && i != j ==> ids[i] != ids[j]
  }

  lemma {:induction false} AloneIsLossless(out: seq<Msg>, ids: seq<string>, j: nat)
    requires j < |ids| && NumberedByTurn(out, ids) && Alone(ids, |out|, j)
    ensures var ss := SeqsOf(out, ids[j]);
      |ss| == Emitted(|out|, j, |ids|) && Lossless.Consecutive(ss, 1)
  {
    if out != [] {
      var n := |out| - 1;
      AloneIsLossless(out[..n], ids, j);
      assert out[n].sensorID == ids[n % |ids|];
      TurnAtMost(n, |ids|);
    }
  }

  lemma {:induction false} TurnAtMost(n: nat, g: nat)
    requires g > 0
    ensures n % g <= n
  {
    if n < g { Division(n, g, 0, n); }
  }

  /** Each generator's first message is its number one. */
  lemma FirstTurn(out: seq<Msg>, ids: seq<string>, i: nat)
    requires i < |ids| && i < |out| && NumberedByTurn(out, ids)
    ensures out[i].sensorID == ids[i] && out[i].sequence == 1
  {
    Division(i, |ids|, 0, i);
    EmittedQuotient(i, i, |ids|);
  }

  lemma {:induction false} SeqsAround(a: seq<Msg>, m: Msg, b: seq<Msg>)
    ensures SeqsOf(a + [m] + b, m.sensorID) == SeqsOf(a, m.sensorID) + [m.sequence] + SeqsOf(b, m.sensorID)
  {
    Lossless.SeqsOfAppend(a + [m], b, m.sensorID);
    SeqsOfSnoc(a, m, m.sensorID);
  }

  /** A number that occurs twice spoils a stream wherever it is taken to begin. */
  lemma {:induction false} TwiceIsNotLossless(out: seq<Msg>, i: nat, j: nat, s0: Uint64)
    requires i < j < |out| && out[i].sensorID == out[j].sensorID && out[i].sequence == out[j].sequence
    ensures !Lossless.Consecutive(SeqsOf(out, out[j].sensorID), s0)
  {
    var (a, m, b) := (out[..j], out[j], out[j + 1..]);
    assert out == a + [m] + b;
    SeqsAround(a, m, b);
    assert a[i] == out[i];
    SeqsOfHas(a, i);
    var before := SeqsOf(a, m.sensorID);
    var k :| 0 <= k < |before| && before[k] == m.sequence;
    var ss := SeqsOf(out, m.sensorID);
    assert ss[k] == before[k] && ss[|before|] == m.sequence;
  }

  /** The messages under a generator's name are exactly 1, 2, 3, ..., as many as it has
      had turns, if no other generator shares the name; and if one does, once both
      have had a turn, they are not consecutive from any number at all. */
  lemma {:induction false} SensorStream(out: seq<Msg>, ids: seq<string>, j: nat)
    requires j < |ids| && NumberedByTurn(out, ids)
    ensures Alone(ids, |out|, j) ==>
      |SeqsOf(out, ids[j])| == Emitted(|out|, j, |ids|) && Lossless.Consecutive(SeqsOf(out, ids[j]), 1)
    ensures !Alone(ids, |out|, j) && j < |out| ==>
      forall s0 :: !Lossless.Consecutive(SeqsOf(out, ids[j]), s0)
  {
    if Alone(ids, |out|, j) {
      AloneIsLossless(out, ids, j);
    } else if j < |out| {
      var i :| 0 <= i < |ids| && i < |out| && i != j && ids[i] == ids[j];
      FirstTurn(out, ids, i);
      FirstTurn(out, ids, j);
      forall s0 ensures !Lossless.Consecutive(SeqsOf(out, ids[j]), s0) {
        TwiceIsNotLossless(out, if i < j then i else j, if i < j then j else i, s0);
      }
    }
  }

  /** So the jobs that carry a simulator's output, in order, form a lossless stream for
      a sensor, exactly if its name is its own. */
  lemma {:induction false} OutputIsLossless(js: seq<Job>, ids: seq<string>, j: nat)
    requires j < |ids| && NumberedByTurn(MsgsIn(js), ids)
    ensures Alone(ids, |MsgsIn(js)|, j) ==>
      Lossless.Stream(js, ids[j], 1) && |Lossless.Numbers(js, ids[j])| == Emitted(|MsgsIn(js)|, j, |ids|)
    ensures !Alone(ids, |MsgsIn(js)|, j) && j < |MsgsIn(js)| ==>
      forall s0 :: !Lossless.Stream(js, ids[j], s0)
  {
    SensorStream(MsgsIn(js), ids, j);
  }

  ghost predicate AllLossless(out: seq<Msg>, ids: seq<string>) {
    forall j :: 0 <= j < |ids| ==> Lossless.Consecutive(SeqsOf(out, ids[j]), 1)
  }

  /** The generators that have had one of the first `turns` turns. */
  function Started(ids: seq<string>, turns: nat): seq<string> {
    if turns < |ids| then ids[..turns] else ids
  }

  /** All streams are lossless exactly if the generators started so far have names of
      their own. */
  lemma {:induction false} AllLosslessExactly(out: seq<Msg>, ids: seq<string>)
    requires NumberedByTurn(out, ids)
    ensures AllLossless(out, ids) <==> Distinct(Started(ids, |out|))
  {
    var begun := Started(ids, |out|);
    if Distinct(begun) {
      forall j | 0 <= j < |ids| ensures Lossless.Consecutive(SeqsOf(out, ids[j]), 1) {
        StartedIsLossless(out, ids, j);
      }
    } else {
      var i, j :| 0 <= i < j < |begun| && begun[i] == begun[j];
      FirstTurn(out, ids, i);
      FirstTurn(out, ids, j);
      TwiceIsNotLossless(out, i, j, 1);
    }
  }

  lemma {:induction false} StartedIsLossless(out: seq<Msg>, ids: seq<string>, j: nat)
    requires j < |ids| && NumberedByTurn(out, ids) && Distinct(Started(ids, |out|))
    ensures Lossless.Consecutive(SeqsOf(out, ids[j]), 1)
  {
    var begun := Started(ids, |out|);
    if i: nat :| i < |begun| && begun[i] == ids[j] {
      forall k | 0 <= k < |ids| && k < |out| && k != i ensures ids[k] != ids[i] {
        assert begun[k] != begun[i];
      }
      AloneIsLossless(out, ids, i);
    } else {
      forall k | 0 <= k < |ids| && k < |out| && k != j ensures ids[k] != ids[j] {
        assert begun[k] != ids[j];
      }
      AloneIsLossless(out, ids, j);
    }
  }

  /** In terms of the configuration: once every generator has had a turn, all streams
      are lossless exactly if no known type is listed twice, or there are no sensors. */
  lemma {:induction false} LosslessByTypes(types: seq<string>, n: nat, out: seq<Msg>)
    requires NumberedByTurn(out, Roster(types, n)) && |Roster(types, n)| <= |out|
    ensures AllLossless(out, Roster(types, n)) <==> n == 0 || NoTypeTwice(types)
  {
    AllLosslessExactly(out, Roster(types, n));
    if n > 0 {
      NamesDistinctExactly(types, n);
    } else {
      NoSensors(types);
    }
  }

  lemma {:induction false} NoSensors(types: seq<string>)
    ensures Roster(types, 0) == []
  {
    if types != [] {
      NoSensors(types[..|types| - 1]);
    }
  }

  /** The smallest such configuration: two generators of one name, whose first two
      messages the tracker takes for one message and its duplicate. */
  lemma RepeatedTypeExample(out: seq<Msg>)
    requires |out| == 2 && NumberedByTurn(out, Roster(["gps", "gps"], 1))
    ensures Roster(["gps", "gps"], 1) == ["gps-0", "gps-0"]
    ensures SeqsOf(out, "gps-0") == [1, 1]
    ensures Tracker.Run(SeqsOf(out, "gps-0")).duplicates == 1
  {
    var types := ["gps", "gps"];
    assert types[..1] == ["gps"] && types[..1][..0] == [];
    assert Decimal(0) == "0" && "gps" + "-" + "0" == "gps-0";
    assert Names("gps", 1) == [] + [Name("gps", 0)] == ["gps-0"];
    var ids := ["gps-0", "gps-0"];
    assert Roster(types[..1], 1) == ["gps-0"];
    FirstTurn(out, ids, 0);
    FirstTurn(out, ids, 1);
    assert out[..1] == [out[0]] && out[..1][..0] == [];
    assert SeqsOf(out[..1], "gps-0") == [1];
    assert SeqsOf(out, "gps-0") == [1, 1];
    assert [1 as Uint64, 1][..1] == [1];
  }

  class Simulator {
    var generators: seq<Generator>

    ghost predicate Valid()
      reads this
    {
      forall i, j :: 0 <= i < j < |generators| ==> generators[i] != generators[j]
    }

    ghost function IDs(): (ids: seq<string>)
      reads this
      ensures |ids| == |generators|
      ensures forall i :: 0 <= i < |ids| ==> ids[i] == generators[i].id
    {
      seq(|generators|, i requires 0 <= i < |generators| reads this => generators[i].id)
    }

    ghost function Types(): (ts: seq<string>)
      reads this
      ensures |ts| == |generators|
      ensures forall i :: 0 <= i < |ts| ==> ts[i] == generators[i].sensorType
    {
      seq(|generators|, i requires 0 <= i < |generators| reads this => generators[i].sensorType)
    }

    ghost function Sequences(): (ns: seq<Uint64>)
      reads this, generators
      ensures |ns| == |generators|
      ensures forall i :: 0 <= i < |ns| ==> ns[i] == generators[i].sequence
    {
      seq(|generators|, i requires 0 <= i < |generators| reads this, generators => generators[i].sequence)
    }

    /** One generator for each sensor of each known type, named type by type; with no
        types given, all known ones. */
    constructor (sensorTypes: seq<string>, numberOfSensors: int)
      ensures Valid() && fresh(set g | g in generators)
      ensures IDs() == Roster(
        if sensorTypes == [] then ["gps", "drone", "vehicle", "temperature"] else sensorTypes,
        if numberOfSensors < 0 then 0 else numberOfSensors)
      ensures AllNew()
    {
      generators := [];
      new;
      var types := if sensorTypes == [] then KNOWN_TYPES else sensorTypes;
      var n := if numberOfSensors < 0 then 0 else numberOfSensors;
      for k := 0 to |types|
        invariant Valid() && fresh(set g | g in generators)
        invariant IDs() == Roster(types[..k], n) && AllNew()
      {
        assert types[..k + 1][..k] == types[..k];
        ghost var before := IDs();
        for i := 0 to n
          invariant Valid() && fresh(set g | g in generators)
          invariant IDs() == before + if types[k] in KNOWN_TYPES then Names(types[k], i) else []
          invariant AllNew()
        {
          if types[k] !in KNOWN_TYPES {
            continue;
          }
          AddGenerator(types[k], i);
        }
      }
      assert types[..|types|] == types;
    }

    /** Each generator has its type, a name of that type, and nothing produced yet. */
    ghost predicate AllNew()
      reads this, generators
    {
      forall i :: 0 <= i < |generators| ==>
        generators[i].sequence == 0 && NamedAfter(generators[i].id, generators[i].sensorType)
    }

    method AddGenerator(sensorType: string, i: nat)
      requires Valid() && AllNew() && sensorType in KNOWN_TYPES
      modifies this
      ensures Valid() && AllNew() && fresh(set g | g in generators && g !in old(generators))
      ensures IDs() == old(IDs()) + [Name(sensorType, i)]
    {
      var gen := new Generator(Name(sensorType, i), sensorType);
      generators := generators + [gen];
    }

    /** After `n` turns each generator has counted up by the turns it had. */
    ghost predicate CountersAt(n: nat, bases: seq<Uint64>)
      reads this, generators
    {
      |bases| == |generators| &&
      forall j :: 0 <= j < |generators| ==>
        generators[j].sequence == CountUp(bases[j], Emitted(n, j, |generators|))
    }

    /** One turn of the round robin. */
    method Turn(generatorIndex: nat, v: Verdict, ghost n: nat, ghost bases: seq<Uint64>) returns (msg: Msg)
      requires Valid() && generators != [] && CountersAt(n, bases)
      requires generatorIndex == n % |generators|
      modifies generators
      ensures CountersAt(n + 1, bases)
      ensures msg.sensorID == generators[generatorIndex].id
      ensures msg.sensorType == generators[generatorIndex].sensorType && msg.payload == v
      ensures msg.sequence == CountUp(bases[generatorIndex], Emitted(n, generatorIndex, |generators|) + 1)
    {
      var gen := generators[generatorIndex];
      msg := gen.Next(v);
    }

    /** The loop as long as nothing cancels it. */
    method Deliver(ticks: nat, payload: nat -> Verdict, ghost ids: seq<string>, ghost bases: seq<Uint64>)
      returns (delivered: seq<Msg>, generatorIndex: nat)
      requires Valid() && generators != [] && CountersAt(0, bases)
      requires |ids| == |generators| && forall i :: 0 <= i < |ids| ==> ids[i] == generators[i].id
      modifies generators
      ensures |delivered| == ticks && generatorIndex == ticks % |generators|
      ensures NumberedFrom(delivered, ids, bases) && CountersAt(ticks, bases)
      ensures Carries(delivered, Types(), payload)
    {
      delivered, generatorIndex := [], 0;
      var n := 0;
      while n < ticks
        invariant n <= ticks && |delivered| == n
        invariant generatorIndex == n % |generators|
        invariant NumberedFrom(delivered, ids, bases) && CountersAt(n, bases)
        invariant Carries(delivered, Types(), payload)
      {
        var msg := Turn(generatorIndex, payload(n), n, bases);
        NumberedSnoc(delivered, ids, bases, msg);
        CarriesSnoc(delivered, Types(), payload, msg);
        delivered := delivered + [msg];
        Wraps(n, |generators|);
        generatorIndex := (generatorIndex + 1) % |generators|;
        n := n + 1;
      }
    }

    /** A run in which `ticks` messages are delivered before the context is cancelled;
        if `sending`, the cancellation catches the loop with one more message
        generated and not delivered. */
    method Run(ticks: nat, sending: bool, payload: nat -> Verdict)
      returns (delivered: seq<Msg>, totalSent: nat, started: bool)
      requires Valid()
      modifies generators
      ensures started <==> generators != []
      ensures !started ==> delivered == [] && totalSent == 0
      ensures started ==> |delivered| == ticks && totalSent == ticks + if sending then 1 else 0
      ensures NumberedFrom(delivered, IDs(), old(Sequences()))
      ensures started ==> CountersAt(totalSent, old(Sequences()))
      ensures Carries(delivered, Types(), payload)
    {
      if |generators| == 0 {
        return [], 0, false;
      }
      ghost var ids, bases := IDs(), Sequences();
      var generatorIndex;
      delivered, generatorIndex := Deliver(ticks, payload, ids, bases);
      totalSent, started := ticks, true;
      if sending {
        var msg := Turn(generatorIndex, payload(ticks), ticks, bases);
        totalSent := totalSent + 1;
      }
    }
  }

  lemma {:induction false} Wraps(n: nat, g: nat)
    requires g > 0
    ensures (n % g + 1) % g == (n + 1) % g
  {
    NextTurn(n, g);
    if n % g == g - 1 {
      Division(g, g, 1, 0);
    } else {
      Division(n % g + 1, g, 0, n % g + 1);
    }
  }

  lemma {:induction false} EmittedAtMost(k: nat, j: nat, g: nat)
    requires j < g
    ensures Emitted(k, j, g) <= k
  {
    if k > 0 {
      EmittedAtMost(k - 1, j, g);
    }
  }
}
