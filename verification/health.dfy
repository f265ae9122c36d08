/** The background monitor: the same scan, with the same timeout, at every tick, while
    the workers go on updating the store. */
module Health {
  import opened Store
  import opened StateStores
  import opened StoreLaws

  const DEFAULT_TIMEOUT := 5_000_000_000   // nanoseconds
  const DEFAULT_INTERVAL := 1_000_000_000

  /** One tick: the critical sections other goroutines have got in since the tick
      before, and the clock reading of the scan. */
  datatype Tick = Tick(others: seq<Op>, now: int)

  predicate NoScans(ops: seq<Op>) {
    forall i :: 0 <= i < |ops| ==> !ops[i].CheckStale?
  }

  /** The store's critical sections over some ticks, in order. */
  function Script(ticks: seq<Tick>, timeout: int): seq<Op> {
    if ticks == [] then []
    else
      var t := ticks[|ticks| - 1];
      Script(ticks[..|ticks| - 1], timeout) + t.others + [Op.CheckStale(t.now, timeout)]
  }

  lemma ReportsScan(ops: seq<Op>, now: int, timeout: int, id: string)
    ensures ReportCount(ops + [Op.CheckStale(now, timeout)], id) ==
      ReportCount(ops, id) + if id in NewlyStale(After(ops), now, timeout) then 1 else 0
  {
    assert (ops + [Op.CheckStale(now, timeout)])[..|ops|] == ops;
  }

  lemma {:induction false} ReportsElsewhere(ops: seq<Op>, others: seq<Op>, id: string)
    requires NoScans(others)
    ensures ReportCount(ops + others, id) == ReportCount(ops, id)
  {
    if others == [] {
      assert ops + others == ops;
    } else {
      var n := |others| - 1;
      ReportsElsewhere(ops, others[..n], id);
      assert (ops + others)[..|ops| + n] == ops + others[..n];
    }
  }

  lemma {:induction false} ListsCount(xs: seq<string>, ids: set<string>, id: string)
    requires Lists(xs, ids)
    ensures multiset(xs)[id] == if id in ids then 1 else 0
  {
    if xs != [] {
      var n := |xs| - 1;
      ListsCount(xs[..n], ids - {xs[n]}, id);
      assert xs == xs[..n] + [xs[n]];
    }
  }

  lemma OneMoreOther(history: seq<Op>, others: seq<Op>, i: nat)
    requires i < |others|
    ensures After(history + others[..i + 1]) == Apply(After(history + others[..i]), others[i])
  {
    AfterSnoc(history + others[..i], others[i]);
    assert (history + others[..i]) + [others[i]] == history + others[..i + 1];
  }

  /** The sensor was healthy before and is stale after. */
  predicate Fell(before: Store, after: Store, id: string) {
    id in before && id in after && before[id].status == Healthy && after[id].status == Stale
  }

  /** Each sensor is named as often as scans reported it since `before`. */
  ghost predicate Warns(warnings: seq<string>, before: seq<Op>, after: seq<Op>) {
    forall id :: multiset(warnings)[id] == ReportCount(after, id) - ReportCount(before, id)
  }

  /** Exactly the sensors that fell stale are named, each once. */
  ghost predicate NamesFallen(warnings: seq<string>, before: Store, after: Store) {
    forall id :: multiset(warnings)[id] == if Fell(before, after, id) then 1 else 0
  }

  ghost predicate Undisturbed(ticks: seq<Tick>) {
    forall i :: 0 <= i < |ticks| ==> ticks[i].others == []
  }

  /** A scan makes fall exactly the sensor it reports, and lets none rise. */
  lemma ScanFells(before: Store, st: Store, now: int, timeout: int, id: string)
    requires id in st <==> id in before
    requires id in before && before[id].status == Stale ==> st[id].status == Stale
    ensures var after := Apply(st, Op.CheckStale(now, timeout));
      && (id in after <==> id in before)
      && (id in st && st[id].status == Stale ==> after[id].status == Stale)
      && (Fell(before, after, id) <==> Fell(before, st, id) || id in NewlyStale(st, now, timeout))
      && !(Fell(before, st, id) && id in NewlyStale(st, now, timeout))
  {
  }

  /** With nothing but scans a sensor is reported once if it falls stale at all. */
  lemma {:induction false} QuietReports(history: seq<Op>, ticks: seq<Tick>, timeout: int, id: string)
    requires Undisturbed(ticks)
    ensures var ops := history + Script(ticks, timeout);
      && (id in After(ops) <==> id in After(history))
      && (id in After(history) && After(history)[id].status == Stale ==> After(ops)[id].status == Stale)
      && ReportCount(ops, id) - ReportCount(history, id) == if Fell(After(history), After(ops), id) then 1 else 0
  {
    if ticks == [] {
      assert history + Script(ticks, timeout) == history;
    } else {
      var n := |ticks| - 1;
      var prior := history + Script(ticks[..n], timeout);
      QuietReports(history, ticks[..n], timeout, id);
      assert history + Script(ticks, timeout) == prior + [Op.CheckStale(ticks[n].now, timeout)];
      ReportsScan(prior, ticks[n].now, timeout, id);
      AfterSnoc(prior, Op.CheckStale(ticks[n].now, timeout));
      ScanFells(After(history), After(prior), ticks[n].now, timeout, id);
    }
  }

  lemma QuietRun(history: seq<Op>, ticks: seq<Tick>, timeout: int, warnings: seq<string>)
    requires Undisturbed(ticks) && Warns(warnings, history, history + Script(ticks, timeout))
    ensures NamesFallen(warnings, After(history), After(history + Script(ticks, timeout)))
  {
    forall id
      ensures multiset(warnings)[id] ==
        if Fell(After(history), After(history + Script(ticks, timeout)), id) then 1 else 0
    {
      QuietReports(history, ticks, timeout, id);
    }
  }

  /** What one tick adds to the run, and its scan to the reports. */
  lemma TickReports(history: seq<Op>, ticks: seq<Tick>, timeout: int, i: nat, newlyStale: seq<string>)
    requires i < |ticks| && NoScans(ticks[i].others)
    requires Lists(newlyStale,
      NewlyStale(After(history + Script(ticks[..i], timeout) + ticks[i].others), ticks[i].now, timeout))
    ensures var (ops, scan) := (history + Script(ticks[..i], timeout), Op.CheckStale(ticks[i].now, timeout));
      && After(history + Script(ticks[..i + 1], timeout)) == Apply(After(ops + ticks[i].others), scan)
      && Warns(newlyStale, ops, history + Script(ticks[..i + 1], timeout))
  {
    var ops, scan := history + Script(ticks[..i], timeout), Op.CheckStale(ticks[i].now, timeout);
    var all := ops + ticks[i].others;
    assert ticks[..i + 1][..i] == ticks[..i];
    assert history + Script(ticks[..i + 1], timeout) == all + [scan];
    AfterSnoc(all, scan);
    forall id ensures multiset(newlyStale)[id] == ReportCount(all + [scan], id) - ReportCount(ops, id) {
      ListsCount(newlyStale, NewlyStale(After(all), ticks[i].now, timeout), id);
      ReportsElsewhere(ops, ticks[i].others, id);
      ReportsScan(all, ticks[i].now, timeout, id);
    }
  }

  class Monitor {
    const staleTimeout: int
    const checkInterval: int
    const store: StateStore

    constructor (staleTimeout: int, checkInterval: int, store: StateStore)
      ensures this.store == store
      ensures this.staleTimeout == if staleTimeout <= 0 then 5_000_000_000 else staleTimeout
      ensures this.checkInterval == if checkInterval <= 0 then 1_000_000_000 else checkInterval
    {
      this.staleTimeout := if staleTimeout <= 0 then DEFAULT_TIMEOUT else staleTimeout;
      this.checkInterval := if checkInterval <= 0 then DEFAULT_INTERVAL else checkInterval;
      this.store := store;
    }

    /** What other goroutines do to the store between two ticks; no part of the monitor. */
    method LetOthers(others: seq<Op>, ghost history: seq<Op>)
      requires store.Valid() && store.Model() == After(history) && NoScans(others)
      modifies store, store.sensors.Values
      ensures store.Valid() && fresh(store.sensors.Values - old(store.sensors.Values))
      ensures store.Model() == After(history + others)
    {
      assert history + others[..0] == history;
      for i := 0 to |others|
        invariant store.Valid() && fresh(store.sensors.Values - old(store.sensors.Values))
        invariant store.Model() == After(history + others[..i])
      {
        OneMoreOther(history, others, i);
        LetOther(others[i]);
      }
      assert others[..|others|] == others;
    }

    method LetOther(op: Op)
      requires store.Valid() && !op.CheckStale?
      modifies store, store.sensors.Values
      ensures store.Valid() && fresh(store.sensors.Values - old(store.sensors.Values))
      ensures store.Model() == Apply(old(store.Model()), op)
    {
      match op {
        case Update(msg, now) => var _ := store.Update(msg, now);
        case RecordError(id) => store.RecordError(id);
        case RecordAnomaly(id) => store.RecordAnomaly(id);
      }
    }

    /** One scan at each tick until the monitor is stopped. Whatever happens to the
        store between the ticks, each sensor is warned of exactly as often as the scans
        of this run report it; if nothing does, exactly those are that fell stale, once. */
    method Run(ticks: seq<Tick>, ghost history: seq<Op>) returns (warnings: seq<string>)
      requires store.Valid() && store.Model() == After(history)
      requires forall i :: 0 <= i < |ticks| ==> NoScans(ticks[i].others)
      modifies store, store.sensors.Values
      ensures store.Valid() && fresh(store.sensors.Values - old(store.sensors.Values))
      ensures store.Model() == After(history + Script(ticks, staleTimeout))
      ensures Warns(warnings, history, history + Script(ticks, staleTimeout))
      ensures Undisturbed(ticks) ==> NamesFallen(warnings, old(store.Model()), store.Model())
    {
      warnings := [];
      assert history + Script([], staleTimeout) == history;
      for i := 0 to |ticks|
        invariant store.Valid() && fresh(store.sensors.Values - old(store.sensors.Values))
        invariant store.Model() == After(history + Script(ticks[..i], staleTimeout))
        invariant Warns(warnings, history, history + Script(ticks[..i], staleTimeout))
      {
        LetOthers(ticks[i].others, history + Script(ticks[..i], staleTimeout));
        var newlyStale := store.CheckStale(ticks[i].now, staleTimeout);
        TickReports(history, ticks, staleTimeout, i, newlyStale);
        warnings := warnings + newlyStale;
      }
      assert ticks[..|ticks|] == ticks;
      if Undisturbed(ticks) {
        QuietRun(history, ticks, staleTimeout, warnings);
      }
    }
  }
}
