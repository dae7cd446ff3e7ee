/** The simulation engine's process state and controls: the aggregation of
    the live store into a national history point, the 30-point sliding
    window, `tick`, the burn-in of `start`, and the `subscribe`,
    `setMciState` and `setNodalConfig` entry points. Timers, the shuffle and
    `Date.now()` become parameters; a subscriber is its identity. */
module Engine {
  import opened Common
  import opened Types
  import opened UpdateRule
  import opened EngineRule

  /** Points kept in the national history window. */
  const HISTORY_LENGTH: nat := 30
  /** The high-strain cohort: 6 public and 9 private hospitals. */
  const PUBLIC_COHORT: nat := 6
  const PRIVATE_COHORT: nat := 9
  /** Hospitals above this bed occupancy count as critical in the history. */
  const CRITICAL_OCCUPANCY: real := 85.0
  /** Burn-in points are dated one minute apart. */
  const MINUTE_MS: int := 60000

  datatype EngineState = EngineState(
    live: seq<LiveHospital>,
    history: seq<HistoryPoint>,
    mci: MciState,
    override: Option<NodalConfig>,
    subscribers: seq<int>,
    initialized: bool,
    highStrain: seq<int>)

  function BedsOf(h: LiveHospital): real { h.totalBeds }
  function OccupiedOf(h: LiveHospital): real { h.occupiedBeds }
  function FatigueOf(h: LiveHospital): real { h.fatigue }
  function SatisfactionOf(h: LiveHospital): real { h.satisfaction }
  function WaitOf(h: LiveHospital): real { h.currentWaitTime }

  predicate InRange(h: LiveHospital)
  {
    0.0 <= h.occupiedBeds <= h.totalBeds
  }

  /** What every tick leaves behind: occupancy in range and the scores
      within their clamps. */
  predicate Settled(h: LiveHospital)
  {
    && InRange(h)
    && 10.0 <= h.fatigue <= 100.0 && 30.0 <= h.satisfaction <= 95.0
    && 20.0 <= h.currentWaitTime <= 300.0
  }

  /** What a tick keeps of a hospital: it stays sane, settles, and keeps
      its profile. */
  predicate Tracked(before: LiveHospital, after: LiveHospital)
  {
    Sane(after) && Settled(after) && SameProfile(before, after)
  }

  predicate AllSettled(hs: seq<LiveHospital>)
  {
    forall i :: 0 <= i < |hs| ==> Settled(hs[i])
  }

  /** A history point whose averages all lie in the ranges of the scores. */
  predicate Plausible(p: HistoryPoint)
  {
    && 0.0 <= p.avgOccupancy <= 100.0
    && 10.0 <= p.avgFatigue <= 100.0 && 30.0 <= p.avgSatisfaction <= 95.0
    && 20.0 <= p.avgWaitTime <= 300.0
    && p.criticalHospitals >= 0
    && forall g | g in p.regional :: 0.0 <= p.regional[g] <= 100.0
  }

  /** Occupied beds over total beds, in per cent; 0 without beds. */
  function OccupancyPercent(hs: seq<LiveHospital>): (p: real)
    ensures SumBy(hs, BedsOf) <= 0.0 ==> p == 0.0
    ensures (forall h | h in hs :: InRange(h)) ==> 0.0 <= p <= 100.0
  {
    var total := SumBy(hs, BedsOf);
    var occupied := SumBy(hs, OccupiedOf);
    if total > 0.0 then
      assert (forall h | h in hs :: InRange(h)) ==> 0.0 <= (occupied / total) * 100.0 <= 100.0 by {
        if forall h | h in hs :: InRange(h) {
          forall i | 0 <= i < |hs|
            ensures 0.0 <= OccupiedOf(hs[i]) <= BedsOf(hs[i])
          {
            assert hs[i] in hs;
          }
          SumByLe(hs, OccupiedOf, BedsOf);
          SumByNonNegative(hs, OccupiedOf);
          PercentBounds(occupied, total);
        }
      }
      (occupied / total) * 100.0
    else 0.0
  }

  lemma {:induction false} TotalPositive(hs: seq<LiveHospital>)
    requires |hs| > 0
    requires forall i :: 0 <= i < |hs| ==> hs[i].totalBeds > 0.0
    ensures SumBy(hs, BedsOf) > 0.0
  {
    assert forall i :: 1 <= i < |hs| ==> hs[i] == hs[1..][i - 1];
    SumByNonNegative(hs[1..], BedsOf);
  }

  /** Per-hospital fractions of at least `a` keep the pooled fraction at
      least `a`. */
  lemma {:induction false} PooledAtLeast(hs: seq<LiveHospital>, a: real)
    requires forall i :: 0 <= i < |hs| ==> a * hs[i].totalBeds <= hs[i].occupiedBeds
    ensures a * SumBy(hs, BedsOf) <= SumBy(hs, OccupiedOf)
  {
    if |hs| > 0 {
      var t := hs[1..];
      assert forall i :: 0 <= i < |t| ==> t[i] == hs[i + 1];
      PooledAtLeast(t, a);
      var x := hs[0].totalBeds;
      var rest := SumBy(t, BedsOf);
      assert a * (x + rest) == a * x + a * rest;
    }
  }

  /** Per-hospital fractions of at most `b` keep the pooled fraction at most
      `b`. */
  lemma {:induction false} PooledAtMost(hs: seq<LiveHospital>, b: real)
    requires forall i :: 0 <= i < |hs| ==> hs[i].occupiedBeds <= b * hs[i].totalBeds
    ensures SumBy(hs, OccupiedOf) <= b * SumBy(hs, BedsOf)
  {
    if |hs| > 0 {
      var t := hs[1..];
      assert forall i :: 0 <= i < |t| ==> t[i] == hs[i + 1];
      PooledAtMost(t, b);
      var x := hs[0].totalBeds;
      var rest := SumBy(t, BedsOf);
      assert b * (x + rest) == b * x + b * rest;
    }
  }

  lemma FractionsOfBeds(hs: seq<LiveHospital>, lo: real, hi: real)
    requires forall i :: 0 <= i < |hs| ==>
      hs[i].totalBeds > 0.0 && lo <= (hs[i].occupiedBeds / hs[i].totalBeds) * 100.0 <= hi
    ensures forall i :: 0 <= i < |hs| ==>
      lo / 100.0 * hs[i].totalBeds <= hs[i].occupiedBeds <= hi / 100.0 * hs[i].totalBeds
  {
    forall i | 0 <= i < |hs|
      ensures lo / 100.0 * hs[i].totalBeds <= hs[i].occupiedBeds <= hi / 100.0 * hs[i].totalBeds
    {
      PercentBetween(hs[i].occupiedBeds, hs[i].totalBeds, lo, hi);
    }
  }

  /** The pooled percentage is a bed-weighted average: it lies between the
      lowest and the highest hospital percentage. */
  lemma OccupancyWithinHospitalRange(hs: seq<LiveHospital>, lo: real, hi: real)
    requires |hs| > 0
    requires forall i :: 0 <= i < |hs| ==>
      hs[i].totalBeds > 0.0 && lo <= (hs[i].occupiedBeds / hs[i].totalBeds) * 100.0 <= hi
    ensures lo <= OccupancyPercent(hs) <= hi
  {
    FractionsOfBeds(hs, lo, hi);
    PooledAtLeast(hs, lo / 100.0);
    PooledAtMost(hs, hi / 100.0);
    TotalPositive(hs);
    var total := SumBy(hs, BedsOf);
    var occupied := SumBy(hs, OccupiedOf);
    PercentBetween(occupied, total, lo, hi);
    assert OccupancyPercent(hs) == (occupied / total) * 100.0;
  }

  /** The hospitals of one region, in store order. */
  function InRegion(hs: seq<LiveHospital>, g: Region): (r: seq<LiveHospital>)
    ensures |r| <= |hs|
    ensures forall h :: h in r <==> h in hs && h.region == g
  {
    Filter(hs, (h: LiveHospital) => h.region == g)
  }

  /** One region's occupancy; 0 for a region without hospitals. */
  function RegionPercent(hs: seq<LiveHospital>, g: Region): (p: real)
    ensures (forall h | h in hs :: InRange(h)) ==> 0.0 <= p <= 100.0
    ensures (forall h | h in hs :: h.region != g) ==> p == 0.0
  {
    var r := InRegion(hs, g);
    assert (forall h | h in hs :: h.region != g) ==> r == [] by {
      if |r| > 0 {
        assert r[0] in r;
      }
    }
    OccupancyPercent(r)
  }

  /** Occupancy per region, every region present. */
  function RegionalOccupancy(hs: seq<LiveHospital>): (m: map<Region, real>)
    ensures m.Keys == AllRegions
    ensures forall g | g in m :: m[g] == RegionPercent(hs, g)
  {
    map g | g in AllRegions :: RegionPercent(hs, g)
  }

  predicate IsCritical(h: LiveHospital)
  {
    h.bedOccupancy > CRITICAL_OCCUPANCY
  }

  /** Hospitals above 85 % bed occupancy. */
  function CriticalCount(hs: seq<LiveHospital>): (c: int)
    ensures 0 <= c <= |hs|
    ensures c == 0 <==> forall i :: 0 <= i < |hs| ==> !IsCritical(hs[i])
    ensures c == |hs| <==> forall i :: 0 <= i < |hs| ==> IsCritical(hs[i])
    ensures c == |set i | 0 <= i < |hs| && IsCritical(hs[i])|
  {
    var r := Filter(hs, IsCritical);
    FilterKeepsAll(hs, IsCritical);
    FilterCountsSet(hs, IsCritical, set i | 0 <= i < |hs| && IsCritical(hs[i]));
    assert |r| > 0 ==> r[0] in r;
    assert (exists i :: 0 <= i < |hs| && IsCritical(hs[i])) ==> |r| > 0 by {
      if i :| 0 <= i < |hs| && IsCritical(hs[i]) {
        assert hs[i] in r;
      }
    }
    |r|
  }

  /** The history point a tick appends: pooled and regional occupancy, the
      means of fatigue, satisfaction and wait, and the critical count. */
  function Aggregate(hs: seq<LiveHospital>, date: int): (p: HistoryPoint)
    requires |hs| > 0
    ensures p.date == date
    ensures p.regional.Keys == AllRegions
    ensures p.criticalHospitals == CriticalCount(hs)
    ensures p.avgOccupancy == OccupancyPercent(hs) && p.regional == RegionalOccupancy(hs)
    ensures p.avgFatigue == MeanBy(hs, FatigueOf) && p.avgSatisfaction == MeanBy(hs, SatisfactionOf)
    ensures p.avgWaitTime == MeanBy(hs, WaitOf)
    ensures AllSettled(hs) ==> Plausible(p)
  {
    var p := HistoryPoint(date, OccupancyPercent(hs), MeanBy(hs, FatigueOf), MeanBy(hs, SatisfactionOf),
      MeanBy(hs, WaitOf), RegionalOccupancy(hs), CriticalCount(hs));
    assert AllSettled(hs) ==> Plausible(p) by {
      if AllSettled(hs) {
        MeanByBounds(hs, FatigueOf, 10.0, 100.0);
        MeanByBounds(hs, SatisfactionOf, 30.0, 95.0);
        MeanByBounds(hs, WaitOf, 20.0, 300.0);
      }
    }
    p
  }

  /** An all-zero point, as the window is first filled. */
  function ZeroPoint(date: int): HistoryPoint
  {
    HistoryPoint(date, 0.0, 0.0, 0.0, 0.0, map[], 0)
  }

  function InitialHistory(date: int): (r: seq<HistoryPoint>)
    ensures |r| == HISTORY_LENGTH
    ensures forall k :: 0 <= k < |r| ==> r[k] == ZeroPoint(date)
  {
    seq(HISTORY_LENGTH, _ => ZeroPoint(date))
  }

  /** `[...history.slice(1), p]`: the oldest point leaves, `p` arrives. */
  function AppendHistory(history: seq<HistoryPoint>, p: HistoryPoint): (r: seq<HistoryPoint>)
    ensures |history| > 0 ==> |r| == |history|
    ensures |history| == 0 ==> r == [p]
    ensures r[|r| - 1] == p
    ensures forall k :: 0 <= k < |r| - 1 ==> r[k] == history[k + 1]
  {
    (if |history| > 0 then history[1..] else []) + [p]
  }

  /** Appending several points one after another. */
  function AppendAll(history: seq<HistoryPoint>, ps: seq<HistoryPoint>): seq<HistoryPoint>
    decreases |ps|
  {
    if |ps| == 0 then history else AppendAll(AppendHistory(history, ps[0]), ps[1..])
  }

  /** The window keeps the latest points: after appending `ps` to a
      non-empty window it holds the last `|history|` points of
      `history + ps`. */
  lemma {:induction false} AppendAllWindow(history: seq<HistoryPoint>, ps: seq<HistoryPoint>)
    requires |history| > 0
    ensures AppendAll(history, ps) == (history + ps)[|ps|..]
    decreases |ps|
  {
    if |ps| > 0 {
      var next := AppendHistory(history, ps[0]);
      assert next == history[1..] + [ps[0]];
      AppendAllWindow(next, ps[1..]);
      assert next + ps[1..] == (history + ps)[1..];
    }
  }

  /** A full window of new points replaces every old one. */
  lemma WindowReplaced(history: seq<HistoryPoint>, ps: seq<HistoryPoint>)
    requires 0 < |history| <= |ps|
    ensures AppendAll(history, ps) == ps[|ps| - |history|..]
  {
    AppendAllWindow(history, ps);
    assert (history + ps)[|ps|..] == ps[|ps| - |history|..];
  }

  /** `strategicLiveData.map(updateLiveMetrics)` under one incident state,
      override, clock and cohort. */
  function UpdateAll(live: seq<LiveHospital>, mci: MciState, ov: Option<NodalConfig>, now: int,
                     cohort: seq<int>, draws: seq<Draws>): (r: seq<LiveHospital>)
    requires |draws| == |live|
    requires forall i :: 0 <= i < |live| ==> Sane(live[i]) && ValidDraws(draws[i])
    requires SaneOverride(ov)
    ensures |r| == |live|
    ensures forall i :: 0 <= i < |r| ==> Tracked(live[i], r[i])
    decreases |live|
  {
    if |live| == 0 then []
    else
      UpdateKeepsSane(live[0], mci, ov, now, cohort, draws[0]);
      var first := Update(live[0], mci, ov, now, cohort, draws[0]);
      var rest := UpdateAll(live[1..], mci, ov, now, cohort, draws[1..]);
      assert forall i :: 1 <= i < |live| ==> live[i] == live[1..][i - 1];
      [first] + rest
  }

  /** Entry `i` of the ticked store is hospital `i` ticked with its own
      draws: no hospital sees another's state or draws. */
  lemma {:induction false} UpdateAllPointwise(live: seq<LiveHospital>, mci: MciState, ov: Option<NodalConfig>,
                                              now: int, cohort: seq<int>, draws: seq<Draws>)
    requires |draws| == |live|
    requires forall i :: 0 <= i < |live| ==> Sane(live[i]) && ValidDraws(draws[i])
    requires SaneOverride(ov)
    ensures forall i :: 0 <= i < |live| ==>
      Defined(live[i], ResolveCapacity(live[i], ov, now), draws[i])
      && UpdateAll(live, mci, ov, now, cohort, draws)[i] == Update(live[i], mci, ov, now, cohort, draws[i])
    decreases |live|
  {
    if |live| > 0 {
      UpdateAllPointwise(live[1..], mci, ov, now, cohort, draws[1..]);
      UpdateAllCons(live, mci, ov, now, cohort, draws);
      forall i | 0 <= i < |live|
        ensures Defined(live[i], ResolveCapacity(live[i], ov, now), draws[i])
        ensures UpdateAll(live, mci, ov, now, cohort, draws)[i] == Update(live[i], mci, ov, now, cohort, draws[i])
      {
        SaneIsDefined(live[i], ov, now, draws[i]);
        if i > 0 {
          assert live[i] == live[1..][i - 1] && draws[i] == draws[1..][i - 1];
        }
      }
    }
  }

  lemma UpdateAllCons(live: seq<LiveHospital>, mci: MciState, ov: Option<NodalConfig>,
                      now: int, cohort: seq<int>, draws: seq<Draws>)
    requires |draws| == |live| > 0
    requires forall i :: 0 <= i < |live| ==> Sane(live[i]) && ValidDraws(draws[i])
    requires SaneOverride(ov)
    ensures Defined(live[0], ResolveCapacity(live[0], ov, now), draws[0])
    ensures UpdateAll(live, mci, ov, now, cohort, draws)[0] == Update(live[0], mci, ov, now, cohort, draws[0])
    ensures UpdateAll(live, mci, ov, now, cohort, draws)[1..] == UpdateAll(live[1..], mci, ov, now, cohort, draws[1..])
  {
    SaneIsDefined(live[0], ov, now, draws[0]);
  }

  /** One tick: every hospital is updated under the cohort, the store is
      aggregated into a point dated `date`, and the point enters the window.
      The live tick dates the point `now`; the burn-in back-dates it. */
  function Tick(e: EngineState, now: int, date: int, cohort: seq<int>, draws: seq<Draws>): (r: EngineState)
    requires |e.live| > 0 && |draws| == |e.live|
    requires forall i :: 0 <= i < |e.live| ==> Sane(e.live[i]) && ValidDraws(draws[i])
    requires SaneOverride(e.override)
    ensures |r.live| == |e.live|
    ensures forall i :: 0 <= i < |r.live| ==> Tracked(e.live[i], r.live[i])
    ensures r.highStrain == cohort
    ensures |e.history| == 0 ==> |r.history| == 1
    ensures |e.history| > 0 ==> |r.history| == |e.history|
    ensures r.history[|r.history| - 1].date == date
    ensures Plausible(r.history[|r.history| - 1])
    ensures r.history[|r.history| - 1] == Aggregate(r.live, date)
    ensures forall k :: 0 <= k < |r.history| - 1 ==> r.history[k] == e.history[k + 1]
    ensures r.mci == e.mci && r.override == e.override
    ensures r.subscribers == e.subscribers && r.initialized == e.initialized
  {
    var live := UpdateAll(e.live, e.mci, e.override, now, cohort, draws);
    assert AllSettled(live);
    var p := Aggregate(live, date);
    e.(live := live, history := AppendHistory(e.history, p), highStrain := cohort)
  }

  /** The store a tick leaves behind is the cohort update of every hospital,
      so the point it appends aggregates exactly those hospitals. */
  lemma TickUpdatesStore(e: EngineState, now: int, date: int, cohort: seq<int>, draws: seq<Draws>)
    requires |e.live| > 0 && |draws| == |e.live|
    requires forall i :: 0 <= i < |e.live| ==> Sane(e.live[i]) && ValidDraws(draws[i])
    requires SaneOverride(e.override)
    ensures Tick(e, now, date, cohort, draws).live == UpdateAll(e.live, e.mci, e.override, now, cohort, draws)
    ensures var r := Tick(e, now, date, cohort, draws);
      r.history[|r.history| - 1] == Aggregate(UpdateAll(e.live, e.mci, e.override, now, cohort, draws), date)
  {
  }


  /** `originalHospitalData.map(initializeSimulation)`. */
  function InitAll(catalog: seq<Hospital>, initDraws: seq<InitDraws>): (r: seq<LiveHospital>)
    requires |initDraws| == |catalog|
    requires forall j :: 0 <= j < |catalog| ==> SaneEntry(catalog[j])
    ensures |r| == |catalog|
    ensures forall j :: 0 <= j < |r| ==> Sane(r[j]) && ProfileOf(catalog[j], r[j])
  {
    var r := seq(|catalog|, j requires 0 <= j < |catalog| && SaneEntry(catalog[j]) => Init(catalog[j], initDraws[j]));
    assert forall j :: 0 <= j < |r| ==> Sane(r[j]) by {
      forall j | 0 <= j < |r|
        ensures Sane(r[j])
      {
        InitIsSane(catalog[j], initDraws[j]);
      }
    }
    r
  }

  /** The live store lines up with the catalog and every hospital is sane. */
  predicate Tracks(catalog: seq<Hospital>, live: seq<LiveHospital>)
  {
    && |live| == |catalog|
    && forall j :: 0 <= j < |catalog| ==>
      Sane(live[j]) && live[j].id == catalog[j].id && live[j].region == catalog[j].region
  }

  /** The window after `i` burn-in ticks: `30 - i` zero points, then the
      `i` burn-in points in the order they were made. */
  predicate BurnIn(history: seq<HistoryPoint>, i: int, now: int)
  {
    && 0 <= i <= HISTORY_LENGTH && |history| == HISTORY_LENGTH
    && (forall k :: 0 <= k < HISTORY_LENGTH - i ==> history[k] == ZeroPoint(now))
    && forall k :: HISTORY_LENGTH - i <= k < HISTORY_LENGTH ==>
      history[k].date == BurnInDate(now, k - (HISTORY_LENGTH - i)) && Plausible(history[k])
  }

  lemma TracksStep(catalog: seq<Hospital>, before: seq<LiveHospital>, after: seq<LiveHospital>)
    requires Tracks(catalog, before) && |after| == |before|
    requires forall i :: 0 <= i < |after| ==> Tracked(before[i], after[i])
    ensures Tracks(catalog, after)
  {
  }

  lemma BurnInStep(history: seq<HistoryPoint>, i: int, now: int, p: HistoryPoint)
    requires BurnIn(history, i, now) && i < HISTORY_LENGTH
    requires p.date == BurnInDate(now, i) && Plausible(p)
    ensures BurnIn(AppendHistory(history, p), i + 1, now)
  {
    var r := AppendHistory(history, p);
    forall k | HISTORY_LENGTH - (i + 1) <= k < HISTORY_LENGTH
      ensures r[k].date == BurnInDate(now, k - (HISTORY_LENGTH - (i + 1))) && Plausible(r[k])
    {
      if k < HISTORY_LENGTH - 1 {
        assert r[k] == history[k + 1];
      }
    }
  }

  /** One tick's draws: one valid set per hospital. */
  predicate ValidRound(ds: seq<Draws>, n: int)
  {
    |ds| == n && forall j :: 0 <= j < n ==> ValidDraws(ds[j])
  }

  /** The date of burn-in point `m`: `30 - m` minutes before `now`. */
  function BurnInDate(now: int, m: int): int
  {
    now - (HISTORY_LENGTH - m) * MINUTE_MS
  }

  /** Burn-in tick `i`: a tick whose point is dated `30 - i` minutes before
      `now`. */
  method BurnInTick(e: EngineState, catalog: seq<Hospital>, now: int, i: int,
                    cohort: seq<int>, draws: seq<Draws>) returns (r: EngineState)
    requires 0 < |catalog| && Tracks(catalog, e.live) && SaneOverride(e.override)
    requires BurnIn(e.history, i, now) && i < HISTORY_LENGTH
    requires ValidRound(draws, |catalog|)
    ensures Tracks(catalog, r.live)
    ensures BurnIn(r.history, i + 1, now)
    ensures r.highStrain == cohort
    ensures r == e.(live := r.live, history := r.history, highStrain := r.highStrain)
  {
    r := Tick(e, now, BurnInDate(now, i), cohort, draws);
    TracksStep(catalog, e.live, r.live);
    BurnInStep(e.history, i, now, r.history[HISTORY_LENGTH - 1]);
    assert r.history == AppendHistory(e.history, r.history[HISTORY_LENGTH - 1]);
  }

  /** `start`: initialise every catalog entry, then 30 back-dated ticks one
      minute apart replace the zero window, then mark the engine initialised
      and run one live tick at once, at `tickNow`. The window then holds the
      last 29 burn-in points and the live point. */
  method Start(e0: EngineState, catalog: seq<Hospital>, initDraws: seq<InitDraws>, now: int, tickNow: int,
               cohorts: seq<seq<int>>, draws: seq<seq<Draws>>) returns (e: EngineState)
    requires |catalog| > 0 && |initDraws| == |catalog|
    requires forall j :: 0 <= j < |catalog| ==> SaneEntry(catalog[j])
    requires SaneOverride(e0.override)
    requires |cohorts| == HISTORY_LENGTH + 1 && |draws| == HISTORY_LENGTH + 1
    requires forall k :: 0 <= k < |draws| ==> ValidRound(draws[k], |catalog|)
    ensures e.initialized
    ensures Tracks(catalog, e.live)
    ensures |e.history| == HISTORY_LENGTH
    ensures forall k :: 0 <= k < HISTORY_LENGTH - 1 ==>
      e.history[k].date == now - (HISTORY_LENGTH - 1 - k) * MINUTE_MS && Plausible(e.history[k])
    ensures e.history[HISTORY_LENGTH - 1].date == tickNow && Plausible(e.history[HISTORY_LENGTH - 1])
    ensures e.highStrain == cohorts[HISTORY_LENGTH]
    ensures e.mci == e0.mci && e.override == e0.override && e.subscribers == e0.subscribers
  {
    e := e0.(live := InitAll(catalog, initDraws), history := InitialHistory(now));
    var i := 0;
    while i < HISTORY_LENGTH
      invariant 0 <= i <= HISTORY_LENGTH
      invariant Tracks(catalog, e.live)
      invariant BurnIn(e.history, i, now)
      invariant e.mci == e0.mci && e.override == e0.override && e.subscribers == e0.subscribers
    {
      e := BurnInTick(e, catalog, now, i, cohorts[i], draws[i]);
      i := i + 1;
    }
    e := e.(initialized := true);
    e := FirstLiveTick(e, catalog, now, tickNow, cohorts[HISTORY_LENGTH], draws[HISTORY_LENGTH]);
  }

  /** The tick `start` runs straight after the burn-in: its point, dated
      `tickNow`, pushes out the oldest burn-in point. */
  method FirstLiveTick(e: EngineState, catalog: seq<Hospital>, now: int, tickNow: int,
                       cohort: seq<int>, draws: seq<Draws>) returns (r: EngineState)
    requires 0 < |catalog| && Tracks(catalog, e.live) && SaneOverride(e.override)
    requires BurnIn(e.history, HISTORY_LENGTH, now)
    requires ValidRound(draws, |catalog|)
    ensures Tracks(catalog, r.live)
    ensures |r.history| == HISTORY_LENGTH
    ensures forall k :: 0 <= k < HISTORY_LENGTH - 1 ==>
      r.history[k].date == now - (HISTORY_LENGTH - 1 - k) * MINUTE_MS && Plausible(r.history[k])
    ensures r.history[HISTORY_LENGTH - 1].date == tickNow && Plausible(r.history[HISTORY_LENGTH - 1])
    ensures r.highStrain == cohort
    ensures r == e.(live := r.live, history := r.history, highStrain := r.highStrain)
  {
    r := Tick(e, tickNow, tickNow, cohort, draws);
    TracksStep(catalog, e.live, r.live);
    forall k | 0 <= k < HISTORY_LENGTH - 1
      ensures r.history[k].date == now - (HISTORY_LENGTH - 1 - k) * MINUTE_MS && Plausible(r.history[k])
    {
      assert r.history[k] == e.history[k + 1];
      assert e.history[k + 1].date == BurnInDate(now, k + 1);
    }
  }


  /** The result of `subscribe`: the new state, and whether the callback was
      called at once with the current data. */
  datatype Subscription = Subscription(state: EngineState, delivered: bool)

  /** `subscribe`: the callback joins the list and is served at once exactly
      when the engine is already initialised. */
  function Subscribe(e: EngineState, cb: int): (s: Subscription)
    ensures s.delivered <==> e.initialized
    ensures s.state.subscribers == e.subscribers + [cb]
    ensures s.state == e.(subscribers := s.state.subscribers)
  {
    Subscription(e.(subscribers := e.subscribers + [cb]), e.initialized)
  }

  /** The returned unsubscribe: every registration of the callback goes, every
      other callback keeps each of its registrations. */
  function Unsubscribe(e: EngineState, cb: int): (r: EngineState)
    ensures forall x :: x in r.subscribers <==> x in e.subscribers && x != cb
    ensures forall x | x != cb :: multiset(r.subscribers)[x] == multiset(e.subscribers)[x]
    ensures |r.subscribers| <= |e.subscribers|
    ensures r == e.(subscribers := r.subscribers)
  {
    var keep := (x: int) => x != cb;
    FilterMultisetAll(e.subscribers, keep);
    e.(subscribers := Filter(e.subscribers, keep))
  }

  /** Unsubscribing twice is unsubscribing once. */
  lemma UnsubscribeIdempotent(e: EngineState, cb: int)
    ensures Unsubscribe(Unsubscribe(e, cb), cb) == Unsubscribe(e, cb)
  {
    var once := Unsubscribe(e, cb).subscribers;
    assert forall i :: 0 <= i < |once| ==> once[i] in once;
    FilterAll(once, x => x != cb);
  }

  /** Unsubscribing a fresh callback right after subscribing it restores the
      state exactly. */
  lemma SubscribeThenUnsubscribe(e: EngineState, cb: int)
    requires cb !in e.subscribers
    ensures Unsubscribe(Subscribe(e, cb).state, cb) == e
  {
    var keep := (x: int) => x != cb;
    FilterAppend(e.subscribers, [cb], keep);
    assert forall i :: 0 <= i < |e.subscribers| ==> e.subscribers[i] in e.subscribers;
    FilterAll(e.subscribers, keep);
    assert Filter([cb], keep) == [];
  }

  /** `setMciState`: only the incident state changes; it takes effect at the
      next tick. */
  function SetMci(e: EngineState, m: MciState): (r: EngineState)
    ensures r.mci == m
    ensures r == e.(mci := r.mci)
  {
    e.(mci := m)
  }

  /** `setNodalConfig`: only the override changes. */
  function SetNodalConfig(e: EngineState, ov: Option<NodalConfig>): (r: EngineState)
    ensures r.override == ov
    ensures r == e.(override := r.override)
  {
    e.(override := ov)
  }

  /** The high-strain cohort: the first 6 of the shuffled public ids and the
      first 9 of the shuffled private ids. */
  function Cohort(publicOrder: seq<int>, privateOrder: seq<int>): (r: seq<int>)
    ensures |r| <= PUBLIC_COHORT + PRIVATE_COHORT
    ensures |publicOrder| >= PUBLIC_COHORT && |privateOrder| >= PRIVATE_COHORT ==>
      |r| == PUBLIC_COHORT + PRIVATE_COHORT
    ensures multiset(r) <= multiset(publicOrder) + multiset(privateOrder)
    ensures forall x :: x in r ==> x in publicOrder || x in privateOrder
  {
    var a := if |publicOrder| < PUBLIC_COHORT then |publicOrder| else PUBLIC_COHORT;
    var b := if |privateOrder| < PRIVATE_COHORT then |privateOrder| else PRIVATE_COHORT;
    assert publicOrder == publicOrder[..a] + publicOrder[a..];
    assert privateOrder == privateOrder[..b] + privateOrder[b..];
    publicOrder[..a] + privateOrder[..b]
  }
}
