/** The synthetic histories the portals seed their charts with:
    30 days of national averages (`generateInitialNationalHistory`), 30 days
    per hospital in the strategic and public variants
    (`generateHospitalHistory`) and 7 days of mock national figures
    (`generateMockHistory`). Dates are day numbers; `today` is a parameter. */
module Histories {
  import opened Common
  import opened Types
  import opened UpdateRule

  /** The random draws behind one national day, in the order they are made. */
  datatype NationalDraws = NationalDraws(
    occupancy: real, fatigue: real, satisfaction: real, wait: real,
    north: real, south: real, east: real, west: real, central: real,
    critical: real)

  predicate ValidNationalDraws(d: NationalDraws)
  {
    && Unit(d.occupancy) && Unit(d.fatigue) && Unit(d.satisfaction) && Unit(d.wait)
    && Unit(d.north) && Unit(d.south) && Unit(d.east) && Unit(d.west) && Unit(d.central)
    && Unit(d.critical)
  }

  /** One national day `daysAgo` days before `today`: occupancy near 65 %
      clamped to `[60, 70]`, the wait near the mean initial wait clamped to
      `[40, 150]`, each region within 2 % of the unclamped national figure,
      and 5 to 14 critical hospitals. */
  function NationalDay(today: int, daysAgo: int, meanWait: real, d: NationalDraws): (p: HistoryPoint)
    ensures p.date == today - daysAgo
    ensures 60.0 <= p.avgOccupancy <= 70.0
    ensures 40.0 <= p.avgWaitTime <= 150.0
    ensures p.regional.Keys == AllRegions
    ensures ValidNationalDraws(d) ==> 5 <= p.criticalHospitals < 15
    ensures ValidNationalDraws(d) ==>
      && 58.5 <= p.avgFatigue < 63.5 && 68.5 <= p.avgSatisfaction < 73.5
      && forall g | g in p.regional :: 0.98 * 63.0 <= p.regional[g] < 1.02 * 67.0
  {
    var dayFactor := ((30 - daysAgo) as real) / 30.0;
    var occupancy := 65.0 + (d.occupancy - 0.5) * 4.0;
    var wait := meanWait * (0.95 + dayFactor * 0.05) + (d.wait - 0.5) * 5.0;
    var regional := map[
      North := RegionalFigure(occupancy, d.north),
      South := RegionalFigure(occupancy, d.south),
      East := RegionalFigure(occupancy, d.east),
      West := RegionalFigure(occupancy, d.west),
      Central := RegionalFigure(occupancy, d.central)];
    HistoryPoint(
      today - daysAgo,
      Clamp(occupancy, 60.0, 70.0),
      61.0 + (d.fatigue - 0.5) * 5.0,
      71.0 + (d.satisfaction - 0.5) * 5.0,
      Clamp(wait, 40.0, 150.0),
      regional,
      (5.0 + d.critical * 10.0).Floor)
  }

  /** A region's figure: the national occupancy scaled by 0.98 to 1.02. */
  function RegionalFigure(occupancy: real, x: real): (r: real)
    ensures 63.0 <= occupancy < 67.0 && Unit(x) ==> 0.98 * 63.0 <= r < 1.02 * 67.0
  {
    var f := 0.98 + x * 0.04;
    assert 63.0 <= occupancy < 67.0 && Unit(x) ==> 0.98 * 63.0 <= occupancy * f < 1.02 * 67.0 by {
      if 63.0 <= occupancy < 67.0 && Unit(x) {
        assert 0.98 <= f < 1.02;
        assert occupancy * f >= 63.0 * f;
        assert occupancy * f < 67.0 * f;
      }
    }
    occupancy * f
  }

  /** Thirty national days ending today, oldest first. */
  method InitialNationalHistory(today: int, meanWait: real, draws: seq<NationalDraws>)
    returns (history: seq<HistoryPoint>)
    requires |draws| == 30
    ensures |history| == 30
    ensures forall k :: 0 <= k < 30 ==> history[k] == NationalDay(today, 29 - k, meanWait, draws[k])
    ensures history[29].date == today
    ensures forall k :: 0 < k < 30 ==> history[k].date == history[k - 1].date + 1
  {
    history := [];
    var i := 29;
    while i >= 0
      invariant -1 <= i <= 29
      invariant |history| == 29 - i
      invariant forall k :: 0 <= k < |history| ==> history[k] == NationalDay(today, 29 - k, meanWait, draws[k])
    {
      history := history + [NationalDay(today, i, meanWait, draws[29 - i])];
      i := i - 1;
    }
  }

  /** The draws behind one day of a hospital's own history. */
  datatype DayDraws = DayDraws(occupancy: real, icu: real, wait: real, fatigue: real, satisfaction: real)

  /** The clamps every stored day goes through. */
  function StoredDay(date: int, occupancy: real, icu: real, wait: real, fatigue: real, satisfaction: real): (p: DayPoint)
    ensures p.date == date
    ensures 50.0 <= p.occupancy <= 98.0 && 40.0 <= p.icuOccupancy <= 100.0 && p.waitTime >= 30.0
    ensures 10.0 <= p.fatigue <= 95.0 && 30.0 <= p.satisfaction <= 95.0
    ensures 50.0 <= occupancy <= 98.0 ==> p.occupancy == occupancy
    ensures 10.0 <= fatigue <= 95.0 ==> p.fatigue == fatigue
  {
    DayPoint(date, Clamp(occupancy, 50.0, 98.0), Clamp(icu, 40.0, 100.0), Max(30.0, wait),
      Clamp(fatigue, 10.0, 95.0), Clamp(satisfaction, 30.0, 95.0))
  }

  /** One day `daysAgo > 0` days back, derived from today's state `s`. The
      public variant damps occupancy and wait further back and scales fatigue
      and satisfaction from today's values; the strategic one centres them on
      61 and 71. */
  function PastDay(isPublic: bool, s: LiveHospital, today: int, daysAgo: int, d: DayDraws): (p: DayPoint)
    ensures p.date == today - daysAgo
    ensures 50.0 <= p.occupancy <= 98.0 && 40.0 <= p.icuOccupancy <= 100.0 && p.waitTime >= 30.0
    ensures 10.0 <= p.fatigue <= 95.0 && 30.0 <= p.satisfaction <= 95.0
  {
    var dayFactor := ((30 - daysAgo) as real) / 30.0;
    var strainEffect := (1.0 - ((30 - daysAgo) as real) / 30.0) * (if isPublic then 5.0 else 3.0);
    var occupancy := s.bedOccupancy * (if isPublic then 0.9 + dayFactor * 0.1 else 0.95 + dayFactor * 0.05)
      + (d.occupancy - 0.5) * 4.0;
    var icu := occupancy + 5.0 + (d.icu - 0.5) * 5.0;
    var wait := s.avgWaitTime * (if isPublic then 0.8 + dayFactor * 0.2 else 0.9 + dayFactor * 0.1)
      + (d.wait - 0.5) * 10.0;
    var fatigue := if isPublic then s.fatigue * (0.85 + dayFactor * 0.15) + (d.fatigue - 0.5) * 5.0
      else 61.0 + (d.fatigue - 0.5) * 5.0;
    var satisfaction := (if isPublic then s.satisfaction else 71.0) - strainEffect + (d.satisfaction * 2.0 - 1.0);
    StoredDay(today - daysAgo, occupancy, icu, wait, fatigue, satisfaction)
  }

  /** Today's point: the initial live state itself, through the same clamps. */
  function Today(s: LiveHospital, today: int): (p: DayPoint)
    ensures p.date == today
    ensures 50.0 <= s.bedOccupancy <= 98.0 ==> p.occupancy == s.bedOccupancy
    ensures 10.0 <= s.fatigue <= 95.0 ==> p.fatigue == s.fatigue
  {
    StoredDay(today, s.bedOccupancy, s.icuOccupancy, s.currentWaitTime, s.fatigue, s.satisfaction)
  }

  /** Thirty days of one hospital's history ending today, oldest first. */
  method HospitalHistory(isPublic: bool, s: LiveHospital, today: int, draws: seq<DayDraws>)
    returns (history: seq<DayPoint>)
    requires |draws| == 29
    ensures |history| == 30
    ensures forall k :: 0 <= k < 29 ==> history[k] == PastDay(isPublic, s, today, 29 - k, draws[k])
    ensures history[29] == Today(s, today)
    ensures forall k :: 0 <= k < 30 ==> history[k].date == today - (29 - k)
    ensures forall k :: 0 <= k < 30 ==>
      50.0 <= history[k].occupancy <= 98.0 && 10.0 <= history[k].fatigue <= 95.0
  {
    history := [];
    var i := 29;
    while i >= 0
      invariant -1 <= i <= 29
      invariant |history| == 29 - i
      invariant forall k :: 0 <= k < |history| ==> history[k].date == today - (29 - k)
      invariant forall k :: 0 <= k < |history| ==>
        50.0 <= history[k].occupancy <= 98.0 && 10.0 <= history[k].fatigue <= 95.0
      invariant forall k :: 0 <= k < |history| && k < 29 ==>
        history[k] == PastDay(isPublic, s, today, 29 - k, draws[k])
      invariant i < 0 ==> history[29] == Today(s, today)
    {
      var p := if i == 0 then Today(s, today) else PastDay(isPublic, s, today, i, draws[29 - i]);
      assert 50.0 <= p.occupancy <= 98.0 && 10.0 <= p.fatigue <= 95.0;
      history := history + [p];
      i := i - 1;
    }
  }

  /** The draws behind one mock day. */
  datatype MockDraws = MockDraws(occupancy: real, critical: real)

  /** One mock national day: occupancy near 78.5 %, 5 to 9 critical
      hospitals, fixed fatigue, satisfaction and wait, no regional figures. */
  function MockDay(today: int, daysAgo: int, d: MockDraws): (p: HistoryPoint)
    ensures p.date == today - daysAgo
    ensures p.avgFatigue == 61.0 && p.avgSatisfaction == 71.0 && p.avgWaitTime == 90.0
    ensures p.regional == map[]
    ensures Unit(d.occupancy) ==> 76.5 <= p.avgOccupancy < 80.5
    ensures Unit(d.critical) ==> 5 <= p.criticalHospitals <= 9
  {
    HistoryPoint(today - daysAgo, 78.5 + d.occupancy * 4.0 - 2.0, 61.0, 71.0, 90.0, map[],
      7 + (d.critical * 5.0).Floor - 2)
  }

  /** A week of mock national days ending today, oldest first. */
  method MockHistory(today: int, draws: seq<MockDraws>) returns (history: seq<HistoryPoint>)
    requires |draws| == 7
    ensures |history| == 7
    ensures forall k :: 0 <= k < 7 ==> history[k] == MockDay(today, 6 - k, draws[k])
    ensures forall k :: 0 <= k < 7 ==> history[k].date == today - 6 + k
  {
    history := [];
    var i := 6;
    while i >= 0
      invariant -1 <= i <= 6
      invariant |history| == 6 - i
      invariant forall k :: 0 <= k < |history| ==> history[k] == MockDay(today, 6 - k, draws[k])
    {
      history := history + [MockDay(today, i, draws[6 - i])];
      i := i - 1;
    }
  }
}
