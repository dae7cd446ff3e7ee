/** The per-hospital rules of the two portal helper libraries
    (`src/utils/helpers_strategic.ts` and `src/utils/helpers_public.ts`).
    The two copies run the same algorithm with different tuning constants;
    the public copy also floors the counts it stores. Compared with the
    national engine they use a fixed high-strain list, a single drift factor,
    an undrifted ICU walk, a wait pulled 10 % towards 120 minutes for the
    anchor hospital, no oxygen resupply and no PPE walk. */
module HelperRule {
  import opened Common
  import opened Types
  import opened UpdateRule

  /** Hospitals the helpers treat as permanently strained. */
  const HIGH_STRAIN_IDS: seq<int> := [9, 10, 15, 17, 23, 62, 67, 70, 99, 105, 122, 135, 146]

  /** The constants in which the two helper copies differ. */
  datatype Tuning = Tuning(
    maxBedChange: real,
    maxFatigueChange: real,
    maxSatisfactionChange: real,
    shock: real,
    drift: real,
    fatigueGain: real,
    overloadGain: real,
    fatigueImpact: real,
    waitImpact: real,
    floorsCounts: bool)

  const STRATEGIC: Tuning := Tuning(3.5, 1.5, 2.0, 8.0, 0.4, 2.5, 10.0, 0.5, 8.0, false)
  const PUBLIC: Tuning := Tuning(2.5, 0.5, 0.75, 4.5, 0.25, 0.9, 5.0, 0.22, 4.5, true)

  predicate ValidTuning(t: Tuning)
  {
    && t.maxBedChange > 0.0 && t.maxFatigueChange > 0.0 && t.maxSatisfactionChange > 0.0
    && 0.0 <= t.drift <= 1.0 && t.overloadGain > 0.0
  }

  /** The public copy is the damped one: every rate limit is tighter. */
  lemma PublicIsDamped()
    ensures ValidTuning(STRATEGIC) && ValidTuning(PUBLIC)
    ensures PUBLIC.maxBedChange < STRATEGIC.maxBedChange
    ensures PUBLIC.maxFatigueChange < STRATEGIC.maxFatigueChange
    ensures PUBLIC.maxSatisfactionChange < STRATEGIC.maxSatisfactionChange
    ensures PUBLIC.floorsCounts && !STRATEGIC.floorsCounts
  {
  }

  /** The draws one helper tick consumes. */
  datatype HelperDraws = HelperDraws(alos: real, shock: real, icuUp: real, icuDown: real, fatigue: real, satisfaction: real)

  /** Resting occupancy the helpers pull towards. */
  function HelperTarget(id: int, isPublic: bool): (t: real)
    ensures id == ANCHOR_ID ==> t == 75.0
    ensures id != ANCHOR_ID && id in HIGH_STRAIN_IDS ==> t == 88.0
    ensures id != ANCHOR_ID && id !in HIGH_STRAIN_IDS ==> t == (if isPublic then 72.0 else 60.0)
  {
    if id == ANCHOR_ID then 75.0
    else if id in HIGH_STRAIN_IDS then 88.0
    else if isPublic then 72.0
    else 60.0
  }

  /** Occupied beds after the flow step and one drift step. */
  function HelperOccupancy(t: Tuning, h: LiveHospital, cap: Capacity, inIncident: bool, d: HelperDraws): (occ: real)
    requires ValidTuning(t)
    requires cap.beds != 0.0 && DynamicAlos(h, d.alos) != 0.0
    ensures occ >= MIN_OCCUPIED
    ensures cap.beds >= MIN_OCCUPIED ==> occ <= cap.beds
  {
    var raw := RawBedChange(h, d.alos, d.shock, t.shock, inIncident);
    var flowed := FlowStep(h.occupiedBeds, LimitChange(raw, t.maxBedChange), cap.beds);
    DriftStep(flowed, cap.beds, HelperTarget(h.id, h.kind.IsGovernment()), t.drift)
  }

  /** The helpers' drift never overshoots the target either. */
  lemma HelperOccupancyTowardsTarget(t: Tuning, h: LiveHospital, cap: Capacity, inIncident: bool, d: HelperDraws)
    requires ValidTuning(t)
    requires cap.beds >= MIN_OCCUPIED && DynamicAlos(h, d.alos) != 0.0
    ensures var raw := RawBedChange(h, d.alos, d.shock, t.shock, inIncident);
            var flowed := FlowStep(h.occupiedBeds, LimitChange(raw, t.maxBedChange), cap.beds);
            var goal := TargetBeds(cap.beds, HelperTarget(h.id, h.kind.IsGovernment()));
            Min(flowed, goal) <= HelperOccupancy(t, h, cap, inIncident, d) <= Max(flowed, goal)
  {
    var raw := RawBedChange(h, d.alos, d.shock, t.shock, inIncident);
    var flowed := FlowStep(h.occupiedBeds, LimitChange(raw, t.maxBedChange), cap.beds);
    DriftNoOvershoot(flowed, cap.beds, HelperTarget(h.id, h.kind.IsGovernment()), t.drift);
  }

  /** ICU: a ±1 random walk clamped to `[0, totalICU]`, with no drift. */
  function IcuWalk(previous: real, totalIcu: real, inIncident: bool, up: real, down: real): (r: real)
    ensures r >= 0.0
    ensures totalIcu >= 0.0 ==> r <= totalIcu
    ensures 0.0 <= previous <= totalIcu ==> -1.0 <= r - previous <= 1.0
    ensures Integral(previous) && Integral(totalIcu) ==> Integral(r)
  {
    var raised := if up < IcuUpThreshold(inIncident) then previous + 1.0 else previous;
    var lowered := if down < 0.12 then raised - 1.0 else raised;
    assert Integral(previous) ==> Integral(lowered) by {
      if Integral(previous) {
        IntegralArith(previous, previous);
        IntegralArith(raised, raised);
      }
    }
    assert Integral(previous) && Integral(totalIcu) ==> Integral(Clamp(lowered, 0.0, totalIcu)) by {
      assert Integral(0.0);
    }
    if 0.0 <= previous <= totalIcu then
      ClampBetween(previous, lowered, 0.0, totalIcu);
      Clamp(lowered, 0.0, totalIcu)
    else
      Clamp(lowered, 0.0, totalIcu)
  }

  /** The anchor hospital's wait: the strain- and fatigue-scaled average,
      moved 10 % of the way to 120 minutes. */
  function AnchorWait(avgWait: real, strain: real, fatigue: real): (w: real)
    ensures var base := avgWait * Overload(strain, 2.0) * (1.0 + (fatigue / 100.0) * 0.15);
            Min(base, 120.0) <= w <= Max(base, 120.0) && w - 120.0 == (base - 120.0) * 0.9
  {
    var base := avgWait * Overload(strain, 2.0) * (1.0 + (fatigue / 100.0) * 0.15);
    base + (120.0 - base) * 0.1
  }

  function HelperAnchorScores(t: Tuning, h: LiveHospital, strain: real, d: HelperDraws): (s: Scores)
    requires ValidTuning(t)
    ensures -t.maxFatigueChange <= s.fatigue - h.fatigue <= t.maxFatigueChange
    ensures -t.maxSatisfactionChange <= s.satisfaction - h.satisfaction <= t.maxSatisfactionChange
    ensures s.wait == AnchorWait(h.avgWaitTime, strain, s.fatigue)
  {
    var fatigueChange := (strain - 0.8) * 1.5 + (70.0 - h.fatigue) * 0.1 + (d.fatigue - 0.5) * 0.5;
    var fatigue := h.fatigue + Clamp(fatigueChange, -t.maxFatigueChange, t.maxFatigueChange);
    var wait := AnchorWait(h.avgWaitTime, strain, fatigue);
    var satisfactionChange := (68.0 - h.satisfaction) * 0.1 - (wait / 120.0 - 1.0) * 4.0 + (d.satisfaction - 0.5);
    Scores(fatigue, wait, h.satisfaction + Clamp(satisfactionChange, -t.maxSatisfactionChange, t.maxSatisfactionChange))
  }

  function HelperStandardScores(t: Tuning, h: LiveHospital, strain: real, d: HelperDraws): (s: Scores)
    requires ValidTuning(t) && h.avgWaitTime != 0.0
    ensures -t.maxFatigueChange <= s.fatigue - h.fatigue <= t.maxFatigueChange
    ensures -t.maxSatisfactionChange <= s.satisfaction - h.satisfaction <= t.maxSatisfactionChange
    ensures s.wait == h.avgWaitTime * Overload(strain, t.overloadGain) * (1.0 + (s.fatigue / 100.0) * 0.2)
  {
    var fatigueChange := (strain - 0.78) * t.fatigueGain + (61.0 - h.fatigue) * 0.1 + (d.fatigue - 0.5) * 0.4;
    var fatigue := h.fatigue + Clamp(fatigueChange, -t.maxFatigueChange, t.maxFatigueChange);
    var wait := h.avgWaitTime * Overload(strain, t.overloadGain) * (1.0 + (fatigue / 100.0) * 0.2);
    var satisfactionChange := (71.0 - h.satisfaction) * 0.08 - (fatigue - 61.0) * t.fatigueImpact
      - (wait / h.avgWaitTime - 1.0) * t.waitImpact + (d.satisfaction - 0.5);
    Scores(fatigue, wait, h.satisfaction + Clamp(satisfactionChange, -t.maxSatisfactionChange, t.maxSatisfactionChange))
  }

  function HelperAlos(strain: real, fatigue: real): real
  {
    5.3 + (strain - 0.78) * 0.15 + (fatigue / 100.0 - 0.6) * 0.15
  }

  /** Oxygen after consumption exactly as the helpers write it: the ICU share
      divides by `totalICU` unguarded, so a hospital without ICU beds gets
      `0 / 0`. `None` stands for the resulting NaN. */
  function HelperOxygenAsWritten(stock: real, icu: real, totalIcu: real, occupied: real, totalBeds: real): (r: Option<real>)
    ensures r.None? <==> totalIcu == 0.0 || totalBeds == 0.0
  {
    if totalIcu == 0.0 || totalBeds == 0.0 then None
    else Some(Max(0.0, stock - ((icu / totalIcu) * 0.015 + (occupied / totalBeds) * 0.004)))
  }

  /** A hospital with no ICU beds loses its oxygen figure to NaN. */
  lemma NoIcuOxygenUndefined()
    ensures HelperOxygenAsWritten(10.0, 0.0, 0.0, 50.0, 100.0).None?
  {
  }

  /** Oxygen after consumption with the engine's `|| 1` guard on both
      denominators: always defined, never negative, and equal to the written
      form wherever that is defined. */
  function HelperOxygen(stock: real, icu: real, totalIcu: real, occupied: real, totalBeds: real): (r: real)
    ensures r >= 0.0
    ensures totalIcu != 0.0 && totalBeds != 0.0 ==> HelperOxygenAsWritten(stock, icu, totalIcu, occupied, totalBeds) == Some(r)
    ensures icu >= 0.0 && totalIcu > 0.0 && occupied >= 0.0 && totalBeds > 0.0 ==> r <= Max(0.0, stock)
  {
    var use := (icu / OrOne(totalIcu)) * 0.015 + (occupied / OrOne(totalBeds)) * 0.004;
    assert icu >= 0.0 && totalIcu > 0.0 && occupied >= 0.0 && totalBeds > 0.0 ==> use >= 0.0 by {
      if icu >= 0.0 && totalIcu > 0.0 && occupied >= 0.0 && totalBeds > 0.0 {
        assert icu / totalIcu >= 0.0;
        assert occupied / totalBeds >= 0.0;
      }
    }
    Max(0.0, stock - use)
  }

  /** What a helper tick needs to be defined over exact reals. */
  predicate HelperDefined(h: LiveHospital, cap: Capacity, d: HelperDraws)
  {
    && cap.beds != 0.0
    && DynamicAlos(h, d.alos) != 0.0
    && (h.id == ANCHOR_ID || h.avgWaitTime != 0.0)
  }

  /** A stored count: floored in the public copy, exact in the strategic one. */
  function Stored(t: Tuning, x: real): (r: real)
    ensures !t.floorsCounts ==> r == x
    ensures t.floorsCounts ==> Integral(r) && r <= x < r + 1.0
  {
    if t.floorsCounts then FloorR(x) else x
  }

  /** One helper tick of `updateLiveMetrics` for one hospital. */
  function HelperUpdate(t: Tuning, h: LiveHospital, mci: MciState, ov: Option<NodalConfig>, now: int,
                        d: HelperDraws): (r: LiveHospital)
    requires ValidTuning(t)
    requires HelperDefined(h, ResolveCapacity(h, ov, now), d)
    ensures SameProfile(h, r) && r.ppe == h.ppe
    ensures r.totalBeds == ResolveCapacity(h, ov, now).beds
    ensures r.totalICU == ResolveCapacity(h, ov, now).icu
    ensures r.totalBeds >= MIN_OCCUPIED ==> MIN_OCCUPIED <= r.occupiedBeds <= r.totalBeds
    ensures !t.floorsCounts ==> r.occupiedBeds + r.availableBeds == r.totalBeds
    ensures !t.floorsCounts ==> r.occupiedIcu + r.availableIcu == r.totalICU
    ensures t.floorsCounts ==>
      Integral(r.occupiedBeds) && Integral(r.availableBeds) && Integral(r.occupiedIcu) && Integral(r.availableIcu)
    ensures r.totalICU >= 0.0 ==> 0.0 <= r.occupiedIcu <= r.totalICU
    ensures 0.0 <= h.occupiedIcu <= r.totalICU && (Integral(h.occupiedIcu) || !t.floorsCounts) ==>
      -1.0 <= r.occupiedIcu - h.occupiedIcu <= 1.0
    ensures r.icuOccupancy <= 100.0
    ensures 10.0 <= r.fatigue <= 100.0
    ensures 30.0 <= r.satisfaction <= 95.0
    ensures 20.0 <= r.currentWaitTime <= 300.0
    ensures 10.0 <= h.fatigue <= 100.0 ==> -t.maxFatigueChange <= r.fatigue - h.fatigue <= t.maxFatigueChange
    ensures 30.0 <= h.satisfaction <= 95.0 ==>
      -t.maxSatisfactionChange <= r.satisfaction - h.satisfaction <= t.maxSatisfactionChange
    ensures r.bedStatus == BedStatus.Critical <==> r.bedOccupancy > 95.0
    ensures r.bedStatus == HighOccupancy <==> 80.0 < r.bedOccupancy <= 95.0
    ensures r.bedStatus == Available <==> r.bedOccupancy <= 80.0
    ensures r.oxygenDays >= 0.0
  {
    var cap := ResolveCapacity(h, ov, now);
    var inIncident := InIncidentRegion(mci, h.region);
    var occupied := HelperOccupancy(t, h, cap, inIncident, d);
    var icu := IcuWalk(h.occupiedIcu, cap.icu, inIncident, d.icuUp, d.icuDown);
    var strain := occupied / cap.beds;
    var s := if h.id == ANCHOR_ID then HelperAnchorScores(t, h, strain, d) else HelperStandardScores(t, h, strain, d);
    var c := Settle(h, s, t.maxFatigueChange, t.maxSatisfactionChange);
    var bedOccupancy := (occupied / cap.beds) * 100.0;
    var storedIcu := Stored(t, icu);
    StoredBounds(t, h.occupiedIcu, icu, cap.icu, occupied);
    h.(totalBeds := cap.beds, totalICU := cap.icu,
       alosDays := HelperAlos(strain, s.fatigue),
       oxygenDays := HelperOxygen(cap.oxygen, icu, cap.icu, occupied, cap.beds),
       occupiedBeds := Stored(t, occupied), occupiedIcu := storedIcu,
       availableBeds := Stored(t, cap.beds - occupied), availableIcu := Stored(t, cap.icu - icu),
       bedOccupancy := bedOccupancy,
       icuOccupancy := Min(100.0, IcuPercent(icu, cap.icu)),
       currentWaitTime := c.wait,
       satisfaction := c.satisfaction,
       fatigue := c.fatigue,
       bedStatus := StatusOf(bedOccupancy))
  }

  /** Storing keeps the occupancy floor of 5 beds, keeps ICU counts
      non-negative, and keeps a one-bed ICU step from an integral count. */
  lemma StoredBounds(t: Tuning, previous: real, icu: real, totalIcu: real, occupied: real)
    requires icu >= 0.0 && occupied >= MIN_OCCUPIED
    requires 0.0 <= previous <= totalIcu && (Integral(previous) || !t.floorsCounts) ==> -1.0 <= icu - previous <= 1.0
    ensures Stored(t, occupied) >= MIN_OCCUPIED && Stored(t, icu) >= 0.0
    ensures 0.0 <= previous <= totalIcu && (Integral(previous) || !t.floorsCounts) ==>
      -1.0 <= Stored(t, icu) - previous <= 1.0
  {
    if t.floorsCounts {
      FloorAtLeast(occupied, MIN_OCCUPIED);
      FloorAtLeast(icu, 0.0);
      if 0.0 <= previous <= totalIcu && Integral(previous) {
        FloorWithinOne(previous, icu);
      }
    }
  }

  /** Flooring the occupied and the free count separately can lose one bed:
      in the public copy they sum to the total or to one less. */
  lemma PublicBedsAccount(total: real, occupied: real)
    requires Integral(total)
    ensures total - 1.0 <= Stored(PUBLIC, occupied) + Stored(PUBLIC, total - occupied) <= total
    ensures Integral(occupied) ==> Stored(PUBLIC, occupied) + Stored(PUBLIC, total - occupied) == total
  {
    var n := total.Floor;
    var a := occupied.Floor;
    var b := (total - occupied).Floor;
    assert a as real <= occupied < (a + 1) as real;
    assert b as real <= total - occupied < (b + 1) as real;
    assert (a + b) as real <= n as real;
    assert n as real < (a + b + 2) as real;
    assert n - 1 <= a + b <= n;
    if Integral(occupied) {
      assert total - occupied == (n - a) as real;
      assert b == n - a;
    }
  }

  /** The draws the helpers' `initializeSimulation` consumes. */
  datatype HelperInitDraws = HelperInitDraws(occupancy: real, icu: real, fatigue: real, satisfaction: real)

  predicate ValidHelperInitDraws(d: HelperInitDraws)
  {
    Unit(d.occupancy) && Unit(d.icu) && Unit(d.fatigue) && Unit(d.satisfaction)
  }

  /** Starting occupancy: 75 for the anchor, 86–91 for the strained list,
      68–75 for the public sector and 55–65 for the private sector, capped at 96. */
  function HelperBase(id: int, isPublic: bool, draw: real): (b: real)
    ensures b <= 96.0
    ensures id == ANCHOR_ID ==> b == 75.0
    ensures id != ANCHOR_ID && id in HIGH_STRAIN_IDS && Unit(draw) ==> 86.0 <= b < 91.0
    ensures id != ANCHOR_ID && id !in HIGH_STRAIN_IDS && isPublic && Unit(draw) ==> 68.0 <= b < 75.0
    ensures id != ANCHOR_ID && id !in HIGH_STRAIN_IDS && !isPublic && Unit(draw) ==> 55.0 <= b < 65.0
  {
    var base := if id == ANCHOR_ID then 75.0
      else if id in HIGH_STRAIN_IDS then 86.0 + draw * 5.0
      else if isPublic then 68.0 + draw * 7.0
      else 55.0 + draw * 10.0;
    Min(base, 96.0)
  }

  /** The arithmetic behind `HelperInit`'s counts. */
  lemma HelperInitCounts(base: real, totalBeds: real, icuDraw: real, totalIcu: real, valid: bool)
    requires totalBeds > 0.0
    requires valid ==> 55.0 <= base < 91.0 && Unit(icuDraw)
    ensures valid ==> 0.0 <= FloorR(PercentOf(base, totalBeds))
    ensures (FloorR(PercentOf(base, totalBeds)) / totalBeds) * 100.0 <= base
    ensures valid && totalIcu >= 0.0 ==>
      FloorR(PercentOf((FloorR(PercentOf(base, totalBeds)) / totalBeds) * 100.0 + (icuDraw * 10.0 - 5.0), totalIcu)) <= totalIcu
  {
    var x := PercentOf(base, totalBeds);
    var occupied := FloorR(x);
    assert (occupied / totalBeds) * 100.0 <= base by {
      assert occupied / totalBeds <= x / totalBeds;
      PercentRoundTrip(base, totalBeds);
    }
    assert valid ==> 0.0 <= occupied by {
      if valid {
        assert x >= 0.0;
        FloorAtLeast(x, 0.0);
      }
    }
    assert valid && totalIcu >= 0.0 ==>
      FloorR(PercentOf((occupied / totalBeds) * 100.0 + (icuDraw * 10.0 - 5.0), totalIcu)) <= totalIcu by {
      if valid && totalIcu >= 0.0 {
        var icuBase := (occupied / totalBeds) * 100.0 + (icuDraw * 10.0 - 5.0);
        assert icuBase <= 100.0;
        var f := icuBase / 100.0;
        assert (1.0 - f) * totalIcu >= 0.0;
        assert PercentOf(icuBase, totalIcu) == f * totalIcu;
      }
    }
  }

  /** The helpers' `initializeSimulation`: whole occupied counts, an
      occupancy percentage that never exceeds the starting base, and the
      anchor's scores fixed at 70, 68 and a 120 minute wait. */
  function HelperInit(h: Hospital, d: HelperInitDraws): (r: LiveHospital)
    requires h.totalBeds > 0.0
    ensures ProfileOf(h, r)
    ensures Integral(r.occupiedBeds) && Integral(r.occupiedIcu)
    ensures r.occupiedBeds + r.availableBeds == r.totalBeds
    ensures r.occupiedIcu + r.availableIcu == r.totalICU
    ensures r.bedOccupancy == (r.occupiedBeds / r.totalBeds) * 100.0
    ensures r.bedOccupancy <= HelperBase(h.id, h.kind.IsGovernment(), d.occupancy)
    ensures ValidHelperInitDraws(d) ==> r.occupiedBeds >= 0.0 && r.bedStatus != BedStatus.Critical
    ensures ValidHelperInitDraws(d) && h.totalICU >= 0.0 ==> r.occupiedIcu <= r.totalICU
    ensures r.icuOccupancy <= 100.0
    ensures 10.0 <= r.fatigue <= 100.0
    ensures 30.0 <= r.satisfaction <= 90.0
    ensures h.id == ANCHOR_ID ==> r.fatigue == 70.0 && r.satisfaction == 68.0 && r.currentWaitTime == 120.0
    ensures r.bedStatus == BedStatus.Critical <==> r.bedOccupancy > 95.0
    ensures r.bedStatus == HighOccupancy <==> 80.0 < r.bedOccupancy <= 95.0
  {
    var base := HelperBase(h.id, h.kind.IsGovernment(), d.occupancy);
    var occupied := FloorR(PercentOf(base, h.totalBeds));
    var bedOccupancy := (occupied / h.totalBeds) * 100.0;
    var icuBase := bedOccupancy + (d.icu * 10.0 - 5.0);
    var icu := FloorR(PercentOf(icuBase, h.totalICU));
    HelperInitCounts(base, h.totalBeds, d.icu, h.totalICU, ValidHelperInitDraws(d));
    var anchor := h.id == ANCHOR_ID;
    var fatigue := if anchor then 70.0 else 61.0 + (d.fatigue - 0.5) * 5.0;
    var satisfaction := if anchor then 68.0 else 71.0 + (d.satisfaction - 0.5) * 5.0;
    var wait := if anchor then 120.0 else h.avgWaitTime * (1.0 + (bedOccupancy - 75.0) / 100.0);
    LiveHospital(
      h.id, h.name, h.state, h.kind, h.address, h.region, h.googleRating,
      h.minConsultCharge, h.availableHours, h.helpline, h.isTeachingHospital,
      h.totalBeds, h.totalICU, h.avgWaitTime, h.alosDays, h.edThroughput,
      Clamp(satisfaction, 30.0, 90.0), h.oxygenDays, h.ppe,
      occupied, icu, bedOccupancy, Min(100.0, IcuPercent(icu, h.totalICU)), wait,
      StatusOf(bedOccupancy), h.totalBeds - occupied, h.totalICU - icu,
      Clamp(fatigue, 10.0, 100.0))
  }
}
