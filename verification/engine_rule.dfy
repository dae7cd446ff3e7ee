/** The national engine's per-hospital rules (`src/utils/simulationEngine.ts`):
    initialisation from the catalog and one tick of `updateLiveMetrics`.
    Every `Math.random()` the rule consumes is an explicit draw, so each rule
    is a pure function of the hospital, the shared engine state and the draws. */
module EngineRule {
  import opened Common
  import opened Types
  import opened UpdateRule

  const MAX_BED_CHANGE: real := 4.0
  const MAX_FATIGUE_CHANGE: real := 1.5
  const MAX_SATISFACTION_CHANGE: real := 2.0

  /** The random draws one tick of one hospital consumes, in the roles the
      source gives them. */
  datatype Draws = Draws(
    alos: real,
    shock: real,
    icuBaseline: real,
    icuUp: real,
    icuDown: real,
    fatigue: real,
    wait: real,
    satisfaction: real,
    oxygenChance: real,
    oxygenAmount: real,
    ppeChance: real,
    ppeImprove: real,
    ppeWorsen: real)

  predicate ValidDraws(d: Draws)
  {
    && Unit(d.alos) && Unit(d.shock) && Unit(d.icuBaseline) && Unit(d.icuUp)
    && Unit(d.icuDown) && Unit(d.fatigue) && Unit(d.wait) && Unit(d.satisfaction)
    && Unit(d.oxygenChance) && Unit(d.oxygenAmount) && Unit(d.ppeChance)
    && Unit(d.ppeImprove) && Unit(d.ppeWorsen)
  }

  /** Noise amplitude of the raw bed delta. */
  function ShockAmplitude(highStrain: bool): (a: real)
    ensures a > 0.0
    ensures highStrain ==> a == 10.0
    ensures !highStrain ==> a == 9.0
  {
    if highStrain then 10.0 else 9.0
  }

  /** The occupancy percentage a hospital is pulled towards. */
  function Target(id: int, isPublic: bool, highStrain: bool): (t: real)
    ensures id == ANCHOR_ID ==> t == 75.0
    ensures id != ANCHOR_ID && highStrain ==> t > 85.0
    ensures id != ANCHOR_ID && !highStrain ==> t <= 65.0
    ensures id != ANCHOR_ID && isPublic ==> t == (if highStrain then 93.0 else 65.0)
    ensures id != ANCHOR_ID && !isPublic ==> t == (if highStrain then 89.0 else 55.0)
  {
    if id == ANCHOR_ID then 75.0
    else if isPublic then (if highStrain then 93.0 else 65.0)
    else (if highStrain then 89.0 else 55.0)
  }

  /** Strength of the pull: fast when strained, slightly faster releasing
      than recovering otherwise. */
  function DriftFactor(highStrain: bool, current: real, target: real): (f: real)
    ensures 0.0 < f <= 0.4
    ensures highStrain ==> f == 0.4
    ensures !highStrain && current > target ==> f == 0.12
    ensures !highStrain && current <= target ==> f == 0.1
  {
    if highStrain then 0.4 else if current > target then 0.12 else 0.1
  }

  /** Occupied beds after the flow step and the drift step. */
  function Occupancy(h: LiveHospital, cap: Capacity, inIncident: bool, highStrain: bool, d: Draws): (occ: real)
    requires cap.beds != 0.0 && DynamicAlos(h, d.alos) != 0.0
    ensures occ >= MIN_OCCUPIED
    ensures cap.beds >= MIN_OCCUPIED ==> occ <= cap.beds
  {
    var raw := RawBedChange(h, d.alos, d.shock, ShockAmplitude(highStrain), inIncident);
    var flowed := FlowStep(h.occupiedBeds, LimitChange(raw, MAX_BED_CHANGE), cap.beds);
    var target := Target(h.id, h.kind.IsGovernment(), highStrain);
    var factor := DriftFactor(highStrain, (flowed / cap.beds) * 100.0, target);
    DriftStep(flowed, cap.beds, target, factor)
  }

  /** The drift never carries occupancy past its target: the tick's result
      lies between the flow-step occupancy and the target's bed count. */
  lemma OccupancyTowardsTarget(h: LiveHospital, cap: Capacity, inIncident: bool, highStrain: bool, d: Draws)
    requires cap.beds >= MIN_OCCUPIED && DynamicAlos(h, d.alos) != 0.0
    ensures var raw := RawBedChange(h, d.alos, d.shock, ShockAmplitude(highStrain), inIncident);
            var flowed := FlowStep(h.occupiedBeds, LimitChange(raw, MAX_BED_CHANGE), cap.beds);
            var goal := TargetBeds(cap.beds, Target(h.id, h.kind.IsGovernment(), highStrain));
            Min(flowed, goal) <= Occupancy(h, cap, inIncident, highStrain, d) <= Max(flowed, goal)
  {
    var raw := RawBedChange(h, d.alos, d.shock, ShockAmplitude(highStrain), inIncident);
    var flowed := FlowStep(h.occupiedBeds, LimitChange(raw, MAX_BED_CHANGE), cap.beds);
    var target := Target(h.id, h.kind.IsGovernment(), highStrain);
    DriftNoOvershoot(flowed, cap.beds, target, DriftFactor(highStrain, (flowed / cap.beds) * 100.0, target));
  }

  /** With identical draws, a declared incident in the hospital's region never
      leaves fewer beds occupied after the flow step. */
  lemma IncidentRaisesFlow(h: LiveHospital, cap: Capacity, highStrain: bool, d: Draws)
    requires DynamicAlos(h, d.alos) != 0.0
    ensures var a := ShockAmplitude(highStrain);
            (FlowStep(h.occupiedBeds, LimitChange(RawBedChange(h, d.alos, d.shock, a, false), MAX_BED_CHANGE), cap.beds)
             <= FlowStep(h.occupiedBeds, LimitChange(RawBedChange(h, d.alos, d.shock, a, true), MAX_BED_CHANGE), cap.beds))
  {
    var a := ShockAmplitude(highStrain);
    IncidentShock(h, d.alos, d.shock, a);
    FlowStepAntitone(h.occupiedBeds, RawBedChange(h, d.alos, d.shock, a, true),
      RawBedChange(h, d.alos, d.shock, a, false), MAX_BED_CHANGE, cap.beds);
  }

  /** The ICU baseline percentage: pinned at 74 for the anchor hospital,
      otherwise general occupancy within ±5 points. */
  function IcuBaseline(id: int, occupied: real, totalBeds: real, draw: real): (b: real)
    requires totalBeds != 0.0
    ensures id == ANCHOR_ID ==> b == 74.0
    ensures id != ANCHOR_ID && Unit(draw) ==>
      (occupied / totalBeds) * 100.0 - 5.0 <= b < (occupied / totalBeds) * 100.0 + 5.0
  {
    if id == ANCHOR_ID then 74.0 else (occupied / totalBeds) * 100.0 + (draw * 10.0 - 5.0)
  }

  /** Occupied ICU beds after the weak drift, the ±1 jitter and the clamp. */
  function IcuOccupied(previous: real, totalIcu: real, baseline: real, inIncident: bool, d: Draws): (icu: real)
    ensures icu >= 0.0
    ensures totalIcu >= 0.0 ==> icu <= totalIcu
  {
    var drifted := previous + (((baseline - IcuPercent(previous, totalIcu)) * 0.1) / 100.0) * totalIcu;
    var up := if d.icuUp < IcuUpThreshold(inIncident) then drifted + 1.0 else drifted;
    var down := if d.icuDown < 0.12 then up - 1.0 else up;
    Clamp(down, 0.0, totalIcu)
  }

  /** With the same draws, an incident in the region never lowers ICU
      occupancy: it only widens the window of the upward jitter. */
  lemma IncidentRaisesIcu(previous: real, totalIcu: real, baseline: real, d: Draws)
    ensures IcuOccupied(previous, totalIcu, baseline, false, d) <= IcuOccupied(previous, totalIcu, baseline, true, d)
  {
    var drifted := previous + (((baseline - IcuPercent(previous, totalIcu)) * 0.1) / 100.0) * totalIcu;
    var up0 := if d.icuUp < IcuUpThreshold(false) then drifted + 1.0 else drifted;
    var up1 := if d.icuUp < IcuUpThreshold(true) then drifted + 1.0 else drifted;
    var down0 := if d.icuDown < 0.12 then up0 - 1.0 else up0;
    var down1 := if d.icuDown < 0.12 then up1 - 1.0 else up1;
    assert up0 <= up1;
    ClampMonotone(down0, down1, 0.0, totalIcu);
  }

  /** The anchor hospital's scores: fatigue pulled towards 70, the wait held
      near 131 minutes, satisfaction pulled towards 68. */
  function AnchorScores(h: LiveHospital, strain: real, d: Draws): (s: Scores)
    ensures -MAX_FATIGUE_CHANGE <= s.fatigue - h.fatigue <= MAX_FATIGUE_CHANGE
    ensures -MAX_SATISFACTION_CHANGE <= s.satisfaction - h.satisfaction <= MAX_SATISFACTION_CHANGE
    ensures Unit(d.wait) ==> 129.5 <= s.wait < 132.5
  {
    var fatigueChange := (strain - 0.8) * 1.8 + (70.0 - h.fatigue) * 0.1 + (d.fatigue - 0.5) * 1.0;
    var fatigue := h.fatigue + Clamp(fatigueChange, -MAX_FATIGUE_CHANGE, MAX_FATIGUE_CHANGE);
    var wait := 131.0 + (d.wait - 0.5) * 3.0;
    var satisfactionChange := (68.0 - h.satisfaction) * 0.1 - (wait / 131.0 - 1.0) * 2.0 + (d.satisfaction - 0.5);
    Scores(fatigue, wait, h.satisfaction + Clamp(satisfactionChange, -MAX_SATISFACTION_CHANGE, MAX_SATISFACTION_CHANGE))
  }

  /** Every other hospital: fatigue pulled towards 61 and pushed by strain
      above 78 %; the wait grows with fatigue and overload; satisfaction falls
      with fatigue above 61 and with the wait above average. */
  function StandardScores(h: LiveHospital, strain: real, d: Draws): (s: Scores)
    requires h.avgWaitTime != 0.0
    ensures -MAX_FATIGUE_CHANGE <= s.fatigue - h.fatigue <= MAX_FATIGUE_CHANGE
    ensures -MAX_SATISFACTION_CHANGE <= s.satisfaction - h.satisfaction <= MAX_SATISFACTION_CHANGE
    ensures s.wait == h.avgWaitTime * (1.0 + (s.fatigue / 100.0) * 0.3) * Overload(strain, 12.0)
  {
    var fatigueChange := (strain - 0.78) * 6.0 + (61.0 - h.fatigue) * 0.25 + (d.fatigue - 0.5) * 2.0;
    var fatigue := h.fatigue + Clamp(fatigueChange, -MAX_FATIGUE_CHANGE, MAX_FATIGUE_CHANGE);
    var wait := h.avgWaitTime * (1.0 + (fatigue / 100.0) * 0.3) * Overload(strain, 12.0);
    var satisfactionChange := (71.0 - h.satisfaction) * 0.15 - (fatigue - 61.0) * 1.0
      - (wait / h.avgWaitTime - 1.0) * 12.0 + (d.satisfaction - 0.5) * 2.5;
    Scores(fatigue, wait, h.satisfaction + Clamp(satisfactionChange, -MAX_SATISFACTION_CHANGE, MAX_SATISFACTION_CHANGE))
  }

  /** This tick's scores before the final clamps: the anchor's own rule or
      the standard one. */
  function TickScores(h: LiveHospital, strain: real, d: Draws): (s: Scores)
    requires h.id != ANCHOR_ID ==> h.avgWaitTime != 0.0
    ensures -MAX_FATIGUE_CHANGE <= s.fatigue - h.fatigue <= MAX_FATIGUE_CHANGE
    ensures -MAX_SATISFACTION_CHANGE <= s.satisfaction - h.satisfaction <= MAX_SATISFACTION_CHANGE
  {
    if h.id == ANCHOR_ID then AnchorScores(h, strain, d) else StandardScores(h, strain, d)
  }

  /** A hospital other than the anchor never waits less than its catalog
      average while fatigue is non-negative. */
  lemma StandardWaitAtLeastAverage(h: LiveHospital, strain: real, d: Draws)
    requires h.avgWaitTime > 0.0
    requires StandardScores(h, strain, d).fatigue >= 0.0
    ensures StandardScores(h, strain, d).wait >= h.avgWaitTime
  {
    var s := StandardScores(h, strain, d);
    var ff := 1.0 + (s.fatigue / 100.0) * 0.3;
    var of := Overload(strain, 12.0);
    assert ff >= 1.0;
    assert ff * of >= 1.0 by {
      assert (ff - 1.0) * of >= 0.0;
    }
    assert s.wait == h.avgWaitTime * (ff * of);
    assert h.avgWaitTime * (ff * of - 1.0) >= 0.0;
  }

  /** Average length of stay recomputed from strain and fatigue. */
  function Alos(strain: real, fatigue: real): real
  {
    5.3 + (strain - 0.75) * 2.5 + (fatigue / 100.0 - 0.6) * 1.5
  }

  /** Bed strain of an in-range occupancy lies in `(0, 1]`. */
  lemma StrainBounds(occupied: real, totalBeds: real)
    requires MIN_OCCUPIED <= occupied <= totalBeds
    ensures 0.0 < occupied / totalBeds <= 1.0
  {
    assert (occupied / totalBeds) * totalBeds == occupied;
  }

  /** With strain in `[0, 1]` and fatigue at least 8.5, the recomputed length
      of stay stays above two days. */
  lemma AlosFloor(strain: real, fatigue: real)
    requires 0.0 <= strain <= 1.0 && fatigue >= 8.5
    ensures Alos(strain, fatigue) > 2.0
  {
  }

  /** The recomputed length of stay from this tick's occupancy and unclamped
      fatigue. */
  function TickAlos(occupied: real, totalBeds: real, fatigue: real): (a: real)
    requires totalBeds != 0.0
    ensures MIN_OCCUPIED <= occupied <= totalBeds && fatigue >= 8.5 ==> a > 2.0
  {
    var strain := occupied / totalBeds;
    assert MIN_OCCUPIED <= occupied <= totalBeds && fatigue >= 8.5 ==> Alos(strain, fatigue) > 2.0 by {
      if MIN_OCCUPIED <= occupied <= totalBeds && fatigue >= 8.5 {
        StrainBounds(occupied, totalBeds);
        AlosFloor(strain, fatigue);
      }
    }
    Alos(strain, fatigue)
  }

  /** Days of oxygen consumed this tick: 5 % of ICU load plus 1 % of bed load. */
  function OxygenUse(icu: real, totalIcu: real, occupied: real, totalBeds: real): real
  {
    (icu / OrOne(totalIcu)) * 0.05 + (occupied / OrOne(totalBeds)) * 0.01
  }

  /** Oxygen stock after consumption, never negative, with a chance of a 5 to
      20 day resupply once it falls below 10 days. */
  function Oxygen(stock: real, use: real, d: Draws): (r: real)
    ensures Unit(d.oxygenAmount) ==> r >= 0.0
    ensures Max(0.0, stock - use) >= 10.0 ==> r == Max(0.0, stock - use)
    ensures d.oxygenChance >= 0.15 ==> r == Max(0.0, stock - use)
    ensures Max(0.0, stock - use) < 10.0 && d.oxygenChance < 0.15 && Unit(d.oxygenAmount) ==>
      5.0 <= r - Max(0.0, stock - use) < 20.0
  {
    var consumed := Max(0.0, stock - use);
    if consumed < 10.0 && d.oxygenChance < 0.15 then consumed + d.oxygenAmount * 15.0 + 5.0 else consumed
  }

  /** The rare PPE walk: with a 5 % chance, a level worse than Low may improve
      one step, otherwise a level better than Stockout may worsen one step. */
  function PpeWalk(p: Ppe, chance: real, improve: real, worsen: real): (r: Ppe)
    ensures -1 <= r.Index() - p.Index() <= 1
    ensures r.Index() < p.Index() ==> p.Index() > 1
    ensures chance >= 0.05 ==> r == p
  {
    if chance < 0.05 then
      if p.Index() > 1 && improve < 0.3 then PpeAt(p.Index() - 1)
      else if p.Index() < 3 && worsen < 0.1 then PpeAt(p.Index() + 1)
      else p
    else p
  }

  /** PPE walks over any number of ticks: the draws for each tick. */
  datatype PpeDraw = PpeDraw(chance: real, improve: real, worsen: real)

  function PpeWalks(p: Ppe, ds: seq<PpeDraw>): Ppe
    decreases |ds|
  {
    if |ds| == 0 then p
    else PpeWalks(PpeWalk(p, ds[0].chance, ds[0].improve, ds[0].worsen), ds[1..])
  }

  /** Once a hospital's PPE leaves Good it can never return there: the walk
      only improves levels worse than Low, and then only as far as Low. */
  lemma {:induction false} PpeNeverRecoversGood(p: Ppe, ds: seq<PpeDraw>)
    requires p != Good
    ensures PpeWalks(p, ds) != Good
    decreases |ds|
  {
    if |ds| > 0 {
      var q := PpeWalk(p, ds[0].chance, ds[0].improve, ds[0].worsen);
      assert q.Index() >= 1;
      PpeNeverRecoversGood(q, ds[1..]);
    }
  }

  /** What a tick needs to be defined over exact reals: a non-zero bed count,
      a non-zero jittered length of stay, and a non-zero average wait for any
      hospital other than the anchor. */
  predicate Defined(h: LiveHospital, cap: Capacity, d: Draws)
  {
    && cap.beds != 0.0
    && DynamicAlos(h, d.alos) != 0.0
    && (h.id == ANCHOR_ID || h.avgWaitTime != 0.0)
  }

  /** One tick of `updateLiveMetrics` for one hospital. */
  function Update(h: LiveHospital, mci: MciState, ov: Option<NodalConfig>, now: int,
                  highStrainIds: seq<int>, d: Draws): (r: LiveHospital)
    requires Defined(h, ResolveCapacity(h, ov, now), d)
    ensures SameProfile(h, r)
    ensures r.totalBeds == ResolveCapacity(h, ov, now).beds
    ensures r.totalICU == ResolveCapacity(h, ov, now).icu
    ensures r.totalBeds >= MIN_OCCUPIED ==> MIN_OCCUPIED <= r.occupiedBeds <= r.totalBeds && r.availableBeds >= 0.0
    ensures r.occupiedBeds + r.availableBeds == r.totalBeds
    ensures r.bedOccupancy == (r.occupiedBeds / r.totalBeds) * 100.0
    ensures r.totalICU >= 0.0 ==> 0.0 <= r.occupiedIcu <= r.totalICU && 0.0 <= r.icuOccupancy <= 100.0
    ensures r.occupiedIcu + r.availableIcu == r.totalICU
    ensures r.icuOccupancy <= 100.0
    ensures 10.0 <= r.fatigue <= 100.0
    ensures 30.0 <= r.satisfaction <= 95.0
    ensures 20.0 <= r.currentWaitTime <= 300.0
    ensures 10.0 <= h.fatigue <= 100.0 ==> -MAX_FATIGUE_CHANGE <= r.fatigue - h.fatigue <= MAX_FATIGUE_CHANGE
    ensures 30.0 <= h.satisfaction <= 95.0 ==>
      -MAX_SATISFACTION_CHANGE <= r.satisfaction - h.satisfaction <= MAX_SATISFACTION_CHANGE
    ensures r.bedStatus == BedStatus.Critical <==> r.bedOccupancy > 95.0
    ensures r.bedStatus == HighOccupancy <==> 80.0 < r.bedOccupancy <= 95.0
    ensures r.bedStatus == Available <==> r.bedOccupancy <= 80.0
    ensures -1 <= r.ppe.Index() - h.ppe.Index() <= 1
    ensures ValidDraws(d) ==> r.oxygenDays >= 0.0
    ensures 10.0 <= h.fatigue <= 100.0 && r.totalBeds >= MIN_OCCUPIED ==> r.alosDays > 2.0
  {
    var cap := ResolveCapacity(h, ov, now);
    var inIncident := InIncidentRegion(mci, h.region);
    var highStrain := h.id in highStrainIds;
    var occupied := Occupancy(h, cap, inIncident, highStrain, d);
    var baseline := IcuBaseline(h.id, occupied, cap.beds, d.icuBaseline);
    var icu := IcuOccupied(h.occupiedIcu, cap.icu, baseline, inIncident, d);
    var strain := occupied / cap.beds;
    var s := TickScores(h, strain, d);
    var c := Settle(h, s, MAX_FATIGUE_CHANGE, MAX_SATISFACTION_CHANGE);
    var bedOccupancy := (occupied / cap.beds) * 100.0;
    h.(totalBeds := cap.beds, totalICU := cap.icu,
       ppe := PpeWalk(h.ppe, d.ppeChance, d.ppeImprove, d.ppeWorsen),
       alosDays := TickAlos(occupied, cap.beds, s.fatigue),
       oxygenDays := Oxygen(cap.oxygen, OxygenUse(icu, cap.icu, occupied, cap.beds), d),
       occupiedBeds := occupied, occupiedIcu := icu,
       availableBeds := cap.beds - occupied, availableIcu := cap.icu - icu,
       bedOccupancy := bedOccupancy,
       icuOccupancy := Min(100.0, IcuPercent(icu, cap.icu)),
       currentWaitTime := c.wait,
       satisfaction := c.satisfaction,
       fatigue := c.fatigue,
       bedStatus := StatusOf(bedOccupancy))
  }

  /** The draws `initializeSimulation` consumes. */
  datatype InitDraws = InitDraws(occupancy: real, icu: real, fatigue: real, satisfaction: real)

  predicate ValidInitDraws(d: InitDraws)
  {
    Unit(d.occupancy) && Unit(d.icu) && Unit(d.fatigue) && Unit(d.satisfaction)
  }

  /** Starting occupancy percentage: 75 for the anchor, about 65 for the
      public sector and about 55 for the private sector, capped at 96. */
  function BaseOccupancy(id: int, isPublic: bool, draw: real): (b: real)
    ensures b <= 96.0
    ensures id == ANCHOR_ID ==> b == 75.0
    ensures id != ANCHOR_ID && isPublic && Unit(draw) ==> 62.0 <= b < 68.0
    ensures id != ANCHOR_ID && !isPublic && Unit(draw) ==> 52.0 <= b < 58.0
  {
    var base := if id == ANCHOR_ID then 75.0
      else if isPublic then 65.0 + (draw * 6.0 - 3.0)
      else 55.0 + (draw * 6.0 - 3.0);
    Min(base, 96.0)
  }

  /** The arithmetic behind `Init`'s counts: the stored percentage is the base
      percentage, and in-range percentages give in-range counts. */
  lemma InitCounts(base: real, totalBeds: real, icuDraw: real, totalIcu: real, valid: bool)
    requires totalBeds != 0.0
    requires valid ==> 52.0 <= base <= 75.0 && Unit(icuDraw)
    ensures (PercentOf(base, totalBeds) / totalBeds) * 100.0 == base
    ensures valid && totalBeds > 0.0 ==> 0.0 < PercentOf(base, totalBeds) < totalBeds
    ensures valid && totalIcu >= 0.0 ==> 0.0 <= PercentOf(base + (icuDraw * 10.0 - 5.0), totalIcu) <= totalIcu
  {
    assert valid && totalBeds > 0.0 ==> 0.0 < PercentOf(base, totalBeds) < totalBeds by {
      if valid && totalBeds > 0.0 {
        var f := base / 100.0;
        assert 0.0 < f < 1.0;
        ProperFractionOf(f, totalBeds);
        assert PercentOf(base, totalBeds) == f * totalBeds;
      }
    }
    assert valid && totalIcu >= 0.0 ==> 0.0 <= PercentOf(base + (icuDraw * 10.0 - 5.0), totalIcu) <= totalIcu by {
      if valid && totalIcu >= 0.0 {
        var f := (base + (icuDraw * 10.0 - 5.0)) / 100.0;
        assert 0.0 <= f <= 1.0;
        FractionOf(f, totalIcu);
        assert PercentOf(base + (icuDraw * 10.0 - 5.0), totalIcu) == f * totalIcu;
      }
    }
    assert (PercentOf(base, totalBeds) / totalBeds) * 100.0 == base by {
      PercentRoundTrip(base, totalBeds);
    }
  }

  /** A catalog hospital made live: occupancy at its sector's resting level,
      ICU near it, fatigue near 61 and satisfaction near 71, with the anchor
      hospital's scores fixed at 70, 68 and a 120 minute wait. */
  function Init(h: Hospital, d: InitDraws): (r: LiveHospital)
    requires h.totalBeds != 0.0
    ensures ProfileOf(h, r)
    ensures r.bedOccupancy == BaseOccupancy(h.id, h.kind.IsGovernment(), d.occupancy)
    ensures r.occupiedBeds + r.availableBeds == r.totalBeds
    ensures r.occupiedIcu + r.availableIcu == r.totalICU
    ensures ValidInitDraws(d) && h.totalBeds > 0.0 ==> 0.0 < r.occupiedBeds < r.totalBeds
    ensures ValidInitDraws(d) && h.totalICU >= 0.0 ==> 0.0 <= r.occupiedIcu <= r.totalICU
    ensures r.icuOccupancy <= 100.0
    ensures 10.0 <= r.fatigue <= 100.0
    ensures 30.0 <= r.satisfaction <= 90.0
    ensures h.id == ANCHOR_ID ==> r.fatigue == 70.0 && r.satisfaction == 68.0 && r.currentWaitTime == 120.0
    ensures h.id != ANCHOR_ID && ValidInitDraws(d) ==>
      58.5 <= r.fatigue < 63.5 && 68.5 <= r.satisfaction < 73.5
    ensures r.bedStatus == BedStatus.Critical <==> r.bedOccupancy > 95.0
    ensures r.bedStatus == HighOccupancy <==> 80.0 < r.bedOccupancy <= 95.0
  {
    var base := BaseOccupancy(h.id, h.kind.IsGovernment(), d.occupancy);
    var occupied := PercentOf(base, h.totalBeds);
    var bedOccupancy := (occupied / h.totalBeds) * 100.0;
    var icuBase := bedOccupancy + (d.icu * 10.0 - 5.0);
    var icu := PercentOf(icuBase, h.totalICU);
    InitCounts(base, h.totalBeds, d.icu, h.totalICU, ValidInitDraws(d));
    var anchor := h.id == ANCHOR_ID;
    var fatigue := if anchor then 70.0 else 61.0 + (d.fatigue - 0.5) * 5.0;
    var satisfaction := if anchor then 68.0 else 71.0 + (d.satisfaction - 0.5) * 5.0;
    var wait := if anchor then 120.0 else h.avgWaitTime * (1.0 + (bedOccupancy - 75.0) / 100.0);
    LiveHospital(
      h.id, h.name, h.state, h.kind, h.address, h.region, h.googleRating,
      h.minConsultCharge, h.availableHours, h.helpline, h.isTeachingHospital,
      h.totalBeds, h.totalICU, h.avgWaitTime, h.alosDays, h.edThroughput,
      Clamp(satisfaction, 30.0, 90.0), h.oxygenDays, h.ppe,
      occupied, icu, bedOccupancy, Min(100.0, IcuPercent(icu, h.totalICU)), wait,
      StatusOf(bedOccupancy), h.totalBeds - occupied, h.totalICU - icu,
      Clamp(fatigue, 10.0, 100.0))
  }

  /** A hospital on which ticks stay defined: at least 5 beds, a length of
      stay above 0.1 day, a positive average wait and fatigue in range. */
  predicate Sane(h: LiveHospital)
  {
    && h.totalBeds >= MIN_OCCUPIED && h.alosDays > 0.1 && h.avgWaitTime > 0.0
    && 10.0 <= h.fatigue <= 100.0
  }

  /** An override that keeps at least 5 beds. */
  predicate SaneOverride(ov: Option<NodalConfig>)
  {
    ov.None? || ov.value.totalBeds >= MIN_OCCUPIED
  }

  /** A catalog entry on which initialisation gives a sane hospital. */
  predicate SaneEntry(h: Hospital)
  {
    h.totalBeds >= MIN_OCCUPIED && h.alosDays > 0.1 && h.avgWaitTime > 0.0
  }

  lemma SaneIsDefined(h: LiveHospital, ov: Option<NodalConfig>, now: int, d: Draws)
    requires Sane(h) && SaneOverride(ov) && ValidDraws(d)
    ensures Defined(h, ResolveCapacity(h, ov, now), d)
    ensures ResolveCapacity(h, ov, now).beds >= MIN_OCCUPIED
  {
  }

  /** Ticks never leave the sane region: a sane hospital updated under a sane
      override with valid draws is sane again, so the next tick is defined. */
  lemma UpdateKeepsSane(h: LiveHospital, mci: MciState, ov: Option<NodalConfig>, now: int,
                        highStrainIds: seq<int>, d: Draws)
    requires Sane(h) && SaneOverride(ov) && ValidDraws(d)
    ensures Defined(h, ResolveCapacity(h, ov, now), d)
    ensures Sane(Update(h, mci, ov, now, highStrainIds, d))
  {
    SaneIsDefined(h, ov, now, d);
  }

  lemma InitIsSane(h: Hospital, d: InitDraws)
    requires SaneEntry(h)
    ensures Sane(Init(h, d))
  {
  }

  /** A declared incident changes nothing for hospitals outside its region. */
  lemma IncidentElsewhereIgnored(h: LiveHospital, mci: MciState, ov: Option<NodalConfig>, now: int,
                                 highStrainIds: seq<int>, d: Draws)
    requires Defined(h, ResolveCapacity(h, ov, now), d)
    requires !InIncidentRegion(mci, h.region)
    ensures Update(h, mci, ov, now, highStrainIds, d) == Update(h, MciState(false, None), ov, now, highStrainIds, d)
  {
  }

  /** An override for another hospital, or an expired one, changes nothing. */
  lemma InactiveOverrideUpdate(h: LiveHospital, mci: MciState, ov: Option<NodalConfig>, now: int,
                               highStrainIds: seq<int>, d: Draws)
    requires ov.Some? && (ov.value.hospitalId != h.id || now >= ov.value.activeUntil)
    requires Defined(h, ResolveCapacity(h, ov, now), d)
    ensures Update(h, mci, ov, now, highStrainIds, d) == Update(h, mci, None, now, highStrainIds, d)
  {
    InactiveOverrideIgnored(h, ov, now);
  }
}
