/** The stages the three copies of `updateLiveMetrics` share: capacity
    resolution under a manual override, the raw bed-flow delta with its
    incident shock, rate limiting, the clamped flow step, the drift ("rubber
    band") step and the bed-status thresholds. */
module UpdateRule {
  import opened Common
  import opened Types

  const ANCHOR_ID: int := 150
  const INCIDENT_SHOCK: real := 3.0
  const MIN_OCCUPIED: real := 5.0

  /** The capacity figures a tick works with. */
  datatype Capacity = Capacity(beds: real, icu: real, oxygen: real)

  /** An override counts for `id` only while it names `id` and has not expired. */
  predicate OverrideActive(ov: Option<NodalConfig>, id: int, now: int)
  {
    ov.Some? && ov.value.hospitalId == id && now < ov.value.activeUntil
  }

  function ResolveCapacity(h: LiveHospital, ov: Option<NodalConfig>, now: int): (c: Capacity)
    ensures OverrideActive(ov, h.id, now) ==>
      c == Capacity(ov.value.totalBeds, ov.value.totalICU, ov.value.oxygenDays)
    ensures !OverrideActive(ov, h.id, now) ==> c == Capacity(h.totalBeds, h.totalICU, h.oxygenDays)
  {
    if ov.Some? && h.id == ov.value.hospitalId && now < ov.value.activeUntil then
      Capacity(ov.value.totalBeds, ov.value.totalICU, ov.value.oxygenDays)
    else
      Capacity(h.totalBeds, h.totalICU, h.oxygenDays)
  }

  /** An expired override, or one for another hospital, resolves exactly as no
      override at all. */
  lemma InactiveOverrideIgnored(h: LiveHospital, ov: Option<NodalConfig>, now: int)
    requires ov.Some? && (ov.value.hospitalId != h.id || now >= ov.value.activeUntil)
    ensures ResolveCapacity(h, ov, now) == ResolveCapacity(h, None, now)
  {
  }

  predicate InIncidentRegion(mci: MciState, region: Region)
  {
    mci.isActive && mci.region == Some(region)
  }

  /** Length of stay jittered by ±0.1 day. */
  function DynamicAlos(h: LiveHospital, draw: real): real
  {
    h.alosDays + (draw - 0.5) * 0.2
  }

  /** `discharge − admission + noise`, less 3 beds when an incident is
      declared in the hospital's region. */
  function RawBedChange(h: LiveHospital, alosDraw: real, shockDraw: real, amplitude: real, inIncident: bool): real
    requires DynamicAlos(h, alosDraw) != 0.0
  {
    var discharge := (h.occupiedBeds / DynamicAlos(h, alosDraw)) / 24.0;
    var admission := (h.edThroughput / 24.0) * 0.24;
    var raw := discharge - admission + (shockDraw - 0.5) * amplitude;
    if inIncident then raw - INCIDENT_SHOCK else raw
  }

  /** The incident shock takes exactly 3 beds off the raw delta. */
  lemma IncidentShock(h: LiveHospital, alosDraw: real, shockDraw: real, amplitude: real)
    requires DynamicAlos(h, alosDraw) != 0.0
    ensures RawBedChange(h, alosDraw, shockDraw, amplitude, true)
         == RawBedChange(h, alosDraw, shockDraw, amplitude, false) - 3.0
  {
  }

  /** `Math.min(|raw|, max) · Math.sign(raw)`: the applied change keeps the
      sign of the raw one and its magnitude is capped at `max`. */
  function LimitChange(raw: real, max: real): (r: real)
    requires max > 0.0
    ensures -max <= r <= max
    ensures raw > 0.0 ==> r > 0.0
    ensures raw < 0.0 ==> r < 0.0
    ensures raw == 0.0 ==> r == 0.0
    ensures Abs(r) == Min(Abs(raw), max)
    ensures Abs(raw) <= max ==> r == raw
  {
    Min(Abs(raw), max) * Sign(raw)
  }

  lemma LimitChangeMonotone(x: real, y: real, max: real)
    requires max > 0.0 && x <= y
    ensures LimitChange(x, max) <= LimitChange(y, max)
  {
  }

  /** Occupancy after the flow: previous occupancy less the limited change,
      kept in `[5, totalBeds]`. */
  function FlowStep(occupied: real, change: real, totalBeds: real): (r: real)
    ensures r >= MIN_OCCUPIED
    ensures totalBeds >= MIN_OCCUPIED ==> r <= totalBeds
  {
    Clamp(occupied - change, MIN_OCCUPIED, totalBeds)
  }

  /** A larger raw delta (more discharges) never leaves more beds occupied:
      removing the incident shock can only lower the flow-step occupancy. */
  lemma FlowStepAntitone(occupied: real, raw1: real, raw2: real, max: real, totalBeds: real)
    requires max > 0.0 && raw1 <= raw2
    ensures FlowStep(occupied, LimitChange(raw2, max), totalBeds)
         <= FlowStep(occupied, LimitChange(raw1, max), totalBeds)
  {
    LimitChangeMonotone(raw1, raw2, max);
    ClampMonotone(occupied - LimitChange(raw2, max), occupied - LimitChange(raw1, max), MIN_OCCUPIED, totalBeds);
  }

  /** Mean reversion: move occupancy `factor` of the way from its current
      percentage to `target` percent, then clamp to `[5, totalBeds]`. */
  function DriftStep(occupied: real, totalBeds: real, target: real, factor: real): (r: real)
    requires totalBeds != 0.0
    ensures r >= MIN_OCCUPIED
    ensures totalBeds >= MIN_OCCUPIED ==> r <= totalBeds
  {
    var current := (occupied / totalBeds) * 100.0;
    var drift := (target - current) * factor;
    Clamp(occupied + (drift / 100.0) * totalBeds, MIN_OCCUPIED, totalBeds)
  }

  /** Beds the target percentage stands for. */
  function TargetBeds(totalBeds: real, target: real): real
  {
    target / 100.0 * totalBeds
  }

  /** The drift moves occupancy the fraction `factor` of the way to the
      target's bed count, then clamps. */
  lemma {:induction false} DriftIsFraction(occupied: real, totalBeds: real, target: real, factor: real)
    requires totalBeds != 0.0
    ensures DriftStep(occupied, totalBeds, target, factor)
         == Clamp(occupied + (TargetBeds(totalBeds, target) - occupied) * factor, MIN_OCCUPIED, totalBeds)
  {
    var current := (occupied / totalBeds) * 100.0;
    assert current / 100.0 * totalBeds == occupied;
    calc {
      (((target - current) * factor) / 100.0) * totalBeds;
      ((target / 100.0 * totalBeds) - (current / 100.0 * totalBeds)) * factor;
      (TargetBeds(totalBeds, target) - occupied) * factor;
    }
  }

  /** Moving a fraction `f` in `[0, 1]` of the way from `a` to `b` stays
      between them. */
  lemma Interpolate(a: real, b: real, f: real)
    requires 0.0 <= f <= 1.0
    ensures Min(a, b) <= a + (b - a) * f <= Max(a, b)
  {
    var d := b - a;
    if a <= b {
      ProductNonNegative(d, f);
      ProductNonNegative(d, 1.0 - f);
      assert d * (1.0 - f) == d - d * f;
    } else {
      ProductNonNegative(-d, f);
      ProductNonNegative(-d, 1.0 - f);
      assert (-d) * (1.0 - f) == d * f - d;
      assert (-d) * f == -(d * f);
    }
  }

  /** With a factor in `[0, 1]` the drift never overshoots: from an in-range
      occupancy the result lies between the occupancy and the target. */
  lemma DriftNoOvershoot(occupied: real, totalBeds: real, target: real, factor: real)
    requires totalBeds >= MIN_OCCUPIED
    requires MIN_OCCUPIED <= occupied <= totalBeds
    requires 0.0 <= factor <= 1.0
    ensures Min(occupied, TargetBeds(totalBeds, target)) <= DriftStep(occupied, totalBeds, target, factor)
    ensures DriftStep(occupied, totalBeds, target, factor) <= Max(occupied, TargetBeds(totalBeds, target))
  {
    var g := TargetBeds(totalBeds, target);
    var x := occupied + (g - occupied) * factor;
    Interpolate(occupied, g, factor);
    ClampBetween(occupied, x, MIN_OCCUPIED, totalBeds);
    DriftIsFraction(occupied, totalBeds, target, factor);
  }

  /** `bedStatus`: above 95 % critical, above 80 % high occupancy. */
  function StatusOf(occupancy: real): (s: BedStatus)
    ensures s == BedStatus.Critical <==> occupancy > 95.0
    ensures s == HighOccupancy <==> 80.0 < occupancy <= 95.0
    ensures s == Available <==> occupancy <= 80.0
    ensures s != AcceptingTransfers
  {
    if occupancy > 95.0 then BedStatus.Critical
    else if occupancy > 80.0 then HighOccupancy
    else Available
  }

  /** ICU percentage: zero without ICU beds. */
  function IcuPercent(occupiedIcu: real, totalIcu: real): (p: real)
    ensures totalIcu <= 0.0 ==> p == 0.0
    ensures totalIcu > 0.0 && 0.0 <= occupiedIcu <= totalIcu ==> 0.0 <= p <= 100.0
  {
    if totalIcu > 0.0 then
      var p := (occupiedIcu / totalIcu) * 100.0;
      assert 0.0 <= occupiedIcu <= totalIcu ==> 0.0 <= p <= 100.0 by {
        if 0.0 <= occupiedIcu <= totalIcu {
          PercentBounds(occupiedIcu, totalIcu);
        }
      }
      p
    else 0.0
  }

  /** A random draw: `Math.random()` lies in `[0, 1)`. */
  predicate Unit(x: real)
  {
    0.0 <= x < 1.0
  }

  /** Fatigue, wait and satisfaction before the final clamps. */
  datatype Scores = Scores(fatigue: real, wait: real, satisfaction: real)

  /** The final clamps: fatigue to `[10, 100]`, the wait to `[20, 300]`,
      satisfaction to `[30, 95]`. From in-range scores the per-tick rate
      limits survive the clamps. */
  function Settle(h: LiveHospital, s: Scores, maxFatigue: real, maxSatisfaction: real): (c: Scores)
    requires -maxFatigue <= s.fatigue - h.fatigue <= maxFatigue
    requires -maxSatisfaction <= s.satisfaction - h.satisfaction <= maxSatisfaction
    ensures 10.0 <= c.fatigue <= 100.0 && 20.0 <= c.wait <= 300.0 && 30.0 <= c.satisfaction <= 95.0
    ensures 10.0 <= h.fatigue <= 100.0 ==> -maxFatigue <= c.fatigue - h.fatigue <= maxFatigue
    ensures 30.0 <= h.satisfaction <= 95.0 ==>
      -maxSatisfaction <= c.satisfaction - h.satisfaction <= maxSatisfaction
  {
    ClampKeepsStep(h.fatigue, s.fatigue, 10.0, 100.0, maxFatigue);
    ClampKeepsStep(h.satisfaction, s.satisfaction, 30.0, 95.0, maxSatisfaction);
    Scores(Clamp(s.fatigue, 10.0, 100.0), Clamp(s.wait, 20.0, 300.0), Clamp(s.satisfaction, 30.0, 95.0))
  }

  /** Wait-time multiplier for bed strain above 80 %: `gain` times the excess. */
  function Overload(strain: real, gain: real): (f: real)
    requires gain > 0.0
    ensures f >= 1.0
    ensures strain <= 0.8 ==> f == 1.0
    ensures strain > 0.8 ==> f > 1.0
  {
    if strain > 0.8 then 1.0 + (strain - 0.8) * gain else 1.0
  }

  /** `x || 1` on a number: zero becomes one. */
  function OrOne(x: real): (r: real)
    ensures r != 0.0
    ensures x != 0.0 ==> r == x
  {
    if x == 0.0 then 1.0 else x
  }

  /** `pct` per cent of `whole`. */
  function PercentOf(pct: real, whole: real): real
  {
    (pct / 100.0) * whole
  }

  /** Probability threshold of the upward ICU jitter: half as likely again
      inside an incident region. */
  function IcuUpThreshold(inIncident: bool): real
  {
    0.12 * (if inIncident then 1.5 else 1.0)
  }
}
