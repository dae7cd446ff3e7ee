/** The ambulance crew terminal: hospital tiers, the destination candidate
    filter and ranking, the mission-phase state machine and the per-hospital
    pre-alert cooldown. Distances, the clock and random draws are inputs. */
module Emergency {
  import opened Common
  import opened Types
  import opened Travel
  import opened Sorting

  /** A pre-alerted hospital may be alerted again once its entry is older
      than two minutes. */
  const NOTIFICATION_COOLDOWN_MS: int := 120000

  /** The id of the Theni anchor hospital, always a transfer source. */
  const THENI_ID: int := 150

  // ---------------------------------------------------------------------
  // Tiers

  /** Preference tier of a hospital, lower is better: the first rule that
      matches its ownership and size. */
  function Tier(h: LiveHospital): (t: real)
    ensures t in {1.0, 1.5, 2.0, 2.5, 3.0, 3.5, 4.0}
    ensures h.kind == GovernmentState ==> (t == 1.0 <==> h.totalBeds >= 1500.0) && (t == 3.0 <==> h.totalBeds < 1500.0)
    ensures h.kind == PrivateLarge ==> (t == 1.5 <==> h.totalBeds >= 1000.0) && (t == 4.0 <==> h.totalBeds < 1000.0)
    ensures h.kind.GovernmentCentral? || h.kind.GovernmentUT? ==> t == 4.0
    ensures t == 1.0 ==> h.kind == GovernmentState
  {
    if h.kind == GovernmentState && h.totalBeds >= 1500.0 then 1.0
    else if h.kind == PrivateLarge && h.totalBeds >= 1000.0 then 1.5
    else if h.kind == PrivateTrust then 2.0
    else if h.kind == PrivateMidSize then 2.5
    else if h.kind == GovernmentState then 3.0
    else if h.kind == PrivateSpeciality then 3.5
    else 4.0
  }

  /** Growing never demotes a hospital. */
  lemma TierMonotone(a: LiveHospital, b: LiveHospital)
    requires a.kind == b.kind && a.totalBeds <= b.totalBeds
    ensures Tier(b) <= Tier(a)
  {
  }

  // ---------------------------------------------------------------------
  // Candidates

  /** A hospital with its distance from the patient and its tier. */
  datatype Candidate = Candidate(h: LiveHospital, distance: real, tier: real)

  /** The address names one of the three served districts. */
  predicate InDistrict(h: LiveHospital)
  {
    Contains(h.address, "Theni") || Contains(h.address, "Madurai") || Contains(h.address, "Dindigul")
  }

  /** A destination the crew may be sent to: in a served district, not the
      hospital the patient is being transferred from, within the transfer
      radius and not in critical bed status. */
  predicate Eligible(c: Candidate, source: Option<int>)
  {
    && InDistrict(c.h)
    && (source.None? || c.h.id != source.value)
    && c.distance <= MAX_TRANSFER_DISTANCE
    && c.h.bedStatus != BedStatus.Critical
  }

  /** Every live hospital paired with its distance and tier. */
  function Annotate(live: seq<LiveHospital>, distances: seq<real>): (r: seq<Candidate>)
    requires |distances| == |live|
    ensures |r| == |live|
    ensures forall i :: 0 <= i < |r| ==> r[i].h == live[i] && r[i].distance == distances[i]
    ensures forall i :: 0 <= i < |r| ==> r[i].tier == Tier(live[i])
  {
    seq(|live|, i requires 0 <= i < |live| => Candidate(live[i], distances[i], Tier(live[i])))
  }

  /** The eligible hospitals in catalog order. */
  function Candidates(live: seq<LiveHospital>, distances: seq<real>, source: Option<int>): (r: seq<Candidate>)
    requires |distances| == |live|
    ensures forall c :: c in r <==> c in Annotate(live, distances) && Eligible(c, source)
    ensures multiset(r) <= multiset(Annotate(live, distances))
  {
    Filter(Annotate(live, distances), c => Eligible(c, source))
  }

  // ---------------------------------------------------------------------
  // Ranking

  /** The comparator handed to `sort`: for a critical patient tier first,
      then more free ICU beds, then distance; otherwise distance alone. */
  function Compare(critical: bool, a: Candidate, b: Candidate): real
  {
    if critical then
      if a.tier - b.tier != 0.0 then a.tier - b.tier
      else if b.h.availableIcu - a.h.availableIcu != 0.0 then b.h.availableIcu - a.h.availableIcu
      else a.distance - b.distance
    else a.distance - b.distance
  }

  /** The lexicographic order the comparator is meant to express. */
  predicate Precedes(critical: bool, a: Candidate, b: Candidate)
  {
    if critical then
      || a.tier < b.tier
      || (a.tier == b.tier && a.h.availableIcu > b.h.availableIcu)
      || (a.tier == b.tier && a.h.availableIcu == b.h.availableIcu && a.distance <= b.distance)
    else a.distance <= b.distance
  }

  lemma CompareIsLexicographic(critical: bool, a: Candidate, b: Candidate)
    ensures Compare(critical, a, b) <= 0.0 <==> Precedes(critical, a, b)
  {
  }

  /** "`a` may be placed before `b`" under the comparator. */
  function RankOrder(critical: bool): (Candidate, Candidate) -> bool
  {
    (a: Candidate, b: Candidate) => Compare(critical, a, b) <= 0.0
  }

  /** The comparator is consistent, so `sort` has a well-defined result. */
  lemma RankOrderConsistent(critical: bool)
    ensures TotalPreorder(RankOrder(critical))
  {
    var le := RankOrder(critical);
    forall a, b ensures le(a, b) || le(b, a) {
      CompareIsLexicographic(critical, a, b);
      CompareIsLexicographic(critical, b, a);
    }
    forall a, b, c | le(a, b) && le(b, c) ensures le(a, c) {
      CompareIsLexicographic(critical, a, b);
      CompareIsLexicographic(critical, b, c);
      CompareIsLexicographic(critical, a, c);
    }
  }

  /** The candidates sorted best first. */
  function Ranked(critical: bool, candidates: seq<Candidate>): (r: seq<Candidate>)
    ensures multiset(r) == multiset(candidates)
    ensures forall i, j :: 0 <= i < j < |r| ==> Precedes(critical, r[i], r[j])
  {
    RankOrderConsistent(critical);
    var r := Sort(candidates, RankOrder(critical));
    assert forall i, j :: 0 <= i < j < |r| ==> Precedes(critical, r[i], r[j]) by {
      forall i, j | 0 <= i < j < |r| ensures Precedes(critical, r[i], r[j]) {
        assert RankOrder(critical)(r[i], r[j]);
        CompareIsLexicographic(critical, r[i], r[j]);
      }
    }
    r
  }

  /** The recommended destination: the first of the ranked candidates, if
      any. */
  function Recommend(critical: bool, live: seq<LiveHospital>, distances: seq<real>, source: Option<int>)
    : (r: Option<Candidate>)
    requires |distances| == |live|
    ensures r.None? <==> forall i :: 0 <= i < |live| ==> !Eligible(Annotate(live, distances)[i], source)
    ensures r.Some? ==> r.value in Annotate(live, distances) && Eligible(r.value, source)
    ensures r.Some? ==> forall c | c in Candidates(live, distances, source) :: Precedes(critical, r.value, c)
  {
    var cs := Candidates(live, distances, source);
    var ranked := Ranked(critical, cs);
    assert |ranked| == |cs| by {
      assert |multiset(ranked)| == |multiset(cs)|;
    }
    if |ranked| == 0 then
      assert forall i :: 0 <= i < |live| ==> !Eligible(Annotate(live, distances)[i], source) by {
        forall i | 0 <= i < |live| ensures !Eligible(Annotate(live, distances)[i], source) {
          assert Annotate(live, distances)[i] in Annotate(live, distances);
        }
      }
      None
    else
      assert ranked[0] in multiset(cs);
      assert forall c | c in cs :: Precedes(critical, ranked[0], c) by {
        forall c | c in cs ensures Precedes(critical, ranked[0], c) {
          assert c in multiset(ranked);
          var k :| 0 <= k < |ranked| && ranked[k] == c;
          if k == 0 {
            CompareIsLexicographic(critical, c, c);
          }
        }
      }
      Some(ranked[0])
  }

  /** Among equally good destinations the one earliest in the catalog is
      recommended (the sort is stable). */
  lemma RecommendEarliestBest(critical: bool, live: seq<LiveHospital>, distances: seq<real>, source: Option<int>)
    requires |distances| == |live|
    ensures Recommend(critical, live, distances, source).Some? ==> exists i ::
      && FirstLeast(Candidates(live, distances, source), i, RankOrder(critical))
      && Recommend(critical, live, distances, source).value == Candidates(live, distances, source)[i]
  {
    var cs := Candidates(live, distances, source);
    if Recommend(critical, live, distances, source).Some? {
      RankOrderConsistent(critical);
      assert |Sort(cs, RankOrder(critical))| == |cs|;
      SortHeadFirstLeast(cs, RankOrder(critical));
    }
  }

  // ---------------------------------------------------------------------
  // Missions and the crew terminal

  datatype Phase = AwaitingMission | EnRouteToPatient | AwaitingHospitalSelection | EnRouteToHospital | MissionComplete

  datatype MissionKind = PatientPickup | HospitalTransfer

  /** A mission; a transfer carries the hospital the patient leaves. */
  datatype Mission = Mission(id: int, kind: MissionKind, source: Option<int>)

  /** The terminal's state. `notified` maps a hospital id to the time it was
      last pre-alerted. */
  datatype Crew = Crew(
    loggedIn: bool,
    phase: Phase,
    mission: Option<Mission>,
    recommended: Option<Candidate>,
    critical: bool,
    notifying: bool,
    onCooldown: bool,
    notified: map<int, int>)

  /** The pre-alert a hospital receives. */
  datatype Alert = Alert(eta: int, isCritical: bool, hospitalName: string, timestamp: int)

  /** The three random draws behind a mission offer, each in `[0, 1)`. */
  datatype MissionDraws = MissionDraws(offer: real, pickup: real, origin: real)

  /** A hospital a transfer may start from: the Theni anchor, or a state
      government hospital with fewer than 1000 beds. */
  predicate TransferSource(h: LiveHospital)
  {
    h.id == THENI_ID || (h.kind == GovernmentState && h.totalBeds < 1000.0)
  }

  /** Whether a mission may be offered at all. */
  predicate MayOffer(c: Crew, hasLocation: bool)
  {
    c.loggedIn && c.phase == AwaitingMission && c.mission.None? && !c.onCooldown && hasLocation
  }

  /** `Math.floor(draw * n)`: a uniformly drawn index. */
  function PickIndex(n: nat, draw: real): (k: nat)
    requires n > 0 && 0.0 <= draw < 1.0
    ensures k < n
  {
    ProductNonNegative(draw, n as real);
    assert draw * n as real < n as real;
    (draw * n as real).Floor
  }

  /** The source of a transfer offer, when one can be made: the districts
      must hold at least two hospitals and one of them must be a source. */
  function TransferOrigin(live: seq<LiveHospital>, draw: real): (r: Option<LiveHospital>)
    requires 0.0 <= draw < 1.0
    ensures r.Some? ==> r.value in live && InDistrict(r.value) && TransferSource(r.value)
    ensures r.None? <==> |Filter(live, InDistrict)| < 2 || forall h | h in live :: !(InDistrict(h) && TransferSource(h))
  {
    var local := Filter(live, InDistrict);
    var sources := Filter(local, TransferSource);
    if |local| >= 2 && |sources| > 0 then
      var h := sources[PickIndex(|sources|, draw)];
      assert h in sources;
      Some(h)
    else
      None
  }

  /** The mission offer: with probability 0.85 when idle, a patient pickup
      with probability 0.7, otherwise a transfer from a drawn source
      hospital when there is one. */
  function Offer(c: Crew, live: seq<LiveHospital>, now: int, d: MissionDraws, hasLocation: bool): (r: Crew)
    requires 0.0 <= d.origin < 1.0
    ensures r.(mission := c.mission) == c
    ensures r.mission != c.mission ==> MayOffer(c, hasLocation) && d.offer < 0.85 && r.mission.Some?
    ensures r.mission != c.mission && r.mission.value.kind == HospitalTransfer ==>
      exists h | h in live :: InDistrict(h) && TransferSource(h) && r.mission.value.source == Some(h.id)
    ensures MayOffer(c, hasLocation) && d.offer < 0.85 && d.pickup < 0.7 ==>
      r.mission == Some(Mission(now, PatientPickup, None))
    ensures MayOffer(c, hasLocation) && d.offer < 0.85 && d.pickup >= 0.7 ==>
      r.mission == match TransferOrigin(live, d.origin)
        case Some(h) => Some(Mission(now, HospitalTransfer, Some(h.id)))
        case None => c.mission
  {
    if MayOffer(c, hasLocation) && d.offer < 0.85 then
      if d.pickup < 0.7 then c.(mission := Some(Mission(now, PatientPickup, None)))
      else
        match TransferOrigin(live, d.origin)
        case Some(h) => c.(mission := Some(Mission(now, HospitalTransfer, Some(h.id))))
        case None => c
    else c
  }

  function Decline(c: Crew): (r: Crew)
    ensures r.mission.None? && r.(mission := c.mission) == c
  {
    c.(mission := None)
  }

  function Accept(c: Crew): (r: Crew)
    ensures r.phase == EnRouteToPatient && r.(phase := c.phase) == c
  {
    c.(phase := EnRouteToPatient)
  }

  /** The transfer source to exclude, when the mission has one. */
  function SourceOf(c: Crew): Option<int>
  {
    if c.mission.Some? then c.mission.value.source else None
  }

  /** Patient onboard (also "re-calculate"): recommend a destination and
      await the crew's choice; with no eligible hospital nothing changes. */
  function Onboard(c: Crew, live: seq<LiveHospital>, distances: seq<real>): (r: Crew)
    requires |distances| == |live|
    ensures (forall i :: 0 <= i < |live| ==> !Eligible(Annotate(live, distances)[i], SourceOf(c))) ==> r == c
    ensures r != c ==> r.phase == AwaitingHospitalSelection && r.recommended.Some?
    ensures r.recommended.Some? && r.recommended != c.recommended ==>
      && Eligible(r.recommended.value, SourceOf(c))
      && forall x | x in Candidates(live, distances, SourceOf(c)) :: Precedes(c.critical, r.recommended.value, x)
    ensures (exists i | 0 <= i < |live| :: Eligible(Annotate(live, distances)[i], SourceOf(c))) ==>
      && r.phase == AwaitingHospitalSelection && r.recommended.Some?
      && r.recommended.value in Annotate(live, distances) && Eligible(r.recommended.value, SourceOf(c))
      && forall x | x in Candidates(live, distances, SourceOf(c)) :: Precedes(c.critical, r.recommended.value, x)
    ensures r.(phase := c.phase, recommended := c.recommended) == c
  {
    match Recommend(c.critical, live, distances, SourceOf(c))
    case None => c
    case Some(best) => c.(recommended := Some(best), phase := AwaitingHospitalSelection)
  }

  function ToggleCritical(c: Crew): (r: Crew)
    ensures r.critical != c.critical && r.(critical := c.critical) == c
  {
    c.(critical := !c.critical)
  }

  /** The pre-alert is offered only for a hospital with no cooldown entry. */
  predicate CanNotify(c: Crew)
  {
    c.recommended.Some? && c.recommended.value.h.id !in c.notified
  }

  /** Send the pre-alert: record the hospital's time and raise the alert
      with the rounded travel estimate. */
  function Notify(c: Crew, now: int, traffic: real): (r: (Crew, Alert))
    requires c.recommended.Some?
    ensures !CanNotify(r.0)
    ensures r.0.notified.Keys == c.notified.Keys + {c.recommended.value.h.id}
    ensures r.0.notified[c.recommended.value.h.id] == now
    ensures forall id | id in c.notified && id != c.recommended.value.h.id :: r.0.notified[id] == c.notified[id]
    ensures r.0.notifying && r.0.(notified := c.notified, notifying := c.notifying) == c
    ensures r.1.timestamp == now && r.1.isCritical == c.critical && r.1.hospitalName == c.recommended.value.h.name
    ensures DynamicEta(c.recommended.value.distance, traffic) - 0.5 < r.1.eta as real <= DynamicEta(c.recommended.value.distance, traffic) + 0.5
  {
    var best := c.recommended.value;
    var alert := Alert(Round(DynamicEta(best.distance, traffic)), c.critical, best.h.name, now);
    (c.(notified := c.notified[best.h.id := now], notifying := true), alert)
  }

  /** The five-second timer after a pre-alert clears the sending flag. */
  function NotifyDone(c: Crew): (r: Crew)
    ensures !r.notifying && r.(notifying := c.notifying) == c
  {
    c.(notifying := false)
  }

  function Confirm(c: Crew): (r: Crew)
    ensures r.phase == EnRouteToHospital && r.(phase := c.phase) == c
  {
    c.(phase := EnRouteToHospital)
  }

  /** Cancelling always returns to standby and forgets the mission, the
      destination and the critical flag. */
  function Cancel(c: Crew): (r: Crew)
    ensures r.phase == AwaitingMission && r.mission.None? && r.recommended.None?
    ensures !r.critical && !r.notifying
    ensures r.loggedIn == c.loggedIn && r.onCooldown == c.onCooldown && r.notified == c.notified
  {
    c.(mission := None, recommended := None, phase := AwaitingMission, notifying := false, critical := false)
  }

  /** The reported cancellation; a mechanical failure also starts the
      maintenance standby. */
  function CancelWithReason(c: Crew, reason: string): (r: Crew)
    ensures r == Cancel(c.(onCooldown := c.onCooldown || reason == "Mechanical Failure"))
    ensures r.onCooldown <==> c.onCooldown || reason == "Mechanical Failure"
  {
    var c' := if reason == "Mechanical Failure" then c.(onCooldown := true) else c;
    Cancel(c')
  }

  function EndMaintenance(c: Crew): (r: Crew)
    ensures !r.onCooldown && r.(onCooldown := c.onCooldown) == c
  {
    c.(onCooldown := false)
  }

  /** Completion can be pressed only within one kilometre of the
      destination; without a destination or a position the distance is
      taken as 100. */
  predicate CompleteEnabled(c: Crew, currentDistance: Option<real>)
  {
    var d := if c.recommended.Some? && currentDistance.Some? then currentDistance.value else 100.0;
    !(d > 1.0)
  }

  lemma CompleteNeedsPosition(c: Crew, currentDistance: Option<real>)
    ensures CompleteEnabled(c, currentDistance) <==>
      c.recommended.Some? && currentDistance.Some? && currentDistance.value <= 1.0
  {
  }

  function Complete(c: Crew): (r: Crew)
    ensures r.phase == MissionComplete && !r.notifying
    ensures r.(phase := c.phase, notifying := c.notifying) == c
  {
    c.(phase := MissionComplete, notifying := false)
  }

  /** Five seconds after completion the terminal returns to standby. */
  function FinishMission(c: Crew): (r: Crew)
    ensures r.phase == AwaitingMission && r.mission.None? && r.recommended.None? && !r.critical
    ensures r.(phase := c.phase, mission := c.mission, recommended := c.recommended, critical := c.critical) == c
  {
    c.(mission := None, recommended := None, phase := AwaitingMission, critical := false)
  }

  /** The login screen's "Authenticate" button opens the session; the
      credentials typed there are not checked. */
  function Login(c: Crew): (r: Crew)
    ensures r.loggedIn
    ensures r.(loggedIn := c.loggedIn) == c
  {
    c.(loggedIn := true)
  }

  /** Logging out is refused while a mission is active; otherwise a
      confirmed logout clears the session, including the cooldown map. */
  function Logout(c: Crew, confirmed: bool): (r: Crew)
    ensures c.phase != AwaitingMission ==> r == c
    ensures !confirmed ==> r == c
    ensures c.phase == AwaitingMission && confirmed ==>
      && !r.loggedIn && r.mission.None? && r.recommended.None? && r.phase == AwaitingMission
      && !r.critical && !r.notifying && r.notified == map[] && r.onCooldown == c.onCooldown
  {
    if c.phase != AwaitingMission then c
    else if confirmed then
      c.(loggedIn := false, mission := None, recommended := None, phase := AwaitingMission,
         critical := false, notifying := false, notified := map[])
    else c
  }

  /** The periodic sweep: entries older than the cooldown are dropped,
      all others kept with their times. */
  function Sweep(notified: map<int, int>, now: int): (r: map<int, int>)
    ensures forall id :: id in r <==> id in notified && now - notified[id] <= NOTIFICATION_COOLDOWN_MS
    ensures forall id | id in r :: r[id] == notified[id]
  {
    map id | id in notified && now - notified[id] <= NOTIFICATION_COOLDOWN_MS :: notified[id]
  }

  /** Sweeping twice at the same time is sweeping once. */
  lemma SweepIdempotent(notified: map<int, int>, now: int)
    ensures Sweep(Sweep(notified, now), now) == Sweep(notified, now)
  {
  }

  /** A hospital alerted at `t` may be alerted again after a sweep later
      than the cooldown, and not after an earlier one. */
  lemma CooldownExpires(c: Crew, t: int, traffic: real, now: int)
    requires c.recommended.Some?
    ensures var n := Notify(c, t, traffic).0;
      CanNotify(n.(notified := Sweep(n.notified, now))) <==> now - t > NOTIFICATION_COOLDOWN_MS
  {
  }

  /** How long the transfer progress bar takes, in seconds. */
  function SimulationDuration(c: Crew, traffic: real): (r: real)
    ensures 45.0 <= r <= 90.0
    ensures c.phase != EnRouteToHospital || c.recommended.None? ==> r == 60.0
  {
    if c.phase != EnRouteToHospital || c.recommended.None? then 60.0
    else Max(45.0, Min(90.0, DynamicEta(c.recommended.value.distance, traffic) * 0.75))
  }

  // ---------------------------------------------------------------------
  // The state machine as the terminal offers it

  /** A crew action with its inputs. */
  datatype Action =
    | OfferMission(live: seq<LiveHospital>, now: int, draws: MissionDraws, hasLocation: bool)
    | DeclineMission
    | AcceptMission
    | PatientOnboard(live: seq<LiveHospital>, distances: seq<real>)
    | ToggleCriticalFlag
    | NotifyHospital(now: int, traffic: real)
    | AlertSent
    | ConfirmHospital
    | CancelMission(reason: string)
    | MaintenanceOver
    | CompleteMission(currentDistance: Option<real>)
    | MissionTimeout
    | LogIn
    | LogOut(confirmed: bool)
    | SweepCooldowns(now: int)

  /** The actions the terminal makes available in each phase. */
  predicate Offered(c: Crew, a: Action)
  {
    match a
    case OfferMission(live, _, d, _) => 0.0 <= d.origin < 1.0
    case DeclineMission => c.phase == AwaitingMission && c.mission.Some?
    case AcceptMission => c.phase == AwaitingMission && c.mission.Some?
    case PatientOnboard(live, distances) =>
      |distances| == |live| && (c.phase == EnRouteToPatient || c.phase == AwaitingHospitalSelection)
    case ToggleCriticalFlag => c.phase == AwaitingHospitalSelection
    case NotifyHospital(_, _) => c.phase == AwaitingHospitalSelection && CanNotify(c) && !c.notifying
    case AlertSent => true
    case ConfirmHospital => c.phase == AwaitingHospitalSelection
    case CancelMission(reason) => c.phase == EnRouteToHospital && reason != ""
    case MaintenanceOver => c.onCooldown
    case CompleteMission(d) => c.phase == EnRouteToHospital && CompleteEnabled(c, d)
    case MissionTimeout => c.phase == MissionComplete
    case LogIn => !c.loggedIn
    case LogOut(_) => c.loggedIn
    case SweepCooldowns(_) => true
  }

  function Apply(c: Crew, a: Action): (r: Crew)
    requires Offered(c, a)
  {
    match a
    case OfferMission(live, now, d, hasLocation) => Offer(c, live, now, d, hasLocation)
    case DeclineMission => Decline(c)
    case AcceptMission => Accept(c)
    case PatientOnboard(live, distances) => Onboard(c, live, distances)
    case ToggleCriticalFlag => ToggleCritical(c)
    case NotifyHospital(now, traffic) => Notify(c, now, traffic).0
    case AlertSent => NotifyDone(c)
    case ConfirmHospital => Confirm(c)
    case CancelMission(reason) => CancelWithReason(c, reason)
    case MaintenanceOver => EndMaintenance(c)
    case CompleteMission(_) => Complete(c)
    case MissionTimeout => FinishMission(c)
    case LogIn => Login(c)
    case LogOut(confirmed) => Logout(c, confirmed)
    case SweepCooldowns(now) => c.(notified := Sweep(c.notified, now))
  }

  /** The phase graph: standby → to patient → choosing → to hospital →
      complete → standby, with cancellation back to standby. */
  predicate PhaseStep(p: Phase, q: Phase)
  {
    || p == q
    || (p == AwaitingMission && q == EnRouteToPatient)
    || (p == EnRouteToPatient && q == AwaitingHospitalSelection)
    || (p == AwaitingHospitalSelection && q == EnRouteToHospital)
    || (p == EnRouteToHospital && (q == MissionComplete || q == AwaitingMission))
    || (p == MissionComplete && q == AwaitingMission)
  }

  /** Once a destination is being chosen or driven to, one is recorded; a
      mission is under way whenever the terminal is not on standby. */
  predicate Consistent(c: Crew)
  {
    && (c.phase == AwaitingHospitalSelection || c.phase == EnRouteToHospital || c.phase == MissionComplete
        ==> c.recommended.Some?)
    && (c.phase != AwaitingMission ==> c.mission.Some?)
  }

  lemma ApplyFollowsPhaseGraph(c: Crew, a: Action)
    requires Offered(c, a)
    ensures PhaseStep(c.phase, Apply(c, a).phase)
  {
  }

  lemma ApplyKeepsConsistent(c: Crew, a: Action)
    requires Offered(c, a) && Consistent(c)
    ensures Consistent(Apply(c, a))
  {
  }

  /** Logout is offered exactly while logged in, and the session ends only
      on standby and only when confirmed. */
  lemma LogoutOnlyOnStandby(c: Crew, confirmed: bool)
    ensures c.loggedIn <==> Offered(c, LogOut(confirmed))
    ensures Logout(c, confirmed).loggedIn != c.loggedIn ==> c.phase == AwaitingMission && confirmed
  {
  }

  /** From a closed session on standby, logging in and then confirming a
      logout closes the session again. */
  lemma SessionRoundTrip(c: Crew)
    requires !c.loggedIn && c.phase == AwaitingMission
    ensures Offered(c, LogIn) && Apply(c, LogIn).loggedIn
    ensures Apply(Apply(c, LogIn), LogOut(true)).loggedIn == c.loggedIn
  {
  }

  /** A run of offered actions. */
  function Run(c: Crew, actions: seq<Action>): (r: Option<Crew>)
    decreases |actions|
  {
    if |actions| == 0 then Some(c)
    else if Offered(c, actions[0]) then Run(Apply(c, actions[0]), actions[1..])
    else None
  }

  /** Consistency holds along every run from a consistent state. */
  lemma {:induction false} RunKeepsConsistent(c: Crew, actions: seq<Action>)
    requires Consistent(c)
    ensures Run(c, actions).Some? ==> Consistent(Run(c, actions).value)
    decreases |actions|
  {
    if |actions| > 0 && Offered(c, actions[0]) {
      ApplyKeepsConsistent(c, actions[0]);
      RunKeepsConsistent(Apply(c, actions[0]), actions[1..]);
    }
  }
}
