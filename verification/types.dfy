/** The records of `src/types/index.ts` that the simulation reads and writes.
    Counts are reals because the source keeps them as unrounded numbers;
    identifiers and millisecond timestamps are integers. */
module Types {
  import opened Common

  datatype Region = North | South | East | West | Central

  const AllRegions: set<Region> := {North, South, East, West, Central}

  /** PPE stock, in the order the engine walks through it. */
  datatype Ppe = Good | Low | Critical | Stockout {
    function Index(): (i: nat)
      ensures i < 4
    {
      match this
      case Good => 0
      case Low => 1
      case Critical => 2
      case Stockout => 3
    }
  }

  function PpeAt(i: nat): (p: Ppe)
    requires i < 4
    ensures p.Index() == i
  {
    if i == 0 then Good else if i == 1 then Low else if i == 2 then Ppe.Critical else Stockout
  }

  /** Four declared variants; no update rule produces `AcceptingTransfers`. */
  datatype BedStatus = Available | HighOccupancy | Critical | AcceptingTransfers

  /** The seven ownership categories a hospital `type` takes. */
  datatype Ownership =
    | GovernmentCentral | GovernmentState | GovernmentUT
    | PrivateTrust | PrivateLarge | PrivateMidSize | PrivateSpeciality
  {
    function Label(): string
    {
      match this
      case GovernmentCentral => "Government (Central)"
      case GovernmentState => "Government (State)"
      case GovernmentUT => "Government (UT)"
      case PrivateTrust => "Private (Trust)"
      case PrivateLarge => "Private (Large)"
      case PrivateMidSize => "Private (Mid-size)"
      case PrivateSpeciality => "Private (Speciality)"
    }

    /** The labels that contain "government" once lower-cased: the public sector. */
    predicate IsGovernment()
    {
      GovernmentCentral? || GovernmentState? || GovernmentUT?
    }
  }

  /** A catalog entry: fixed for the process lifetime. */
  datatype Hospital = Hospital(
    id: int,
    name: string,
    state: string,
    kind: Ownership,
    address: string,
    region: Region,
    googleRating: real,
    minConsultCharge: real,
    availableHours: string,
    helpline: string,
    isTeachingHospital: bool,
    totalBeds: real,
    totalICU: real,
    avgWaitTime: real,
    alosDays: real,
    edThroughput: real,
    satisfaction: real,
    oxygenDays: real,
    ppe: Ppe)

  /** A catalog entry together with its live operational state. */
  datatype LiveHospital = LiveHospital(
    id: int,
    name: string,
    state: string,
    kind: Ownership,
    address: string,
    region: Region,
    googleRating: real,
    minConsultCharge: real,
    availableHours: string,
    helpline: string,
    isTeachingHospital: bool,
    totalBeds: real,
    totalICU: real,
    avgWaitTime: real,
    alosDays: real,
    edThroughput: real,
    satisfaction: real,
    oxygenDays: real,
    ppe: Ppe,
    occupiedBeds: real,
    occupiedIcu: real,
    bedOccupancy: real,
    icuOccupancy: real,
    currentWaitTime: real,
    bedStatus: BedStatus,
    availableBeds: real,
    availableIcu: real,
    fatigue: real)

  /** The catalog fields no update rule rewrites. */
  predicate SameProfile(a: LiveHospital, b: LiveHospital)
  {
    && a.id == b.id && a.name == b.name && a.state == b.state && a.kind == b.kind
    && a.address == b.address && a.region == b.region && a.googleRating == b.googleRating
    && a.minConsultCharge == b.minConsultCharge && a.availableHours == b.availableHours
    && a.helpline == b.helpline && a.isTeachingHospital == b.isTeachingHospital
    && a.avgWaitTime == b.avgWaitTime && a.edThroughput == b.edThroughput
  }

  predicate ProfileOf(h: Hospital, l: LiveHospital)
  {
    && l.id == h.id && l.name == h.name && l.state == h.state && l.kind == h.kind
    && l.address == h.address && l.region == h.region && l.googleRating == h.googleRating
    && l.minConsultCharge == h.minConsultCharge && l.availableHours == h.availableHours
    && l.helpline == h.helpline && l.isTeachingHospital == h.isTeachingHospital
    && l.totalBeds == h.totalBeds && l.totalICU == h.totalICU
    && l.avgWaitTime == h.avgWaitTime && l.alosDays == h.alosDays
    && l.edThroughput == h.edThroughput && l.oxygenDays == h.oxygenDays && l.ppe == h.ppe
  }

  /** The declared incident: `region` may be absent. */
  datatype MciState = MciState(isActive: bool, region: Option<Region>)

  /** A manual capacity override, honoured while `now < activeUntil`. */
  datatype NodalConfig = NodalConfig(
    hospitalId: int,
    totalBeds: real,
    totalICU: real,
    activeUntil: int,
    oxygenDays: real,
    ppe: Ppe)

  /** One aggregated national sample (`HistoricalStat`). */
  datatype HistoryPoint = HistoryPoint(
    date: int,
    avgOccupancy: real,
    avgFatigue: real,
    avgSatisfaction: real,
    avgWaitTime: real,
    regional: map<Region, real>,
    criticalHospitals: int)

  /** One per-hospital daily sample (`HistoricalDataPoint`). */
  datatype DayPoint = DayPoint(
    date: int,
    occupancy: real,
    icuOccupancy: real,
    waitTime: real,
    fatigue: real,
    satisfaction: real)
}
