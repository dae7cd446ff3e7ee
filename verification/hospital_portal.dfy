/** The hospital staff portal: chart smoothing, KPI card status, the manual
    reporting form with its audit log and capacity override, the overdue
    banner and the activity feed. Clock readings are inputs. */
module HospitalPortal {
  import opened Common
  import opened Types
  import opened UpdateRule

  /** An override sent from the form is honoured for five minutes. */
  const OVERRIDE_DURATION_MS: int := 300000

  /** The critical status check is due every hour. */
  const HOURLY_CHECK_DURATION_MS: int := 3600000

  /** The audit log and the activity feed keep the newest ten entries. */
  const LOG_CAPACITY: nat := 10

  const NODAL_OFFICER_NAME: string := "Dr. Anand Kumar"

  // ---------------------------------------------------------------------
  // Chart smoothing

  /** The numeric series of a daily point. */
  datatype DayField = Occupancy | IcuOccupancy | WaitTime | Fatigue | Satisfaction

  function Get(p: DayPoint, f: DayField): real
  {
    match f
    case Occupancy => p.occupancy
    case IcuOccupancy => p.icuOccupancy
    case WaitTime => p.waitTime
    case Fatigue => p.fatigue
    case Satisfaction => p.satisfaction
  }

  /** `{ ...p, [f]: v }`. */
  function With(p: DayPoint, f: DayField, v: real): (r: DayPoint)
    ensures Get(r, f) == v && r.date == p.date
    ensures forall g | g != f :: Get(r, g) == Get(p, g)
  {
    match f
    case Occupancy => p.(occupancy := v)
    case IcuOccupancy => p.(icuOccupancy := v)
    case WaitTime => p.(waitTime := v)
    case Fatigue => p.(fatigue := v)
    case Satisfaction => p.(satisfaction := v)
  }

  /** Setting a series to the value it already has changes nothing. */
  lemma WithSame(p: DayPoint, f: DayField)
    ensures With(p, f, Get(p, f)) == p
  {
  }

  /** The window around index `i` of a series of length `n`:
      `[max(0, i - ⌊w/2⌋), min(n, i + ⌈w/2⌉))`. */
  function WindowStart(i: nat, w: nat): (lo: nat)
    ensures lo <= i
  {
    if i >= w / 2 then i - w / 2 else 0
  }

  function WindowEnd(n: nat, i: nat, w: nat): (hi: nat)
    ensures hi <= n
  {
    if i + (w + 1) / 2 <= n then i + (w + 1) / 2 else n
  }

  /** A positive width gives a window that holds `i` and at most `w`
      points. */
  lemma WindowAround(n: nat, i: nat, w: nat)
    requires i < n && w >= 1
    ensures WindowStart(i, w) <= i < WindowEnd(n, i, w)
    ensures WindowEnd(n, i, w) - WindowStart(i, w) <= w
  {
  }

  /** The mean of series `f` over the window around `i`. */
  function Smoothed(data: seq<DayPoint>, f: DayField, w: nat, i: nat): real
    requires i < |data| && w >= 1
  {
    WindowAround(|data|, i, w);
    MeanBy(data[WindowStart(i, w)..WindowEnd(|data|, i, w)], (p: DayPoint) => Get(p, f))
  }

  /** The width actually used: 5 for series longer than 30 points. */
  function ActualWidth(n: nat, w: nat): (a: nat)
    ensures n > 30 ==> a == 5
    ensures n <= 30 ==> a == w
    ensures w >= 1 ==> a >= 1
  {
    if n > 30 then 5 else w
  }

  /** Each point's series `f` replaced by its window mean; every other
      field is copied. */
  function MovingAverage(data: seq<DayPoint>, f: DayField, w: nat): (r: seq<DayPoint>)
    requires w >= 1
    ensures |r| == |data|
    ensures forall i :: 0 <= i < |r| ==> r[i].date == data[i].date
    ensures forall i, g :: 0 <= i < |r| && g != f ==> Get(r[i], g) == Get(data[i], g)
    ensures forall i :: 0 <= i < |r| ==> Get(r[i], f) == Smoothed(data, f, ActualWidth(|data|, w), i)
  {
    if |data| == 0 then []
    else
      var a := ActualWidth(|data|, w);
      seq(|data|, i requires 0 <= i < |data| => With(data[i], f, Smoothed(data, f, a, i)))
  }

  /** Smoothing never leaves the range of the data. */
  lemma SmoothedWithin(data: seq<DayPoint>, f: DayField, w: nat, lo: real, hi: real)
    requires w >= 1
    requires forall i :: 0 <= i < |data| ==> lo <= Get(data[i], f) <= hi
    ensures forall i :: 0 <= i < |data| ==> lo <= Get(MovingAverage(data, f, w)[i], f) <= hi
  {
    var a := ActualWidth(|data|, w);
    forall i | 0 <= i < |data| ensures lo <= Smoothed(data, f, a, i) <= hi {
      WindowAround(|data|, i, a);
      var s := WindowStart(i, a);
      var window := data[s..WindowEnd(|data|, i, a)];
      assert forall k :: 0 <= k < |window| ==> window[k] == data[s + k];
      MeanByBounds(window, (p: DayPoint) => Get(p, f), lo, hi);
    }
  }

  /** A flat series is left as it is. */
  lemma SmoothConstant(data: seq<DayPoint>, f: DayField, w: nat, c: real)
    requires w >= 1
    requires forall i :: 0 <= i < |data| ==> Get(data[i], f) == c
    ensures MovingAverage(data, f, w) == data
  {
    SmoothedWithin(data, f, w, c, c);
    var r := MovingAverage(data, f, w);
    forall i | 0 <= i < |data| ensures r[i] == data[i] {
      WithSame(data[i], f);
      assert Get(r[i], f) == Get(data[i], f);
      assert forall g :: Get(r[i], g) == Get(data[i], g);
    }
  }

  // ---------------------------------------------------------------------
  // KPI cards

  /** The card kinds, recognised by their titles. */
  datatype Kpi = OccupancyCard | WaitTimeCard | DutyLoadCard | ExperienceCard | OtherCard

  /** Badge colour: red, orange, yellow, green, or the card's own colour. */
  datatype Tone = Red | Orange | Yellow | Green | Plain

  datatype Badge = Badge(tone: Tone, text: string)

  /** The value a dashboard card is judged by. The occupancy card takes the
      larger of its two figures as displayed to one decimal, the wait card
      the raw current wait, the duty-load and experience cards their
      one-decimal figures; any other card its parsed value `shown`. */
  function JudgedValue(k: Kpi, h: LiveHospital, shown: real): (v: real)
    ensures k == OccupancyCard ==> v == Max(ToFixed1(h.bedOccupancy), ToFixed1(h.icuOccupancy))
    ensures k == WaitTimeCard ==> v == h.currentWaitTime
    ensures k == DutyLoadCard ==> v == ToFixed1(h.fatigue)
    ensures k == ExperienceCard ==> v == ToFixed1(h.satisfaction)
    ensures k != WaitTimeCard && k != OtherCard ==> Integral(10.0 * v)
    ensures k == OtherCard ==> v == shown
  {
    match k
    case OccupancyCard => Max(ToFixed1(h.bedOccupancy), ToFixed1(h.icuOccupancy))
    case WaitTimeCard => h.currentWaitTime
    case DutyLoadCard => ToFixed1(h.fatigue)
    case ExperienceCard => ToFixed1(h.satisfaction)
    case OtherCard => shown
  }

  /** With non-negative occupancies the card reads Critical exactly when the
      worse of the two reaches 90.05 %, and Optimal exactly when both stay
      below 75.05 %: the thresholds apply to the rounded figures. */
  lemma OccupancyBadgeThresholds(h: LiveHospital, shown: real)
    requires h.bedOccupancy >= 0.0 && h.icuOccupancy >= 0.0
    ensures Classify(OccupancyCard, JudgedValue(OccupancyCard, h, shown)).text == "Critical"
        <==> Max(h.bedOccupancy, h.icuOccupancy) >= 90.05
    ensures Classify(OccupancyCard, JudgedValue(OccupancyCard, h, shown)).text == "Optimal"
        <==> Max(h.bedOccupancy, h.icuOccupancy) < 75.05
  {
    ToFixed1Exceeds(h.bedOccupancy, 900);
    ToFixed1Exceeds(h.icuOccupancy, 900);
    ToFixed1Exceeds(h.bedOccupancy, 750);
    ToFixed1Exceeds(h.icuOccupancy, 750);
  }

  /** The duty-load card reads High Risk exactly when fatigue reaches
      70.05, and the experience card raises its compliance alert exactly when
      satisfaction stays below 64.95. */
  lemma ScoreBadgeThresholds(h: LiveHospital, shown: real)
    requires h.fatigue >= 0.0 && h.satisfaction >= 0.0
    ensures Classify(DutyLoadCard, JudgedValue(DutyLoadCard, h, shown)).text == "High Risk" <==> h.fatigue >= 70.05
    ensures Classify(ExperienceCard, JudgedValue(ExperienceCard, h, shown)).text == "COMPLIANCE ALERT"
        <==> h.satisfaction < 64.95
  {
    ToFixed1Exceeds(h.fatigue, 700);
    ToFixed1Exceeds(h.satisfaction, 649);
    var r := ToFixed1(h.satisfaction);
    assert r > 64.9 <==> r >= 65.0 by {
      assert 10.0 * r == (10.0 * r).Floor as real;
    }
  }

  /** A ward at 90.04 % shows as 90.0 and reads Warning, though the raw
      figure is above 90. */
  lemma OccupancyJustAboveNinetyWarns(h: LiveHospital)
    requires h.bedOccupancy == 90.04 && 0.0 <= h.icuOccupancy <= 90.04
    ensures Max(h.bedOccupancy, h.icuOccupancy) > 90.0
    ensures Classify(OccupancyCard, JudgedValue(OccupancyCard, h, 0.0)).text == "Warning"
  {
    OccupancyBadgeThresholds(h, 0.0);
    ToFixed1Exceeds(h.bedOccupancy, 750);
  }

  function Classify(k: Kpi, v: real): (b: Badge)
    ensures k == OccupancyCard ==>
      && (b == Badge(Red, "Critical") <==> v > 90.0)
      && (b == Badge(Orange, "Warning") <==> 75.0 < v <= 90.0)
      && (b == Badge(Green, "Optimal") <==> v <= 75.0)
    ensures k == WaitTimeCard ==>
      && (b == Badge(Red, "CRITICAL OVERDUE") <==> v >= 120.0)
      && (b == Badge(Orange, "High Strain") <==> 60.0 < v < 120.0)
      && (b == Badge(Green, "Normal") <==> v <= 60.0)
    ensures k == DutyLoadCard ==>
      && (b == Badge(Red, "High Risk") <==> v > 70.0)
      && (b == Badge(Orange, "Moderate") <==> 50.0 < v <= 70.0)
      && (b == Badge(Green, "Low Risk") <==> v <= 50.0)
    ensures k == ExperienceCard ==>
      && (b == Badge(Red, "COMPLIANCE ALERT") <==> v < 65.0)
      && (b == Badge(Yellow, "Average") <==> 65.0 <= v < 80.0)
      && (b == Badge(Green, "High") <==> v >= 80.0)
    ensures b.tone == Plain <==> k == OtherCard
  {
    match k
    case OccupancyCard =>
      if v > 90.0 then Badge(Red, "Critical") else if v > 75.0 then Badge(Orange, "Warning") else Badge(Green, "Optimal")
    case WaitTimeCard =>
      if v >= 120.0 then Badge(Red, "CRITICAL OVERDUE") else if v > 60.0 then Badge(Orange, "High Strain") else Badge(Green, "Normal")
    case DutyLoadCard =>
      if v > 70.0 then Badge(Red, "High Risk") else if v > 50.0 then Badge(Orange, "Moderate") else Badge(Green, "Low Risk")
    case ExperienceCard =>
      if v < 65.0 then Badge(Red, "COMPLIANCE ALERT") else if v < 80.0 then Badge(Yellow, "Average") else Badge(Green, "High")
    case OtherCard => Badge(Plain, "")
  }

  /** How alarming a tone is. */
  function Severity(t: Tone): nat
  {
    match t
    case Red => 2
    case Orange => 1
    case Yellow => 1
    case Green => 0
    case Plain => 0
  }

  /** Worse figures never calm a badge: more occupancy, waiting or duty load,
      or a lower experience score, gives at least the same severity. */
  lemma ClassifyMonotone(k: Kpi, better: real, worse: real)
    requires if k == ExperienceCard then worse <= better else better <= worse
    ensures Severity(Classify(k, better).tone) <= Severity(Classify(k, worse).tone)
  {
  }

  // ---------------------------------------------------------------------
  // Manual reporting

  /** The reporting form's fields. */
  datatype Form = Form(
    name: string, totalBeds: real, totalICU: real, oxygenDays: int, ppe: Ppe,
    helpline: string, minConsultCharge: real, kind: Ownership, isTeaching: bool, open247: bool)

  /** The form as first shown: the hospital's values, oxygen rounded, and
      whether its hours include "24x7". */
  function FormOf(h: LiveHospital): (f: Form)
    ensures f.oxygenDays == Round(h.oxygenDays) && (f.open247 <==> Contains(h.availableHours, "24x7"))
  {
    Form(h.name, h.totalBeds, h.totalICU, Round(h.oxygenDays), h.ppe, h.helpline,
      h.minConsultCharge, h.kind, h.isTeachingHospital, Contains(h.availableHours, "24x7"))
  }

  /** Field by field comparison with the hospital's values. */
  predicate FormChanged(f: Form, h: LiveHospital)
  {
    || f.name != h.name || f.totalBeds != h.totalBeds || f.totalICU != h.totalICU
    || f.oxygenDays != Round(h.oxygenDays) || f.ppe != h.ppe || f.helpline != h.helpline
    || f.minConsultCharge != h.minConsultCharge || f.kind != h.kind
    || f.isTeaching != h.isTeachingHospital || f.open247 != Contains(h.availableHours, "24x7")
  }

  lemma FormChangedMeansEdited(f: Form, h: LiveHospital)
    ensures FormChanged(f, h) <==> f != FormOf(h)
  {
  }

  datatype Checklist = Checklist(bedsVerified: bool, suppliesVerified: bool, profileVerified: bool)

  const Unchecked: Checklist := Checklist(false, false, false)

  /** Submitting is blocked when nothing was edited and nothing ticked. */
  predicate SubmitDisabled(f: Form, h: LiveHospital, c: Checklist)
  {
    !FormChanged(f, h) && !(c.bedsVerified || c.suppliesVerified || c.profileVerified)
  }

  lemma SubmitDisabledIff(f: Form, h: LiveHospital, c: Checklist)
    ensures SubmitDisabled(f, h, c) <==> f == FormOf(h) && c == Unchecked
  {
  }

  /** An old or new value in the log. */
  datatype Value = Num(x: real) | Text(s: string)

  datatype AuditEntry = AuditEntry(timestamp: string, officer: string, action: string, oldValue: Value, newValue: Value)

  function YesNo(b: bool): string
  {
    if b then "Yes" else "No"
  }

  function Hours(open247: bool): string
  {
    if open247 then "24/7" else "Limited"
  }

  /** The form fields the audit log watches, in the order it checks them:
      capacity first, then profile. */
  datatype Field =
    | TotalBeds | TotalIcu | PpeStock | OxygenSupply
    | Name | Helpline | MinCharge | Kind | Teaching | Open247

  const CAPACITY_FIELDS: seq<Field> := [TotalBeds, TotalIcu, PpeStock, OxygenSupply]
  const PROFILE_FIELDS: seq<Field> := [Name, Helpline, MinCharge, Kind, Teaching, Open247]
  const AUDITED_FIELDS: seq<Field> := CAPACITY_FIELDS + PROFILE_FIELDS

  /** The action an entry for the field is logged under. */
  function Action(fl: Field): string
  {
    match fl
    case TotalBeds => "Capacity Updated: Total Beds"
    case TotalIcu => "Capacity Updated: Total ICU"
    case PpeStock => "PPE Status Updated"
    case OxygenSupply => "Oxygen Days Updated"
    case Name => "Profile Updated: Name"
    case Helpline => "Profile Updated: Helpline"
    case MinCharge => "Profile Updated: Min Charge"
    case Kind => "Profile Updated: Type"
    case Teaching => "Profile Updated: Teaching"
    case Open247 => "Profile Updated: 24/7 Status"
  }

  /** The field's value as the log records it. */
  function Logged(fl: Field, f: Form): Value
  {
    match fl
    case TotalBeds => Num(f.totalBeds)
    case TotalIcu => Num(f.totalICU)
    case PpeStock => Text(PpeLabel(f.ppe))
    case OxygenSupply => Num(f.oxygenDays as real)
    case Name => Text(f.name)
    case Helpline => Text(f.helpline)
    case MinCharge => Num(f.minConsultCharge)
    case Kind => Text(f.kind.Label())
    case Teaching => Text(YesNo(f.isTeaching))
    case Open247 => Text(Hours(f.open247))
  }

  /** The raw comparison the save makes for the field. */
  predicate Differs(fl: Field, f: Form, g: Form)
  {
    match fl
    case TotalBeds => f.totalBeds != g.totalBeds
    case TotalIcu => f.totalICU != g.totalICU
    case PpeStock => f.ppe != g.ppe
    case OxygenSupply => f.oxygenDays != g.oxygenDays
    case Name => f.name != g.name
    case Helpline => f.helpline != g.helpline
    case MinCharge => f.minConsultCharge != g.minConsultCharge
    case Kind => f.kind != g.kind
    case Teaching => f.isTeaching != g.isTeaching
    case Open247 => f.open247 != g.open247
  }

  /** The entry for an edit of the field: officer, timestamp, action, the
      old value from `g` and the new one from `f`. */
  function EntryFor(fl: Field, f: Form, g: Form, ts: string): AuditEntry
  {
    AuditEntry(ts, NODAL_OFFICER_NAME, Action(fl), Logged(fl, g), Logged(fl, f))
  }

  /** Every field is audited, once. */
  lemma AuditedFieldsComplete(fl: Field)
    ensures fl in AUDITED_FIELDS
    ensures |AUDITED_FIELDS| == 10
  {
    assert AUDITED_FIELDS == [TotalBeds, TotalIcu, PpeStock, OxygenSupply, Name, Helpline, MinCharge, Kind, Teaching, Open247];
  }

  /** Different fields are logged under different actions. */
  lemma ActionInjective(a: Field, b: Field)
    requires Action(a) == Action(b)
    ensures a == b
  {
    var x := Action(a);
    assert |x| == |Action(b)| && x[0] == Action(b)[0];
    if |x| > 17 {
      assert x[17] == Action(b)[17];
    }
  }

  /** The fields of `fls` that differ, in order. */
  function Edited(fls: seq<Field>, f: Form, g: Form): seq<Field>
  {
    Filter(fls, fl => Differs(fl, f, g))
  }

  /** Filtering a non-empty list looks at its head, then filters the rest. */
  lemma EditedStep(fls: seq<Field>, f: Form, g: Form)
    requires |fls| > 0
    ensures Edited(fls, f, g) ==
      if Differs(fls[0], f, g) then [fls[0]] + Edited(fls[1..], f, g) else Edited(fls[1..], f, g)
  {
    assert fls == [fls[0]] + fls[1..];
  }

  /** The entries for the edited fields of `fls`, one per field in the order
      of `fls`. */
  function EntriesFor(fls: seq<Field>, f: Form, g: Form, ts: string): (r: seq<AuditEntry>)
    ensures |r| == |Edited(fls, f, g)|
    ensures forall i | 0 <= i < |r| :: r[i] == EntryFor(Edited(fls, f, g)[i], f, g, ts)
  {
    if |fls| == 0 then []
    else
      var rest := EntriesFor(fls[1..], f, g, ts);
      EditedStep(fls, f, g);
      if Differs(fls[0], f, g) then [EntryFor(fls[0], f, g, ts)] + rest else rest
  }

  /** A field of `fls` has its entry in the list exactly when it was edited. */
  lemma EntriesRecordEdits(fls: seq<Field>, f: Form, g: Form, ts: string, fl: Field)
    requires fl in fls
    ensures Differs(fl, f, g) <==> EntryFor(fl, f, g, ts) in EntriesFor(fls, f, g, ts)
  {
    var r := EntriesFor(fls, f, g, ts);
    var ed := Edited(fls, f, g);
    if Differs(fl, f, g) {
      var i :| 0 <= i < |ed| && ed[i] == fl;
      assert r[i] == EntryFor(fl, f, g, ts);
    }
    if EntryFor(fl, f, g, ts) in r {
      var i :| 0 <= i < |r| && r[i] == EntryFor(fl, f, g, ts);
      ActionInjective(ed[i], fl);
      assert ed[i] in ed;
    }
  }

  /** The new audit entries of a save against the form built from the
      hospital's current values, `g`: exactly one entry per edited field,
      in the order capacity (beds, ICU, PPE, oxygen) then profile (name,
      helpline, fee, type, teaching, hours). */
  function AuditEntries(f: Form, g: Form, ts: string): (r: seq<AuditEntry>)
    ensures forall fl :: Differs(fl, f, g) <==> EntryFor(fl, f, g, ts) in r
    ensures |r| == |Edited(AUDITED_FIELDS, f, g)| <= 10
    ensures forall i | 0 <= i < |r| :: r[i] == EntryFor(Edited(AUDITED_FIELDS, f, g)[i], f, g, ts)
  {
    var r := EntriesFor(AUDITED_FIELDS, f, g, ts);
    assert forall fl :: Differs(fl, f, g) <==> EntryFor(fl, f, g, ts) in r by {
      forall fl
        ensures Differs(fl, f, g) <==> EntryFor(fl, f, g, ts) in r
      {
        AuditedFieldsComplete(fl);
        EntriesRecordEdits(AUDITED_FIELDS, f, g, ts, fl);
      }
    }
    AuditedFieldsComplete(TotalBeds);
    r
  }

  /** One entry per edited field: none exactly when nothing was edited. */
  lemma NoEditsNoEntries(f: Form, h: LiveHospital, ts: string)
    ensures |AuditEntries(f, FormOf(h), ts)| == 0 <==> !FormChanged(f, h)
  {
    var g := FormOf(h);
    var r := AuditEntries(f, g, ts);
    FormChangedMeansEdited(f, h);
    if f != g {
      var fl := SomeEdit(f, g);
      assert EntryFor(fl, f, g, ts) in r;
    }
    if |r| > 0 {
      var ed := Edited(AUDITED_FIELDS, f, g);
      assert ed[0] in ed;
      assert Differs(ed[0], f, g);
    }
  }

  /** Two different forms differ in some audited field. */
  lemma SomeEdit(f: Form, g: Form) returns (fl: Field)
    requires f != g
    ensures Differs(fl, f, g)
  {
    fl :=
      if f.totalBeds != g.totalBeds then TotalBeds
      else if f.totalICU != g.totalICU then TotalIcu
      else if f.ppe != g.ppe then PpeStock
      else if f.oxygenDays != g.oxygenDays then OxygenSupply
      else if f.name != g.name then Name
      else if f.helpline != g.helpline then Helpline
      else if f.minConsultCharge != g.minConsultCharge then MinCharge
      else if f.kind != g.kind then Kind
      else if f.isTeaching != g.isTeaching then Teaching
      else Open247;
  }

  function PpeLabel(p: Ppe): string
  {
    match p
    case Good => "Good"
    case Low => "Low"
    case Critical => "Critical"
    case Stockout => "Stockout"
  }

  /** `news.concat(older).slice(0, cap)`: newest first, oldest dropped. */
  function Prepend<T>(news: seq<T>, older: seq<T>, cap: nat): (r: seq<T>)
    ensures |r| == if |news| + |older| <= cap then |news| + |older| else cap
    ensures r <= news + older
    ensures |news| <= cap ==> news <= r
  {
    var all := news + older;
    if |all| <= cap then all else all[..cap]
  }

  /** The feed line a manual sync adds. */
  const SYNC_MESSAGE: string := "Manual capacity update validated and synced to national server."

  /** What a save produces: the new log, the override, a cleared checklist,
      the time of the last critical update and the activity feed. */
  datatype Saved = Saved(log: seq<AuditEntry>, config: NodalConfig, checklist: Checklist, lastUpdate: int, feed: seq<string>)

  /** Saving the form: the audit entries go on top of the log, the override
      is handed to the manual sync, which stamps the critical update with
      the current time and adds a MANUAL line to the feed. `clock` is the
      wall-clock time as the feed formats it. */
  function Save(f: Form, h: LiveHospital, log: seq<AuditEntry>, ts: string, now: int,
                feed: seq<string>, clock: string): (r: Saved)
    ensures var news := AuditEntries(f, FormOf(h), ts);
      && |r.log| == (if |news| + |log| <= LOG_CAPACITY then |news| + |log| else LOG_CAPACITY)
      && news <= r.log && r.log <= news + log
    ensures !FormChanged(f, h) ==> r.log == Prepend([], log, LOG_CAPACITY)
    ensures r.config.hospitalId == h.id && r.config.activeUntil == now + OVERRIDE_DURATION_MS
    ensures r.config.totalBeds == f.totalBeds && r.config.totalICU == f.totalICU
    ensures r.config.oxygenDays == f.oxygenDays as real && r.config.ppe == f.ppe
    ensures r.checklist == Unchecked
    ensures r.lastUpdate == now
    ensures |r.feed| > 0 && r.feed[0] == ActivityLine(clock, "MANUAL", SYNC_MESSAGE)
    ensures r.feed[1..] <= feed
    ensures |r.feed| == if |feed| < LOG_CAPACITY then |feed| + 1 else LOG_CAPACITY
  {
    NoEditsNoEntries(f, h, ts);
    Saved(Prepend(AuditEntries(f, FormOf(h), ts), log, 10),
      NodalConfig(h.id, f.totalBeds, f.totalICU, now + 300000, f.oxygenDays as real, f.ppe),
      Unchecked, now, AddActivity(feed, ActivityLine(clock, "MANUAL", SYNC_MESSAGE)))
  }

  /** The saved override steers this hospital, and no other, for exactly
      the next five minutes. */
  lemma SavedOverrideWindow(f: Form, h: LiveHospital, log: seq<AuditEntry>, ts: string, now: int,
                            feed: seq<string>, clock: string, later: int, id: int)
    ensures var ov := Some(Save(f, h, log, ts, now, feed, clock).config);
      OverrideActive(ov, id, later) <==> id == h.id && later < now + OVERRIDE_DURATION_MS
  {
  }

  /** A save clears the overdue banner: it stays clear for exactly the next
      hour. */
  lemma SaveClearsOverdue(f: Form, h: LiveHospital, log: seq<AuditEntry>, ts: string, now: int,
                          feed: seq<string>, clock: string, later: int)
    ensures !IsOverdue(now, Save(f, h, log, ts, now, feed, clock).lastUpdate)
    ensures IsOverdue(later, Save(f, h, log, ts, now, feed, clock).lastUpdate)
        <==> later > now + HOURLY_CHECK_DURATION_MS
  {
  }

  /** The overdue banner. */
  predicate IsOverdue(now: int, lastCriticalUpdate: int)
  {
    now - lastCriticalUpdate > HOURLY_CHECK_DURATION_MS
  }

  /** A fresh critical update is never overdue, and once overdue a hospital
      stays overdue until the next update. */
  lemma OverdueStaysOverdue(last: int, now: int, later: int)
    requires now <= later
    ensures !IsOverdue(last, last)
    ensures IsOverdue(now, last) ==> IsOverdue(later, last)
    ensures IsOverdue(now, last) <==> now >= last + HOURLY_CHECK_DURATION_MS + 1
  {
  }

  /** The CSS class a feed entry's prefix is coloured with. */
  function ActivityColour(kind: string): string
  {
    if kind == "AMBULANCE" then "text-red-600 font-semibold"
    else if kind == "SYSTEM" then "text-blue-500"
    else if kind == "MANUAL" then "text-teal-600 font-semibold"
    else "text-gray-600"
  }

  /** A feed entry: a coloured prefix with the first five characters of the
      clock (hours and minutes) and the kind, then the message. */
  function ActivityLine(clock: string, kind: string, message: string): (r: string)
    ensures var tail := "[" + kind + "]</span> " + message;
      |tail| <= |r| && r[|r| - |tail|..] == tail
    ensures |r| == |ActivityColour(kind)| + |kind| + |message| + 28 + (if |clock| < 5 then |clock| else 5)
  {
    var shown := if |clock| < 5 then clock else clock[..5];
    var tail := "[" + kind + "]</span> " + message;
    var r := "<span class=\"" + ActivityColour(kind) + "\">[" + shown + "] " + tail;
    assert r == ("<span class=\"" + ActivityColour(kind) + "\">[" + shown + "] ") + tail;
    r
  }

  /** A new activity line goes on top; the feed keeps ten. */
  function AddActivity(feed: seq<string>, line: string): (r: seq<string>)
    ensures |r| == if |feed| < LOG_CAPACITY then |feed| + 1 else LOG_CAPACITY
    ensures |r| > 0 && r[0] == line
    ensures r[1..] <= feed
  {
    Prepend([line], feed, 10)
  }

  /** Any run of additions keeps the feed at ten lines at most, exactly
      `min(|feed| + k, 10)` after `k` lines, with the latest line on top. */
  lemma {:induction false} ActivityBounded(feed: seq<string>, lines: seq<string>)
    requires |feed| <= LOG_CAPACITY
    ensures |AddAll(feed, lines)| <= LOG_CAPACITY
    ensures |AddAll(feed, lines)| == if |feed| + |lines| <= LOG_CAPACITY then |feed| + |lines| else LOG_CAPACITY
    ensures |lines| > 0 ==> |AddAll(feed, lines)| > 0 && AddAll(feed, lines)[0] == lines[|lines| - 1]
    decreases |lines|
  {
    if |lines| > 0 {
      ActivityBounded(AddActivity(feed, lines[0]), lines[1..]);
    }
  }

  /** Lines added one after another, oldest first. */
  function AddAll(feed: seq<string>, lines: seq<string>): seq<string>
    decreases |lines|
  {
    if |lines| == 0 then feed else AddAll(AddActivity(feed, lines[0]), lines[1..])
  }
}
