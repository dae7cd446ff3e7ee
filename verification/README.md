# Health Pulse India: simulation core and portal decisions in Dafny

This project models the Health Pulse India dashboard. The model covers three layers:

- **National simulation engine** (`src/utils/simulationEngine.ts`). It keeps a live record for every catalog hospital and ticks each one forward. Each tick has a flow step, a drift towards a target occupancy, an ICU walk, fatigue, satisfaction and wait scores, oxygen and PPE. It also folds the hospitals into a 30-point national history and serves subscribers.
- **Two helper libraries** (`helpers_strategic.ts`, `helpers_public.ts`). These are portal-side copies of the tick and initialisation with their own constants, plus the ETA formulas and the synthetic history generators.
- **Portal decision logic:**
  - the ambulance crew's mission state machine and hospital recommendation (Emergency portal);
  - the public hospital finder's filters, sort, paging and top-three recommendations (Public portal);
  - the nodal officer's moving averages, KPI badges, manual report form, audit log and override (Hospital portal);
  - the strategic portal's per-zone share of critical hospitals (`CriticalHospitalsModal`).

Everything is pure. `Math.random()` draws, `Date.now()`, the device position and the great-circle distances are parameters. Counts and percentages are `real`, as the source keeps them unrounded. Where a figure is rounded, the rounding is written out explicitly: each `Math.floor` and `Math.round`, and the one-decimal `toFixed(1)` figures that the Hospital portal's KPI badges are judged on (`Common.ToFixed1`).

Modules:

| module | file | what |
|---|---|---|
| `Common` | common.dfy | min/max/clamp/sign, floor and `Math.round`, ASCII lower-casing and substring search, filter, sums and means |
| `Types` | types.dfy | regions, PPE levels, bed status, ownership categories, catalog and live hospital records, incident state, override, history points |
| `UpdateRule` | update_rule.dfy | the stages the three copies of `updateLiveMetrics` share |
| `EngineRule` | engine_rule.dfy | the engine's `updateLiveMetrics` and `initializeSimulation` |
| `HelperRule` | helper_rule.dfy | the helpers' versions, with a constant table per copy |
| `Histories` | histories.dfy | the national, per-hospital and mock history generators |
| `Travel` | travel.dfy | the dynamic and Theni ETA formulas and the 85 km transfer radius |
| `Engine` | engine.dfy | aggregation, the history window, tick, burn-in, start, subscribe and setters |
| `Sorting` | sorting.dfy | `Array.prototype.sort` with a consistent comparator, as a stable insertion sort |
| `Emergency` | emergency.dfy | tiers, candidate ranking, the mission state machine, the alert cooldown |
| `PublicPortal` | public_portal.dfy | filter bar, filtered and sorted list, paging, recommendation score and top three |
| `HospitalPortal` | hospital_portal.dfy | moving average, KPI badges, report form, audit entries, save, activity feed |
| `CriticalModal` | critical_modal.dfy | per-zone percentage of critical hospitals |

The window always drops its first point (`nationalHistory.slice(1)`), so `Engine.AppendHistory` keeps its length fixed; from an empty window it yields just the new point.

## Model

| member | source | states |
|---|---|---|
| UpdateRule.ResolveCapacity | src/utils/simulationEngine.ts:82-88 | an override replaces beds, ICU beds and oxygen exactly while it names the hospital and `now` is before its expiry; otherwise the hospital's own figures are used |
| UpdateRule.InactiveOverrideIgnored | src/utils/simulationEngine.ts:84 | an expired override, or one for another hospital, resolves exactly as no override |
| UpdateRule.IncidentShock | src/utils/simulationEngine.ts:99-100 | a declared incident in the region takes exactly 3 beds off the raw bed delta |
| UpdateRule.LimitChange | src/utils/simulationEngine.ts:102 | the applied change keeps the raw delta's sign, has magnitude min(\|raw\|, max), and is the raw delta itself when within the limit |
| UpdateRule.LimitChangeMonotone | src/utils/simulationEngine.ts:102 | limiting preserves order between raw deltas |
| UpdateRule.FlowStep | src/utils/simulationEngine.ts:103 | occupancy after the flow is at least 5 and at most the bed count |
| UpdateRule.FlowStepAntitone | src/utils/simulationEngine.ts:97-103 | a larger raw delta (more discharges) never leaves more beds occupied |
| UpdateRule.DriftStep | src/utils/simulationEngine.ts:134-136 | occupancy after the drift is clamped to [5, beds] |
| UpdateRule.DriftIsFraction | src/utils/simulationEngine.ts:120-135 | before clamping, the drift moves occupancy the fraction `factor` of the way to the target's bed count |
| UpdateRule.DriftNoOvershoot | src/utils/simulationEngine.ts:134-136 | with a factor in [0, 1], the drift lands between the current occupancy and the target |
| UpdateRule.StatusOf | src/utils/simulationEngine.ts:220 | Critical iff above 95 %, High Occupancy iff in (80, 95], Available iff at most 80 %; never AcceptingTransfers |
| UpdateRule.IcuPercent | src/utils/simulationEngine.ts:189 | zero without ICU beds; within [0, 100] for an in-range count |
| UpdateRule.Settle | src/utils/simulationEngine.ts:217-219 | the final clamps put fatigue in [10, 100], the wait in [20, 300] and satisfaction in [30, 95]; an in-range score still moves by at most the per-tick limit |
| UpdateRule.Overload | src/utils/simulationEngine.ts:181 | the wait multiplier is 1 up to 80 % strain and above 1 beyond it |
| UpdateRule.OrOne | src/utils/simulationEngine.ts:193 | `x \|\| 1` is never zero and keeps any non-zero x |
| EngineRule.ShockAmplitude | src/utils/simulationEngine.ts:95-96 | noise amplitude is 10 for a strained hospital and 9 otherwise |
| EngineRule.Target | src/utils/simulationEngine.ts:106-117 | target 75 for hospital 150; 93/65 for public hospitals and 89/55 for private ones, strained/resting; strained targets lie above 85 |
| EngineRule.DriftFactor | src/utils/simulationEngine.ts:121-132 | pull strength 0.4 when strained, 0.12 above target, 0.1 otherwise |
| EngineRule.Occupancy | src/utils/simulationEngine.ts:90-136 | occupied beds after flow and drift stay within [5, beds] |
| EngineRule.OccupancyTowardsTarget | src/utils/simulationEngine.ts:120-136 | the tick's occupancy lies between the post-flow occupancy and the target |
| EngineRule.IncidentRaisesFlow | src/utils/simulationEngine.ts:99-103 | with identical draws, an incident in the region never lowers post-flow occupancy |
| EngineRule.IcuBaseline | src/utils/simulationEngine.ts:140-149 | ICU baseline 74 for hospital 150, otherwise within 5 points of bed occupancy |
| EngineRule.IcuOccupied | src/utils/simulationEngine.ts:139-160 | ICU occupancy after drift and jitter stays within [0, ICU beds] |
| EngineRule.IncidentRaisesIcu | src/utils/simulationEngine.ts:158 | with the same draws, an incident never lowers ICU occupancy |
| EngineRule.AnchorScores | src/utils/simulationEngine.ts:166-175 | hospital 150: fatigue and satisfaction move within the per-tick limits; its wait stays within [129.5, 132.5) |
| EngineRule.StandardScores | src/utils/simulationEngine.ts:176-186 | other hospitals: scores move within the limits; the wait is the average scaled by fatigue and strain overload |
| EngineRule.TickScores | src/utils/simulationEngine.ts:163-186 | whichever rule applies, fatigue and satisfaction move by at most 1.5 and 2.0 |
| EngineRule.StandardWaitAtLeastAverage | src/utils/simulationEngine.ts:181 | apart from hospital 150, the wait never falls below the catalog average |
| EngineRule.StrainBounds | src/utils/simulationEngine.ts:163 | strain of an in-range occupancy lies in (0, 1] |
| EngineRule.AlosFloor | src/utils/simulationEngine.ts:191 | with strain in [0, 1] and fatigue at least 8.5, the recomputed stay exceeds 2 days |
| EngineRule.TickAlos | src/utils/simulationEngine.ts:191 | the tick's length of stay exceeds 2 days from any in-range occupancy |
| EngineRule.Oxygen | src/utils/simulationEngine.ts:193-197 | stock after use is non-negative; a restock only happens below 10 days with a 15 % draw, and adds 5 to 20 days |
| EngineRule.PpeWalk | src/utils/simulationEngine.ts:199-206 | PPE moves at most one level per tick, improves only from Critical or Stockout, and stays put unless the 5 % draw fires |
| EngineRule.PpeNeverRecoversGood | src/utils/simulationEngine.ts:199-206 | once PPE leaves Good, no sequence of ticks brings it back |
| EngineRule.Update | src/utils/simulationEngine.ts:81-222 | one tick keeps the profile and uses the resolved capacity; occupied plus free equals total for beds and ICU; scores are clamped and move within the limits; bed status matches occupancy; oxygen stays non-negative |
| EngineRule.BaseOccupancy | src/utils/simulationEngine.ts:38-46 | starting occupancy is 75 for hospital 150, in [62, 68) for public and [52, 58) for private hospitals, capped at 96 |
| EngineRule.InitCounts | src/utils/simulationEngine.ts:48-53 | the stored percentage equals the base; the counts lie strictly inside the bed count |
| EngineRule.Init | src/utils/simulationEngine.ts:33-79 | initialisation keeps the catalog profile, stores the base occupancy, balances occupied and free beds, and pins hospital 150 at 70/68/120 |
| EngineRule.SaneIsDefined | src/utils/simulationEngine.ts:90-91 | a sane hospital under a sane override has a tick defined over exact reals |
| EngineRule.UpdateKeepsSane | src/utils/simulationEngine.ts:81-222 | a tick maps a sane hospital to a sane hospital |
| EngineRule.InitIsSane | src/utils/simulationEngine.ts:33-79 | initialising a sane catalog entry gives a sane hospital |
| EngineRule.IncidentElsewhereIgnored | src/utils/simulationEngine.ts:99 | an incident outside the hospital's region changes nothing about its tick |
| EngineRule.InactiveOverrideUpdate | src/utils/simulationEngine.ts:84 | an inactive override changes nothing about the tick |
| HelperRule.PublicIsDamped | src/utils/helpers_public.ts:10-12 | the public copy's bed, fatigue and satisfaction limits are all tighter than the strategic copy's; only the public copy floors counts |
| HelperRule.HelperTarget | src/utils/helpers_strategic.ts:254-263 | target 75 for hospital 150, 88 for the fixed strained list, 72 for public and 60 for private hospitals |
| HelperRule.HelperOccupancy | src/utils/helpers_strategic.ts:242-267 | occupied beds stay within [5, beds] |
| HelperRule.HelperOccupancyTowardsTarget | src/utils/helpers_strategic.ts:264-267 | the helpers' drift never overshoots the target either |
| HelperRule.IcuWalk | src/utils/helpers_strategic.ts:270-274 | ICU moves at most one bed from an in-range count, stays within [0, ICU beds], and keeps whole counts whole |
| HelperRule.AnchorWait | src/utils/helpers_strategic.ts:294-297 | hospital 150's wait moves a tenth of the way from the scaled average towards 120 |
| HelperRule.HelperAnchorScores | src/utils/helpers_strategic.ts:283-303 | hospital 150: scores move within the copy's limits and the wait follows the anchor rule |
| HelperRule.HelperStandardScores | src/utils/helpers_strategic.ts:305-325 | other hospitals: scores move within the limits and the wait is the average scaled by overload and fatigue |
| HelperRule.HelperOxygenAsWritten | src/utils/helpers_strategic.ts:331-332 | the unguarded consumption is undefined exactly when ICU or total beds are zero |
| HelperRule.NoIcuOxygenUndefined | src/utils/helpers_strategic.ts:331 | a hospital with no ICU beds loses its oxygen figure |
| HelperRule.HelperOxygen | src/utils/helpers_strategic.ts:331-332 | the guarded stock is non-negative, agrees with the written formula wherever that is defined, and never grows |
| HelperRule.Stored | src/utils/helpers_public.ts:320-321 | counts are floored in the public copy and exact in the strategic one |
| HelperRule.HelperUpdate | src/utils/helpers_strategic.ts:228-348 | one helper tick keeps the profile and PPE, uses the resolved capacity, keeps counts in range (whole in the public copy), clamps scores, and matches bed status to occupancy |
| HelperRule.StoredBounds | src/utils/helpers_public.ts:320-321 | flooring keeps the 5-bed floor and non-negative ICU counts, and keeps a one-bed ICU step |
| HelperRule.PublicBedsAccount | src/utils/helpers_public.ts:320-321 | flooring occupied and free beds separately can lose one bed, and loses none for a whole occupancy |
| HelperRule.HelperBase | src/utils/helpers_strategic.ts:184-194 | starting occupancy: 75 for hospital 150, [86, 91) for the strained list, [68, 75) for public and [55, 65) for private hospitals |
| HelperRule.HelperInitCounts | src/utils/helpers_strategic.ts:196-200 | floored starting counts are non-negative and never exceed the base percentage |
| HelperRule.HelperInit | src/utils/helpers_strategic.ts:183-226 | whole starting counts, balanced occupied and free beds, never Critical at the start, hospital 150 pinned at 70/68/120 |
| Histories.NationalDay | src/utils/helpers_strategic.ts:19-53 | a national day has occupancy in [60, 70], wait in [40, 150], every region present and 5 to 14 critical hospitals |
| Histories.RegionalFigure | src/utils/helpers_strategic.ts:36-44 | a region's figure is the national occupancy scaled by 0.98 to 1.02 |
| Histories.InitialNationalHistory | src/utils/helpers_strategic.ts:19-53 | thirty consecutive days ending today, oldest first |
| Histories.StoredDay | src/utils/helpers_strategic.ts:167-174 | every stored day is clamped to its chart range and keeps in-range values |
| Histories.PastDay | src/utils/helpers_strategic.ts:157-165 | a past day is dated `daysAgo` back and lies within the chart ranges |
| Histories.Today | src/utils/helpers_strategic.ts:151-156 | today's point is the initial live state, through the same clamps |
| Histories.HospitalHistory | src/utils/helpers_strategic.ts:141-177 | thirty consecutive days ending with today's live state, all in range |
| Histories.MockDay | src/utils/helpers_public.ts:107-118 | a mock day: occupancy in [76.5, 80.5), 5 to 9 critical hospitals, fixed averages 61/71/90 |
| Histories.MockHistory | src/utils/helpers_public.ts:104-121 | seven consecutive mock days ending today |
| Travel.DynamicEta | src/utils/helpers_strategic.ts:55-63 | zero distance takes exactly the 5 handling minutes, and no trip takes less while the traffic factor stays non-negative |
| Travel.DynamicEtaMonotone | src/utils/helpers_public.ts:18-26 | further is never quicker for any traffic multiplier of at least -1.75, which keeps the traffic factor non-negative |
| Travel.TheniEta | src/utils/helpers_strategic.ts:131-137 | the Theni estimate is at least 5 minutes for any non-negative distance, and exactly 5 at zero distance |
| Travel.TheniEtaMonotone | src/utils/helpers_strategic.ts:131-137 | further is never quicker |
| Travel.TheniDistance | src/utils/helpers_strategic.ts:131-137 | the estimate is invertible: the distance is recovered from the minutes |
| Travel.TheniDistanceOfEta | src/utils/helpers_strategic.ts:131-137 | the distance recovered from an estimate is the distance it was computed from |
| Travel.TheniAtLeastDynamic | src/utils/helpers_strategic.ts:55-63 | for any traffic multiplier up to 1, the Theni estimate is never below the dynamic one |
| Engine.OccupancyPercent | src/utils/simulationEngine.ts:249-262 | pooled occupancy is 0 without beds and within [0, 100] when every hospital is in range |
| Engine.OccupancyWithinHospitalRange | src/utils/simulationEngine.ts:249-262 | the pooled percentage lies between the lowest and highest hospital percentage |
| Engine.InRegion | src/utils/simulationEngine.ts:254 | exactly the hospitals of the region |
| Engine.RegionPercent | src/utils/simulationEngine.ts:254-257 | a region's occupancy is within [0, 100], and 0 for a region without hospitals |
| Engine.RegionalOccupancy | src/utils/simulationEngine.ts:252-258 | every region has an entry, namely its own percentage |
| Engine.CriticalCount | src/utils/simulationEngine.ts:267 | the count is the number of hospitals above 85 % bed occupancy: 0 iff none is, all of them iff every one is |
| Engine.Aggregate | src/utils/simulationEngine.ts:249-268 | the appended point carries the date, the pooled occupancy 100·Σoccupied/Σbeds, each region's occupancy computed the same way, the mean fatigue, satisfaction and wait, and the critical count; its figures are plausible for settled hospitals |
| Engine.InitialHistory | src/utils/simulationEngine.ts:224-230 | thirty all-zero points |
| Engine.AppendHistory | src/utils/simulationEngine.ts:270 | the oldest point leaves, the new point arrives last, and the length stays the same |
| Engine.AppendAllWindow | src/utils/simulationEngine.ts:270 | after several appends the window holds the latest points |
| Engine.WindowReplaced | src/utils/simulationEngine.ts:286-313 | a full window of new points replaces every old one |
| Engine.UpdateAll | src/utils/simulationEngine.ts:246 | every hospital of the store stays sane, settles within the clamps and keeps its profile |
| Engine.UpdateAllPointwise | src/utils/simulationEngine.ts:246 | entry i is hospital i ticked with its own draws under the shared incident, override and cohort |
| Engine.Tick | src/utils/simulationEngine.ts:234-272 | a tick updates every hospital under the cohort, keeping each sane, settled and in profile, slides the window by one point that is the Aggregate of the updated store at the tick's date, and changes nothing else |
| Engine.TickUpdatesStore | src/utils/simulationEngine.ts:234-272 | the tick's store is UpdateAll of the old store under the cohort, and the appended point is the Aggregate of that store |
| Engine.InitAll | src/utils/simulationEngine.ts:280 | the live store lines up with the catalog and every hospital is sane |
| Engine.TracksStep | src/utils/simulationEngine.ts:293 | tracking the catalog survives a tick |
| Engine.BurnInStep | src/utils/simulationEngine.ts:305-313 | after burn-in tick i, the last i+1 points are dated one minute apart up to a minute before now |
| Engine.BurnInTick | src/utils/simulationEngine.ts:286-314 | one burn-in tick keeps tracking and extends the burn-in window |
| Engine.Start | src/utils/simulationEngine.ts:279-321 | start initialises every hospital, runs 30 back-dated ticks, marks the engine initialised and ticks once live: the full window holds burn-in points dated 29 down to 1 minutes before start, then the live point dated at that tick, all plausible |
| Engine.FirstLiveTick | src/utils/simulationEngine.ts:319 | the closing tick keeps every hospital tracked, drops the oldest burn-in point and appends a plausible point dated at its own clock |
| Engine.Subscribe | src/utils/simulationEngine.ts:324-328 | the callback joins the list and is served at once exactly when the engine is initialised |
| Engine.Unsubscribe | src/utils/simulationEngine.ts:329-331 | every registration of the callback goes; every other callback keeps each of its registrations; nothing else changes |
| Engine.UnsubscribeIdempotent | src/utils/simulationEngine.ts:329-331 | unsubscribing twice is unsubscribing once |
| Engine.SubscribeThenUnsubscribe | src/utils/simulationEngine.ts:324-331 | unsubscribing a fresh callback right after subscribing restores the state |
| Engine.SetMci | src/utils/simulationEngine.ts:333-335 | only the incident state changes |
| Engine.SetNodalConfig | src/utils/simulationEngine.ts:336-338 | only the override changes |
| Engine.Cohort | src/utils/simulationEngine.ts:236-243 | the cohort has at most 6 + 9 ids, all drawn from the two sector lists |
| Sorting.Sort | src/portals/public/PublicPortal.tsx:227-239 | the sorted arrangement is a permutation of the input, ordered by the comparator |
| Sorting.SortHeadMinimal | src/portals/emergency/EmergencyPortal.tsx:363-364 | the first element of the sorted list may precede every input element |
| Sorting.SortSorted | src/portals/public/PublicPortal.tsx:227-239 | sorting an already sorted list changes nothing |
| Sorting.SortIdempotent | src/portals/public/PublicPortal.tsx:227-239 | sorting twice is sorting once |
| Sorting.PrefixPrecedesRest | src/portals/public/PublicPortal.tsx:213 | each of the first n sorted elements may precede everything left out |
| Sorting.SortHeadFirstLeast | src/portals/emergency/EmergencyPortal.tsx:345-364 | stability at the head: the first element is the earliest input element that may precede all others |
| Emergency.Tier | src/portals/emergency/EmergencyPortal.tsx:64-76 | state hospitals are tier 1 iff at least 1500 beds and tier 3 otherwise; large private hospitals are tier 1.5 iff at least 1000 beds and tier 4 otherwise; central and UT hospitals are tier 4; only state hospitals reach tier 1 |
| Emergency.TierMonotone | src/portals/emergency/EmergencyPortal.tsx:64-76 | within a category, more beds never gives a worse tier |
| Emergency.Annotate | src/portals/emergency/EmergencyPortal.tsx:337-341 | each hospital carries its own distance and tier |
| Emergency.Candidates | src/portals/emergency/EmergencyPortal.tsx:334-342 | a candidate is in the district, is not the source, is within 85 km and is not Critical |
| Emergency.CompareIsLexicographic | src/portals/emergency/EmergencyPortal.tsx:345-361 | the comparator means: tier, then more ICU beds, then distance for a critical patient; distance alone otherwise |
| Emergency.RankOrderConsistent | src/portals/emergency/EmergencyPortal.tsx:345-361 | the comparator is a total preorder, so the sort is well defined |
| Emergency.Ranked | src/portals/emergency/EmergencyPortal.tsx:345-361 | ranking is a permutation in comparator order |
| Emergency.Recommend | src/portals/emergency/EmergencyPortal.tsx:334-369 | there is no recommendation iff no hospital is eligible; otherwise an eligible hospital that may precede every candidate |
| Emergency.RecommendEarliestBest | src/portals/emergency/EmergencyPortal.tsx:345-364 | ties go to the earliest best hospital in store order |
| Emergency.PickIndex | src/portals/emergency/EmergencyPortal.tsx:262 | the drawn index is in range |
| Emergency.TransferOrigin | src/portals/emergency/EmergencyPortal.tsx:254-262 | a transfer needs at least two district hospitals and a source (id 150, or a state hospital under 1000 beds), and picks one |
| Emergency.Offer | src/portals/emergency/EmergencyPortal.tsx:235-281 | a mission is offered only when logged in, on standby, free, not cooling down and located, and with the 85 % draw; only the mission changes; below the 0.7 pickup draw it is a pickup, otherwise a transfer from the hospital TransferOrigin picks, and with no such origin the crew keeps its mission |
| Emergency.Decline | src/portals/emergency/EmergencyPortal.tsx:641 | declining drops the mission and nothing else |
| Emergency.Accept | src/portals/emergency/EmergencyPortal.tsx:317-321 | accepting moves to en route to the patient and nothing else |
| Emergency.Onboard | src/portals/emergency/EmergencyPortal.tsx:323-371 | with no eligible hospital the crew is unchanged; whenever one exists, an eligible hospital that may precede every candidate is recommended and the phase becomes hospital selection |
| Emergency.ToggleCritical | src/portals/emergency/EmergencyPortal.tsx:558 | the critical flag flips and nothing else changes |
| Emergency.Notify | src/portals/emergency/EmergencyPortal.tsx:374-396 | the hospital is stamped now and can no longer be notified; the alert carries the ETA rounded to the nearest minute (within half a minute, halves up), the flag and the name |
| Emergency.NotifyDone | src/portals/emergency/EmergencyPortal.tsx:395 | the five-second timer clears the sending flag and nothing else changes |
| Emergency.Confirm | src/portals/emergency/EmergencyPortal.tsx:398-402 | confirming moves to en route to the hospital |
| Emergency.Cancel | src/portals/emergency/EmergencyPortal.tsx:427-435 | cancelling returns to standby with no mission, recommendation, flag or pending alert; login, cooldown and notified map stay |
| Emergency.CancelWithReason | src/portals/emergency/EmergencyPortal.tsx:408-425 | cooldown starts exactly for "Mechanical Failure" |
| Emergency.EndMaintenance | src/portals/emergency/EmergencyPortal.tsx:416-420 | the cooldown ends and nothing else changes |
| Emergency.CompleteNeedsPosition | src/portals/emergency/EmergencyPortal.tsx:572-579 | completion is enabled exactly when a known distance of at most 1 km exists; unknown counts as 100 km |
| Emergency.Complete | src/portals/emergency/EmergencyPortal.tsx:437-441 | completing marks the mission complete and clears the pending alert |
| Emergency.FinishMission | src/portals/emergency/EmergencyPortal.tsx:442-447 | after completion the crew returns to standby with nothing carried over |
| Emergency.Login | src/portals/emergency/EmergencyPortal.tsx:602 | the login button opens the session and changes nothing else |
| Emergency.Logout | src/portals/emergency/EmergencyPortal.tsx:299-314 | logout is refused off standby or unconfirmed; a confirmed logout clears the session and the notified map |
| Emergency.Sweep | src/portals/emergency/EmergencyPortal.tsx:283-297 | an entry survives iff stamped at most 2 minutes ago, unchanged |
| Emergency.SweepIdempotent | src/portals/emergency/EmergencyPortal.tsx:283-297 | sweeping twice at the same time is sweeping once |
| Emergency.CooldownExpires | src/portals/emergency/EmergencyPortal.tsx:289 | a notified hospital becomes notifiable again after a sweep more than 2 minutes later |
| Emergency.SimulationDuration | src/portals/emergency/EmergencyPortal.tsx:219-223 | the drive lasts 45 to 90 seconds, and 60 when not driving to a recommended hospital |
| Emergency.ApplyFollowsPhaseGraph | src/portals/emergency/EmergencyPortal.tsx:539-585 | every offered action follows the mission phase graph |
| Emergency.ApplyKeepsConsistent | src/portals/emergency/EmergencyPortal.tsx:539-585 | offered actions keep the crew state consistent |
| Emergency.LogoutOnlyOnStandby | src/portals/emergency/EmergencyPortal.tsx:299-314 | logout is offered exactly while logged in (the header shows the button only then), and changes the login state only on standby and confirmed |
| Emergency.SessionRoundTrip | src/portals/emergency/EmergencyPortal.tsx:602 | from standby, logging in then confirming a logout ends logged out again |
| Emergency.RunKeepsConsistent | src/portals/emergency/EmergencyPortal.tsx:539-585 | any run of offered actions, including logins, keeps the crew state consistent |
| PublicPortal.Cleared | src/portals/public/PublicPortal.tsx:96 | clearing leaves no active filter and sorts by distance ascending |
| PublicPortal.HandleSort | src/portals/public/PublicPortal.tsx:101-108 | the same key flips direction; a new key sorts ascending |
| PublicPortal.HandleSortTwice | src/portals/public/PublicPortal.tsx:101-108 | picking the same key twice restores the view |
| PublicPortal.Without | src/portals/public/PublicPortal.tsx:97 | removing a type keeps exactly the other types |
| PublicPortal.ToggleType | src/portals/public/PublicPortal.tsx:97 | the type is removed if selected and appended otherwise |
| PublicPortal.ToggleTwice | src/portals/public/PublicPortal.tsx:97 | toggling twice restores an unselected type exactly, and a selected one up to order |
| PublicPortal.WithoutAbsent | src/portals/public/PublicPortal.tsx:97 | removing a type that is not selected leaves the selection as it was |
| PublicPortal.WithoutKeepsDistinct | src/portals/public/PublicPortal.tsx:97 | toggles never select a type twice |
| PublicPortal.ToggleTypeCount | src/portals/public/PublicPortal.tsx:97-99 | a toggle moves the filter badge by exactly one |
| PublicPortal.ActiveFilterCount | src/portals/public/PublicPortal.tsx:99 | the badge is 0 iff no type and no checkbox is active |
| PublicPortal.Rows | src/portals/public/PublicPortal.tsx:218 | each hospital carries its distance when a position is known |
| PublicPortal.SearchAndType | src/portals/public/PublicPortal.tsx:220-222 | a row survives iff its name, state or address contains the search text and its type label contains a selected type, both ignoring case; an inactive filter keeps every row |
| PublicPortal.Toggles | src/portals/public/PublicPortal.tsx:223-225 | a row survives iff it has a free ICU bed, is open 24x7 and has good PPE, each only while its checkbox is ticked |
| PublicPortal.Filtered | src/portals/public/PublicPortal.tsx:220-225 | a row survives iff it passes every active filter; no filters keep the list |
| PublicPortal.ListCompareMeaning | src/portals/public/PublicPortal.tsx:227-239 | the comparator means "in order for the key and direction" |
| PublicPortal.DescReversesAsc | src/portals/public/PublicPortal.tsx:238 | descending order is ascending order reversed |
| PublicPortal.ListOrderConsistent | src/portals/public/PublicPortal.tsx:227-239 | every key's comparator is a total preorder |
| PublicPortal.Processed | src/portals/public/PublicPortal.tsx:216-241 | the list holds exactly the matching rows, in order; without filters it is a permutation of all hospitals |
| PublicPortal.SortedRows | src/portals/public/PublicPortal.tsx:227-240 | sorting the kept rows keeps exactly them and puts every pair in order for the chosen key and direction |
| PublicPortal.Visible | src/portals/public/PublicPortal.tsx:274 | the shown rows are a prefix of the list of length min(count, rows) |
| PublicPortal.LoadMore | src/portals/public/PublicPortal.tsx:278 | one press shows 8 more |
| PublicPortal.LoadMoreReveals | src/portals/public/PublicPortal.tsx:277-278 | loading more reveals at most 8 new rows |
| PublicPortal.Score | src/portals/public/PublicPortal.tsx:198-211 | the score is 100 less the sum of the penalties for block, incident, ETA, occupancy, fatigue and scarce beds; with non-negative inputs it is at most 100, at most -400 for the blocked hospital 1 and at most -200 inside the incident region |
| PublicPortal.NearerScoresHigher | src/portals/public/PublicPortal.tsx:205 | all else equal, a nearer hospital scores at least as high |
| PublicPortal.ScoreAll | src/portals/public/PublicPortal.tsx:198-211 | each hospital is scored with its own distance and the Theni ETA for that distance |
| PublicPortal.ScoreOrderConsistent | src/portals/public/PublicPortal.tsx:213 | the score comparator is a total preorder |
| PublicPortal.Recommendations | src/portals/public/PublicPortal.tsx:196-214 | none without a position; otherwise min(3, n) hospitals, best first, none scoring below a left-out one |
| PublicPortal.Top | src/portals/public/PublicPortal.tsx:213 | the best three by score, best first |
| PublicPortal.Best | src/portals/public/PublicPortal.tsx:213 | slicing the score-sorted list keeps min(3, n) hospitals in non-increasing score, and no left-out hospital scores above a chosen one |
| HospitalPortal.With | src/portals/hospital/HospitalPortal.tsx:153 | setting one field changes only that field |
| HospitalPortal.WithSame | src/portals/hospital/HospitalPortal.tsx:153 | writing back a field's own value changes nothing |
| HospitalPortal.WindowAround | src/portals/hospital/HospitalPortal.tsx:146-149 | each window contains its point and is at most `w` wide |
| HospitalPortal.ActualWidth | src/portals/hospital/HospitalPortal.tsx:143 | series longer than 30 points are smoothed over 5 points, whatever width was asked for; shorter ones use the requested width |
| HospitalPortal.MovingAverage | src/portals/hospital/HospitalPortal.tsx:140-155 | same length and dates; only the chosen field changes, to the mean of its window |
| HospitalPortal.SmoothedWithin | src/portals/hospital/HospitalPortal.tsx:145-154 | smoothing stays within the data's bounds |
| HospitalPortal.SmoothConstant | src/portals/hospital/HospitalPortal.tsx:145-154 | smoothing a constant series changes nothing |
| HospitalPortal.JudgedValue | src/portals/hospital/HospitalPortal.tsx:164-237 | the occupancy card is judged on the worse of general and ICU occupancy as displayed to one decimal, the wait card on the raw current wait, the duty-load and experience cards on their one-decimal figures; every figure but the wait is a whole number of tenths |
| Common.ToFixed1 | src/portals/hospital/HospitalPortal.tsx:236-237 | `toFixed(1)` yields a whole number of tenths within half a tenth of the value, ties going away from zero, keeping the sign |
| Common.ToFixed1Exceeds | src/portals/hospital/HospitalPortal.tsx:221-237 | a non-negative figure displays above a tenth `t` exactly when it reaches `t` + 0.05 |
| HospitalPortal.OccupancyBadgeThresholds | src/portals/hospital/HospitalPortal.tsx:164-173 | with non-negative occupancies the card is Critical iff the worse figure reaches 90.05 % and Optimal iff both stay below 75.05 % |
| HospitalPortal.ScoreBadgeThresholds | src/portals/hospital/HospitalPortal.tsx:178-186 | the duty-load card is High Risk iff fatigue reaches 70.05; the experience card raises its alert iff satisfaction is below 64.95 |
| HospitalPortal.OccupancyJustAboveNinetyWarns | src/portals/hospital/HospitalPortal.tsx:168-172 | a ward at 90.04 % displays as 90.0 and reads Warning, though its raw occupancy exceeds 90 |
| HospitalPortal.Classify | src/portals/hospital/HospitalPortal.tsx:171-187 | each card's three bands hold exactly at their thresholds: occupancy Critical above 90, Warning above 75, else Optimal; wait CRITICAL OVERDUE from 120, High Strain above 60, else Normal; duty load High Risk above 70, Moderate above 50, else Low Risk; experience COMPLIANCE ALERT below 65, Average below 80, else High; with red, orange (yellow for Average) and green tones |
| HospitalPortal.ClassifyMonotone | src/portals/hospital/HospitalPortal.tsx:171-187 | a worse value never gets a milder badge |
| HospitalPortal.FormOf | src/portals/hospital/HospitalPortal.tsx:310-321 | the form opens with rounded oxygen and the 24x7 flag |
| HospitalPortal.FormChangedMeansEdited | src/portals/hospital/HospitalPortal.tsx:331-341 | the form counts as changed iff it differs from the opening form |
| HospitalPortal.SubmitDisabledIff | src/portals/hospital/HospitalPortal.tsx:329-343 | submit is disabled iff nothing is edited and nothing is ticked |
| HospitalPortal.AuditEntries | src/portals/hospital/HospitalPortal.tsx:351-369 | each audited field has its entry (officer, timestamp, its action, old value from the hospital, new value from the form) exactly when the save's comparison finds it edited; the entries are exactly the edited fields' ones, at most ten, in the order beds, ICU, PPE, oxygen, name, helpline, fee, type, teaching, hours |
| HospitalPortal.EntriesFor | src/portals/hospital/HospitalPortal.tsx:353-369 | the entries for a list of fields are the entries of its edited fields, one each, in list order |
| HospitalPortal.EntriesRecordEdits | src/portals/hospital/HospitalPortal.tsx:353-369 | a listed field's entry is present iff the field was edited |
| HospitalPortal.ActionInjective | src/portals/hospital/HospitalPortal.tsx:353-369 | no two fields share an action, so an entry names its field |
| HospitalPortal.AuditedFieldsComplete | src/portals/hospital/HospitalPortal.tsx:353-369 | the save checks all ten fields of the form |
| HospitalPortal.NoEditsNoEntries | src/portals/hospital/HospitalPortal.tsx:331-369 | the log gains no entry iff the form is unchanged |
| HospitalPortal.Prepend | src/portals/hospital/HospitalPortal.tsx:371 | new entries first, older after, at most `cap` |
| HospitalPortal.Save | src/portals/hospital/HospitalPortal.tsx:349-378 | the new entries go on top of the old log, which keeps exactly min(10, new + old) entries; the override names the hospital, lasts 5 minutes and carries the form; the checklist clears; the manual sync it triggers stamps the critical update now and puts its MANUAL line on top of the old feed, which grows by one up to ten |
| HospitalPortal.SaveClearsOverdue | src/portals/hospital/HospitalPortal.tsx:974-980 | after a save the overdue banner is clear, and it returns exactly when more than an hour has passed |
| HospitalPortal.ActivityLine | src/portals/hospital/HospitalPortal.tsx:896-911 | a feed entry ends with the bracketed kind and the message, and shows at most five characters of the clock |
| HospitalPortal.SavedOverrideWindow | src/portals/hospital/HospitalPortal.tsx:373 | the saved override is active for exactly the next 5 minutes, for that hospital only |
| HospitalPortal.OverdueStaysOverdue | src/portals/hospital/HospitalPortal.tsx:307-308 | a fresh update is not overdue; once overdue, a hospital stays overdue until the next update |
| HospitalPortal.AddActivity | src/portals/hospital/HospitalPortal.tsx:911 | the new line goes on top and the feed keeps ten |
| HospitalPortal.ActivityBounded | src/portals/hospital/HospitalPortal.tsx:911 | after k lines the feed holds exactly min(n + k, 10) lines, the latest on top |
| CriticalModal.ZoneSize | src/portals/strategic/components/CriticalHospitalsModal.tsx:9-15 | zone sizes lie between 24 and 41 |
| CriticalModal.DisplayOrderCoversZones | src/portals/strategic/components/CriticalHospitalsModal.tsx:25 | the five zones are listed once each |
| CriticalModal.CountIn | src/portals/strategic/components/CriticalHospitalsModal.tsx:17-23 | a zone's count never exceeds the number of listed hospitals |
| CriticalModal.CountsPartition | src/portals/strategic/components/CriticalHospitalsModal.tsx:17-23 | every critical hospital is counted in exactly one zone |
| CriticalModal.Percentage | src/portals/strategic/components/CriticalHospitalsModal.tsx:27 | the share is `Math.round` of count / zone size × 100, within half a point of it; it is 0 iff no hospital is critical, and at most 100 while the count fits the zone |
| CriticalModal.RegionalShares | src/portals/strategic/components/CriticalHospitalsModal.tsx:25-28 | five rows in the order North, West, Central, East, South; each row's share is Percentage of that zone's critical count, within half a point of count / size × 100; a zero share means no critical hospital there |
| CriticalModal.SharesAtMostHundred | src/portals/strategic/components/CriticalHospitalsModal.tsx:27 | shares stay at most 100 % while counts fit the zone sizes |
| CriticalModal.ShareCanExceedHundred | src/portals/strategic/components/CriticalHospitalsModal.tsx:27 | nothing caps a share: 42 critical hospitals in the South show as 102 % |
| CriticalModal.PercentageMonotone | src/portals/strategic/components/CriticalHospitalsModal.tsx:27 | more critical hospitals never lower a share |

## Left out

- Common.ToFixed1: rounds the exact real. JavaScript's `toFixed` rounds the binary double, so a tie such as 90.05, whose double lies just below it, can display one tenth lower than the model says.
- HelperRule.HelperUpdate: uses the corrected HelperOxygen; the source yields NaN at totalICU = 0 (src/utils/helpers_strategic.ts:331-332, src/utils/helpers_public.ts:313-314), see Findings.
- Timers, intervals and React state plumbing are left out. This covers `setTimeout`/`setInterval`, the recursive tick delay, the 3 s route calculation, the 5 s completion reset, the 2.5 s acknowledgement and the 30 s maintenance. Each timer's effect is an explicit action (`NotifyDone`, `FinishMission`, `EndMaintenance`, `Sweep`) that the caller applies.
- The Emergency login form's ID and password fields are never read by the source, so `Emergency.Login` takes no credentials.
- The Hospital portal's sync-status indicator and its 1.5 s switch to "Live Feed Established" are presentation only and are left out.
- `getDistance` (haversine) and `useGeolocation` are left out, because they involve floating-point trigonometry and device position. Distances and the crew's position are inputs.
- `Math.random()` and `Date.now()` become named draw and clock parameters. Draws are assumed to lie in [0, 1) only where a contract says so (`Unit`).
- Engine.Cohort: the shuffle `sort(() => 0.5 - Math.random())` is not a consistent comparator. The cohort is therefore modelled from any given orderings of the two sector lists, and its 6 + 9 selection is stated only as a bound.
- Sorting.SortHeadFirstLeast: stability is proved only for the first element, which is all the Emergency portal reads. The full list order is stated as sortedness plus permutation.
- Lower-casing covers ASCII letters only. The source's `toLowerCase` is full Unicode.
- A hospital's `type` string becomes the `Ownership` category it names. Substring tests on it become tests on the category. The public filter still matches the category's label text.
- HospitalPortal.MovingAverage requires a width of at least 1. A width of 0 divides by an empty window (NaN in the source), and every caller passes 3 or the default 5.
- The tick functions require what keeps them defined over exact reals: non-zero beds, a non-zero jittered stay and a non-zero average wait. The source would produce Infinity or NaN there.
- `Tick` requires a non-empty store, because the source's averages divide by the store length.
- Engine.Subscribe: callbacks are identified by integers and are not invoked. Delivery is reported as a flag.
- The random walk of the ambulance towards its destination is left out, because it is a UI animation. Only its duration is modelled (`SimulationDuration`).
- Toasts, ground-feedback text, alerts, translations, charts and rendering are left out, because they display values and decide nothing.
- CriticalModal: regions are a closed datatype in the model. The source's guard for hospitals whose region is not one of the five keys therefore never applies.
- The public portal's 300 ms debounce is left out. Filters are applied as given.

## Findings

| source | as written | input that shows it | evidently intended | confidence | as-written member | corrected member |
|---|---|---|---|---|---|---|
| src/utils/helpers_strategic.ts:331 (and src/utils/helpers_public.ts:313) | oxygen use divides ICU occupancy by `totalICU` with no guard | a hospital with 0 ICU beds: `0 / 0` is NaN, and the oxygen figure becomes NaN from then on | guard the divisor as the engine does (`totalICU \|\| 1`, src/utils/simulationEngine.ts:193) | not executed | HelperRule.HelperOxygenAsWritten, HelperRule.NoIcuOxygenUndefined | HelperRule.HelperOxygen |
