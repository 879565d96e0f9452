# Verified models of the swift core

This project models the hard parts of the swift pilot client's core library and proves properties of them in Dafny 4.
`dafny verify dfyconfig.toml` verifies everything.

**Airspace tracking** (`Watchdog`, `AirspaceAnalyzer`, `WatchdogRuns`, `Readiness`, `MonitorSpec`, `AirspaceMonitor`,
`Airspace`, `MonitorFrames`, `EvaluationFrames`, `StationFrames`, `StampQueue`, `RunHistory`, `NoGhosts`, `WatchHistory`,
`GhostStations`, `SilentPilots`, `LogOffs`, `NobodyStranded`, `Announcements`, `Deadlines`, `ReadinessLaws`,
`StoredPackets`, `PositionLaws`, `AnalyzerLaws`, `RangeFilter`, `Witnesses`).
The airspace monitor and the airspace analyzer live in two threads and exchange queued signals. Both are classes whose
fields are updated in place (`CAirspaceMonitor`, `CAirspaceAnalyzer`); every slot is proved against a function on values,
and `Airspace` puts these functions, the single-shot timers, the two message queues, the connection and the clock together
as one transition system. All results are about every execution of it: network packets, time-outs, timers, checks,
disconnects and re-initialisations in any interleaving.

**Queries and users** (`StaggeredQueries`, `UserResolution`): the two query queues behind the fast timer, and the search for
the users of a set of callsigns.

**Weather requests** (`WeatherSpec`, `WeatherManager`, `WeatherProtocol`, `WeatherLaws`): a queue in front of one plugin that
can only handle one request at a time, with listeners that make new requests while they are being answered.

**Hotkeys** (`HotkeySpec`, `InputManager`, `Hotkeys`, `HotkeyLaws`): keyboard and joystick snapshots become press and release
calls.

**Symbol dumping** (`JobPoolSpec`, `SymbolStore`, `SymbolRuns`, `SymbolStatus`, `SymbolResubmissions`): a worker pool whose
callbacks submit more jobs.

**Aircraft matching** (`ModelList`, `ModelReduction`, `ReductionSettings`, `ReductionLaws`, `ClosestMatch`, `ChoiceLaws`,
`AircraftMatcher`): the filters that narrow a model set, the choice of a model, and the disabling and restoring of models.

In each part the imperative classes mirror the source; a `...Spec` module (or the functions at the top of the module) gives
the same operations as functions on values, and the remaining modules prove what runs of these operations keep. The
`...Laws` modules say what an operation achieves in terms of fields, packets, calls, keys and models alone.

## Where the code does not do what its design suggests

The models follow the code. These findings are theorems. Where they break a property, a concrete case comes with the exact
condition under which the property holds:

- Re-initialising all aircraft removes their watchdog stamps but adds the aircraft without touching them
  (`Witnesses.ReInitializationLeavesAGhost`): such an aircraft is watched again if and only if something touches it later
  (`WatchHistory.WatchedAfterReInitializationIff`).
- An aircraft can lose its last timer without having been announced (`Witnesses.OfflineReAddStrandsAnAircraft`), exactly if
  that timer fires without a connection and has nothing left to wait for (`NobodyStranded.StepLosesSomebodyIff`). This needs
  an aircraft that is in range offline, and only a late re-initialisation timer brings one in
  (`NobodyStranded.OnlineReAddsLoseNobody`).
- A station can stay online unwatched (`Witnesses.LatePositionLeavesAGhostStation`), exactly if a position of it arrives while
  its removal waits for the monitor (`GhostStations.StationIsWatchedIffNoRace`), and until a later message heals it
  (`GhostStations.GhostIffUnhealedRace`).
- A log-off on the network names the user, not the callsign, so it removes nothing (`LogOffs.LogOffsAreIgnored`): aircraft and
  stations leave by time-outs, the range limit and disconnects.
- An aircraft expelled by the range filter keeps its readiness record (`Deadlines.ExpulsionKeepsTheRecord`). If it returns it
  need not be announced any more (`Witnesses.ReturningAircraftIsNotAnnounced`), and is exactly if a late packet or recheck
  comes (`Deadlines.AnnouncedAgainIffLatePacket`).
- The first situation of an aircraft fills its history, so the minimum of situations that an announcement waits for is met at
  once (`PositionLaws.HistoriesAreFull`).
- The checks of a disabled watchdog turn stations into aircraft (`WatchdogRuns.DisabledCheckTurnsStationsIntoAircraft`), and no
  other check does (`WatchdogRuns.ChecksStampNewAircraftIffDisabled`).
- The 30 s clean-up of weather requests does not stop the fetch under way; the protocol holds in exactly the runs without it
  (`WeatherProtocol.OrderlyIffNeverCleanedUp`, `WeatherProtocol.CleanUpAnswersFromForeignFetch`). A request by callback has
  the null identifier, which is not the anonymous one, so its answer is signalled to everybody as well.
- A key triggered by hand can break the alternation of presses and releases (`Hotkeys.TriggeredKeyIsPressedTwice`,
  `Hotkeys.EdgesAlternateIffTriggersKeepOrder`).
- During a capture the report of one device is merged with the old state of the other, so a captured combination never
  mixes keys and buttons (`Hotkeys.CaptureReportsTheLargest`), although mixing is intended.
- The status a clean-up of dumped files gets can depend on the order of completion (`SymbolStatus.StatusDependsOnTheSchedule`,
  `SymbolStatus.StatusIsFixedIffSameOutcome`), and submitting files twice can fail
  (`SymbolResubmissions.SecondSubmissionLosesTheCounter`, `SymbolResubmissions.ResubmissionFailsIffTooManyComeBack`).
- The livery filter swaps its arguments, the two flags for airline groups are the same, logging switches a filter on, the ICAO
  and combined type filters do not always tell that they reduced, the categories forget that others have
  (`ReductionLaws.OthersKeepTheirCandidates`), and the fallback by combined type searches an empty list
  (module `ReductionSettings`, `ClosestMatch.CombinedTypeDefaultNeedsColor`).
- The family filter can list models without a string twice (`ReductionSettings.FamilyFilterDuplicatesIffNameless`). The search
  for the closest model removes these first (aircraftmatcher.cpp:325), so from there such an input does not reach the filter.
- A model disabled twice is restored twice (`AircraftMatcher.DisabledTwiceRestoredTwice`,
  `AircraftMatcher.RunsKeepCopiesIffExact`).

## Assumptions

- Events of one thread are atomic; posted messages are delivered in order; the clock never runs backwards; a timer fires at or
  after its due time; the application is not shutting down and its services exist.
- Callsigns are non-empty strings as the slots assert. An aircraft callsign is valid for an announcement if it has 2 to 10
  upper case letters or digits.
- Answers of other services (database lookups, own position and distances, scores, the closest grid point, results of
  worker processes) are parameters; a distance is an integer number of nautical miles.
- Codes of models and liveries are in the normal form their setters produce; case folding covers ASCII letters.
- A key or button list without duplicates is a set; all reported keys are known keys.

## Model

| member | source | states |
|---|---|---|
| NoGhosts.NoGhostAircraft | src/blackcore/airspaceanalyzer.cpp:62-79 | In every reachable state of the three threads, an aircraft with a stored situation is in range, and its last queued touch follows its last queued removal, or no removal is queued and it is stamped or has a time-out posted |
| NoGhosts.DrainedQueuesMeanWatched | src/blackcore/airspaceanalyzer.cpp:119-124 | Once both message queues are empty, every aircraft with a stored situation is stamped by the watchdog |
| NoGhosts.AllAircraftInRangeAreCovered | src/blackcore/airspaceanalyzer.cpp:62-79 | Without re-initialisations the same holds for every aircraft in range: covered in every reachable state, and watched once the queues have drained |
| NoGhosts.WithoutReInitializationAllAreSituated | src/blackcore/airspacemonitor.cpp:1255-1303 | In every run without re-initialisations every aircraft in range has a stored situation |
| StampQueue.StampedAfterMeansLastTouchWins | src/blackcore/airspaceanalyzer.cpp:164-172 | What the analyzer's queue decides, for aircraft and stations alike: a touch behind the last removal, or no removal and known already |
| NoGhosts.StepIsSafe | src/blackcore/airspacemonitor.cpp:1411-1437 | Each event of the network, monitor and analyzer threads keeps the coverage invariant; a lost connection is covered until its clean-up was handled |
| WatchHistory.WatchedAfterReInitializationIff | src/blackcore/airspacemonitor.cpp:456-462 | An aircraft in range at a re-initialisation is watched in a later state, once the queue is handled, if and only if some event since gave it a stamp and no later one took it |
| WatchHistory.StepGivesAndTakes | src/blackcore/airspaceanalyzer.cpp:119-132 | A step decides whether an aircraft will be watched by the touches and removals it posts and the silent aircraft its check reports, in every state |
| WatchHistory.EnabledGivesByPosition | src/blackcore/airspacemonitor.cpp:456-462 | With the watchdog enabled only a received position or a stored situation gives a stamp, so re-adding alone never does |
| SilentPilots.SilentPilotIsRemoved | src/blackcore/airspaceanalyzer.cpp:174-218 | End to end: with regular checks a pilot not heard of for 26 250 ms (a station for 61 250 ms) was reported in that time, and the report still waits for the monitor or was handled and the pilot gone; or the analyzer heard of its removal first, and an earlier event had made it leave |
| SilentPilots.SilentPilotIsGone | src/blackcore/airspaceanalyzer.cpp:174-206 | After that silence an aircraft has no situation (without re-initialisations: is out of range) in every state in which neither its report nor a new touch waits |
| SilentPilots.SilentStationIsGone | src/blackcore/airspaceanalyzer.cpp:208-217 | The same for a station without races: offline unless its removal or a new touch waits |
| SilentPilots.RemovalLeaves | src/blackcore/airspacemonitor.cpp:1428-1437 | A removal is signalled only by handling a time-out or log-off, by a re-initialisation or by a clean-up, and what is signalled was known before and is not afterwards |
| GhostStations.StationIsWatchedIffNoRace | src/blackcore/airspaceanalyzer.cpp:208-217 | In an execution a station ends up watched or offline from every state if and only if no position of it arrives while its removal waits in the monitor's queue |
| GhostStations.StepLosesStationIffRace | src/blackcore/airspacemonitor.cpp:731-796 | Step level: such a race is the only step that loses a station, and always does |
| GhostStations.GhostIffUnhealedRace | src/blackcore/airspaceanalyzer.cpp:106-132 | State by state: a station is a ghost if and only if a position of it has raced and no later position, time-out or disconnection has healed it |
| GhostStations.StepMakesAndHealsGhosts | src/blackcore/airspacemonitor.cpp:731-796 | Step level, from any state: what makes a ghost and what ends it |
| GhostStations.OnlineStationsAreCovered | src/blackcore/airspaceanalyzer.cpp:106-132 | Without races an online station is stamped once the analyzer's queue is handled or its removal is posted, and is watched once both queues have drained |
| GhostStations.DrainedGhost | src/blackcore/airspaceanalyzer.cpp:106-132 | Working off both queues leaves the station online and unwatched exactly if it was a ghost in this sense before |
| LogOffs.LogOffsAreIgnored | src/blackcore/fsd/fsdclient.cpp:1170-1184 | Log-offs carry the user's certificate id: in every execution whose positions carry callsigns that are no ids, handling one changes no aircraft, situation, station or timer and signals nothing |
| NobodyStranded.NoAircraftIsStranded | src/blackcore/airspacemonitor.cpp:616-729 | In every reachable state a valid callsign in range was announced or has a verify or recheck timer pending, unless a clean-up is pending or an earlier step was a losing one |
| NobodyStranded.StepLosesSomebodyIff | src/blackcore/airspacemonitor.cpp:616-729 | A step leaves an aircraft unattended if and only if its last timer fires without a connection and does not wait on: a verification of a record that is verified or has ICAO data, a recheck, or a re-initialisation timer of an aircraft that has come back |
| NobodyStranded.EverybodyIsAttendedIffNothingLoses | src/blackcore/airspacemonitor.cpp:1083-1107 | Run level: every aircraft is attended in all states of an execution if and only if none of its steps is such a step |
| NobodyStranded.OnlineReAddsLoseNobody | src/blackcore/airspacemonitor.cpp:1122-1143 | It is enough that no re-initialisation timer fires between the clean-up of a lost connection and the next one |
| Announcements.FlaggedRecordsHaveClocks | src/blackcore/airspacemonitor.h:238-256 | In every reachable state a readiness record with any flag has a started clock that does not show the future |
| Announcements.AtMostFourRechecks | src/blackcore/airspacemonitor.h:315-316 | A recheck chain started with its record's clock running schedules at most four 2 s rechecks as long as that record is kept, in every execution |
| Announcements.RecheckContinuesOrEnds | src/blackcore/airspacemonitor.cpp:624-668 | While connected a recheck finds the aircraft gone, leaves it announced, or schedules the next link of the same chain, also through a recalled FsInn packet |
| Announcements.FourthRecheckDecides | src/blackcore/airspacemonitor.cpp:624-690 | The fourth recheck of a chain whose record was kept leaves the aircraft announced or out of range |
| Announcements.RecheckWithoutRecordNeverAges | src/blackcore/airspacemonitor.h:240 | A recursive call without a started record never starts the clock: the recheck is scheduled again however late it is |
| Deadlines.NoSecondAnnouncementBeforeTwentySeconds | src/blackcore/airspacemonitor.cpp:622-626 | Between two announcements of a callsign whose record is kept, the record gets at least 20 s old |
| Deadlines.AnnouncedBySecondVerification | src/blackcore/airspacemonitor.cpp:692-729 | Whatever packets are lost, an aircraft that is not announced and stays in range is announced at the latest by its second verification |
| Deadlines.AnnouncedWithinFortyEightSeconds | src/blackcore/airspacemonitor.cpp:1098-1107 | Real-time bound: an aircraft that enters the range without a record marked sent is announced within 48 s plus twice the timer lag |
| Deadlines.ExpulsionKeepsTheRecord | src/blackcore/airspacemonitor.cpp:1166-1177 | Leaving by the range limit drops aircraft and situations without any signal and keeps the readiness record |
| Deadlines.ReturningAircraftNeedsALatePacket | src/blackcore/airspacemonitor.cpp:622-626 | An aircraft that returns with a record marked sent is announced again only by a packet or recheck handled when the record is at least 20 s old |
| Deadlines.AnnouncedAgainIffLatePacket | src/blackcore/airspacemonitor.cpp:622-690 | For an announced aircraft in range this is exact: announced again if and only if, while connected, such a packet or recheck finds the record that old |
| Deadlines.EntryStartsVerification | src/blackcore/airspacemonitor.cpp:1098-1107 | Apart from re-initialisation an aircraft enters the range by a position only, with a verification due in 24 s |
| RangeFilter.RangeFilterIsItsHistory | src/blackcore/airspacemonitor.cpp:1265-1301 | With fixed limits and no other removal, an aircraft is in range exactly if some earlier position was within the limit and none since was beyond the hysteresis limit, in runs interleaved with anything else |
| RangeFilter.MembershipStep | src/blackcore/airspacemonitor.cpp:1166-1177 | One step of the filter: stays or enters exactly as the measured distance and the previous membership say |
| RangeFilter.LimitsAlwaysAgree | src/blackcore/airspacemonitor.cpp:464-479 | In every reachable state both limits are off, or the wider one is the rounded 110 % of the narrow one |
| RangeFilter.HysteresisBounds | src/blackcore/airspacemonitor.cpp:478 | The hysteresis limit is never below the limit and at most a rounding away from 110 % of it |
| Witnesses.ReInitializationLeavesAGhost | src/blackcore/airspacemonitor.cpp:456-462 | A concrete execution: re-initialisation drops the stamp and adds the aircraft again without a touch, so it stays in range unwatched |
| Witnesses.LatePositionLeavesAGhostStation | src/blackcore/airspaceanalyzer.cpp:208-217 | A concrete execution with a stall and its grace period: a position that arrives while the time-out of its station is posted leaves the station online and unwatched |
| Witnesses.ReturningAircraftIsNotAnnounced | src/blackcore/airspacemonitor.cpp:692-703 | A concrete execution: an announced aircraft is expelled, returns, its next verification does nothing, and it stays in range with no timer and no second announcement |
| Witnesses.OfflineReAddStrandsAnAircraft | src/blackcore/airspacemonitor.cpp:1128-1141 | A concrete execution: a re-initialisation timer that fires offline leaves an aircraft that is never announced and has no timer |
| ReadinessLaws.AnnouncedIffVerifiedOldOrComplete | src/blackcore/airspacemonitor.cpp:616-690 | While connected, an aircraft that was not announced is announced if and only if it is being verified, its record is over 6 s old, or it has several situations and ICAO codes and FsInn packet or a model string; otherwise it is looked at again in 2 s |
| ReadinessLaws.AnnouncedAgainIffOld | src/blackcore/airspacemonitor.cpp:622-626 | An announced aircraft is announced again if and only if its record is at least 20 s old |
| ReadinessLaws.OthersAreForgotten | src/blackcore/airspacemonitor.cpp:618 | Offline nothing is evaluated; the record of anything that cannot be announced is removed without a signal |
| ReadinessLaws.BothPacketsAnnounce | src/blackcore/airspacemonitor.cpp:833-921 | Run level: an aircraft that stays in range, has situations and gets ICAO codes and FsInn packet, in either order, is announced at the latest in the step of the second one |
| ReadinessLaws.SecondPacketAnnounces | src/blackcore/airspacemonitor.cpp:628-641 | The step of the second packet emits exactly this announcement |
| ReadinessLaws.FlagStaysUntilAnnounced | src/blackcore/airspacemonitor.h:238-256 | A packet that has come stays noted until the aircraft is announced or leaves, whatever else happens |
| StoredPackets.EarlyPacketIsUsed | src/blackcore/airspacemonitor.cpp:1179-1186 | Run level: an FsInn packet from before the first position that nothing replaces is the one the next recheck takes out of the store; it updates the model and counts as if it had just come |
| StoredPackets.EarlyPacketIsKept | src/blackcore/airspacemonitor.cpp:841-847 | Until a newer packet, a lost connection or that recheck it stays stored |
| StoredPackets.PacketsUpdateTheModel | src/blackcore/airspacemonitor.cpp:1188-1253 | ICAO codes, and packets whose string is enabled and known, update a model that is not from the database; a model string stays known |
| ReadinessLaws.StrangersAreLeftAlone | src/blackcore/airspacemonitor.cpp:899-905 | ICAO codes and interim positions for callsigns not in range, FsInn packets of stations, and timers of aircraft that are gone change nothing |
| PositionLaws.PositionIsStored | src/blackmisc/simulation/remoteaircraftprovider.cpp:256-310 | A position that counts puts its situation into the full history of the aircraft and the analyzer hears of it at once, unless it lacks the velocity the latest one had |
| PositionLaws.OthersStoreNothing | src/blackcore/airspacemonitor.cpp:1255-1348 | No other step stores or announces a situation |
| PositionLaws.HistoriesAreFull | src/blackmisc/simulation/remoteaircraftprovider.cpp:289-292 | In every reachable state each stored history has 50 situations, because the first one fills it up: the minimum of situations is met by one position |
| PositionLaws.VelocityIsItsHistory | src/blackmisc/simulation/remoteaircraftprovider.cpp:293-296 | In every execution the latest situation of an aircraft has a velocity if and only if some position since its first one had |
| PositionLaws.QueriesAreSentIff | src/blackcore/airspacemonitor.cpp:1277-1287 | In every step: the initial queries are sent for an aircraft if and only if it enters the range, or its first verification finds no ICAO codes while connected |
| RangeFilter.ConnectingSetsTheRange | src/blackcore/airspacemonitor.cpp:1414-1420 | Connecting to VATSIM limits the range to 125 NM, with 138 NM for aircraft in range; other connections switch the limits off |
| RangeFilter.UserSetsTheRange | src/blackcore/airspacemonitor.cpp:464-479 | A chosen range is the narrow limit, its rounded 110 % the wide one |
| RangeFilter.EveryoneIsRemovedAndScheduled | src/blackcore/airspacemonitor.cpp:1122-1143 | A re-initialisation removes and signals every aircraft, and the n-th gets a timer for 25 n ms later that holds it as it was |
| RangeFilter.AddedAgainAsItWas | src/blackcore/airspacemonitor.cpp:1128-1141 | This timer brings the aircraft back with a verification in 24 s, unless a position has done so |
| AnalyzerLaws.LossesAreSignalledIff | src/blackcore/airspacemonitor.cpp:1428-1437 | In every step: the loss of an aircraft is signalled if and only if it was in range and a time-out, a log-off under its callsign, a lost connection or a re-initialisation takes it; that of a station if and only if it was online and a time-out or log-off takes it while connected |
| AnalyzerLaws.LostConnectionForgetsAll | src/blackcore/airspacemonitor.cpp:437-448 | A lost connection makes the monitor forget everything but timers and limits |
| AnalyzerLaws.ChecksFollowTheConnection | src/blackcore/airspaceanalyzer.cpp:134-146 | In every execution: once there was a connection, and all messages are handled, the checks run if and only if it stands; before they run as well |
| AnalyzerLaws.EnabledAsToldLast | src/blackcore/airspaceanalyzer.h:81 | The watchdog is enabled as it was told last, and at first it is |
| AnalyzerLaws.DisabledAircraftGetASecond | src/blackcore/airspaceanalyzer.cpp:200 | After a check of a disabled watchdog every aircraft it knows expires one second later, if it is enabled again |
| WatchdogRuns.CheckReportsExactlyTheSilent | src/blackcore/airspaceanalyzer.cpp:174-218 | A check that is not skipped reports exactly the callsigns whose last touch that was neither undone nor reported is 15 s (stations 50 s) old, for every history of an enabled watchdog |
| WatchdogRuns.StampsAreCurrentTouches | src/blackcore/airspaceanalyzer.cpp:119-132 | The stamp of a callsign is the time of the one touch that no newer touch, removal, clear or report has ended |
| WatchdogRuns.SilentCallsignIsReportedInTime | src/blackcore/airspaceanalyzer.h:131-134 | With checks at most 11 250 ms apart and no grace period, a silent aircraft is reported before 26 250 ms and a silent station before 61 250 ms after its last touch |
| WatchdogRuns.NoTimeoutDuringGrace | src/blackcore/airspaceanalyzer.cpp:177-188 | After a check that came too late at time t nobody is reported before t + 22 500 ms, whatever happens in between |
| WatchdogRuns.GraceLasts | src/blackcore/airspaceanalyzer.cpp:177-188 | Later stalls only extend the grace period |
| WatchdogRuns.DisabledCheckTurnsStationsIntoAircraft | src/blackcore/airspaceanalyzer.cpp:211 | The stations a disabled watchdog looks at are stored as aircraft, and reported as lost aircraft once it is enabled again |
| WatchdogRuns.ChecksStampNewAircraftIffDisabled | src/blackcore/airspaceanalyzer.cpp:208-217 | A check stamps a callsign that was no aircraft if and only if it is executed, the watchdog is disabled, and a station has that name |
| WatchdogRuns.DisabledWatchdogStillDropsStations | src/blackcore/airspaceanalyzer.cpp:197-217 | A disabled watchdog reports no aircraft, but the same stations as an enabled one |
| AirspaceAnalyzer.CAirspaceAnalyzer.WatchdogCheckTimeouts | src/blackcore/airspaceanalyzer.cpp:174-218 | One check, with its two loops over the hashes: new stamps as specified, and each expired callsign reported exactly once |
| AirspaceAnalyzer.CAirspaceAnalyzer.CheckAircraft | src/blackcore/airspaceanalyzer.cpp:197-206 | The aircraft loop removes and reports exactly the stale entries, or fakes fresh stamps if disabled |
| AirspaceAnalyzer.CAirspaceAnalyzer.CheckAtc | src/blackcore/airspaceanalyzer.cpp:208-217 | The station loop removes and reports exactly the stale entries and, if disabled, writes the aircraft map |
| AirspaceAnalyzer.CAirspaceAnalyzer.WatchdogTouchAircraftCallsign | src/blackcore/airspaceanalyzer.cpp:119-124 | Stamps the aircraft with the current time and nothing else |
| AirspaceAnalyzer.CAirspaceAnalyzer.WatchdogTouchAtcCallsign | src/blackcore/airspaceanalyzer.cpp:126-132 | Stamps the station with the current time and nothing else |
| AirspaceAnalyzer.CAirspaceAnalyzer.WatchdogRemoveAircraftCallsign | src/blackcore/airspaceanalyzer.cpp:164-167 | Forgets the aircraft |
| AirspaceAnalyzer.CAirspaceAnalyzer.WatchdogRemoveAtcCallsign | src/blackcore/airspaceanalyzer.cpp:169-172 | Forgets the station |
| AirspaceAnalyzer.CAirspaceAnalyzer.OnChangedAtcStationOnlineConnectionStatus | src/blackcore/airspaceanalyzer.cpp:106-117 | Touches a station that came online and forgets one that went offline |
| AirspaceAnalyzer.CAirspaceAnalyzer.Clear | src/blackcore/airspaceanalyzer.cpp:155-162 | Forgets all stamps |
| AirspaceMonitor.CAirspaceMonitor.SendReadyForModelMatching | src/blackcore/airspacemonitor.cpp:616-690 | The decision machine over the fields: ignore, recheck in 2 s, announce, or forget, with the new readiness record and timers |
| AirspaceMonitor.CAirspaceMonitor.AnnounceOrForget | src/blackcore/airspacemonitor.cpp:672-689 | The end of the decision: record marked sent and signal, or record removed |
| AirspaceMonitor.CAirspaceMonitor.NeedsMoreData | src/blackcore/airspacemonitor.cpp:628-641 | Waits exactly while the aircraft can be announced, is incomplete and its record young, except in a verification |
| AirspaceMonitor.CAirspaceMonitor.VerifyReceivedIcaoData | src/blackcore/airspacemonitor.cpp:692-729 | A verification: nothing if announced, announce if verified or ICAO data came, otherwise mark, query again and schedule the next one |
| AirspaceMonitor.CAirspaceMonitor.OnCustomFSInnPacketReceived | src/blackcore/airspacemonitor.cpp:833-897 | A packet is stored for an unknown callsign, ignored for a station, and otherwise flags, updates and re-evaluates the aircraft |
| AirspaceMonitor.CAirspaceMonitor.RecallFsInnPacket | src/blackcore/airspacemonitor.cpp:1179-1186 | A stored packet is taken out and handled as if it had just come |
| AirspaceMonitor.CAirspaceMonitor.OnRecheckTimer | src/blackcore/airspacemonitor.cpp:648-665 | The recheck callback: nothing for an aircraft that is gone, else the stored packet, else a recursive evaluation |
| AirspaceMonitor.CAirspaceMonitor.OnIcaoCodesReceived | src/blackcore/airspacemonitor.cpp:899-921 | ICAO codes of an aircraft in range update its model unless it comes from the database, and re-evaluate readiness |
| AirspaceMonitor.CAirspaceMonitor.OnAircraftUpdateReceived | src/blackcore/airspacemonitor.cpp:1255-1303 | A position: range filter, situation, and for a new aircraft the 24 s verification and the initial queries |
| AirspaceMonitor.CAirspaceMonitor.OnAircraftInterimUpdateReceived | src/blackcore/airspacemonitor.cpp:1305-1348 | An interim position only refreshes an aircraft in range that has a situation |
| AirspaceMonitor.CAirspaceMonitor.HandleMaxRange | src/blackcore/airspacemonitor.cpp:1166-1177 | Removes the aircraft beyond the hysteresis limit; valid up to the limit |
| AirspaceMonitor.CAirspaceMonitor.SetMaxRange | src/blackcore/airspacemonitor.cpp:464-479 | Sets both limits, or switches the restriction off |
| AirspaceMonitor.CAirspaceMonitor.StoreAircraftSituation | src/blackmisc/simulation/remoteaircraftprovider.cpp:256-300 | Stores and announces a situation, unless it lacks the velocity the latest one has |
| AirspaceMonitor.CAirspaceMonitor.AddNewAircraftInRange | src/blackcore/airspacemonitor.cpp:1083-1119 | Adds an unknown aircraft and schedules its verification |
| AirspaceMonitor.CAirspaceMonitor.RemoveAircraft | src/blackmisc/simulation/remoteaircraftprovider.cpp:920-945 | Drops the aircraft and its situations without a signal |
| AirspaceMonitor.CAirspaceMonitor.AddMatchingReadinessFlag | src/blackcore/airspacemonitor.cpp:610-614 | Adds the flag to the record, which is created if missing |
| AirspaceMonitor.CAirspaceMonitor.AddOrUpdateAircraftInRange | src/blackcore/airspacemonitor.cpp:1188-1253 | Network data change the model of an aircraft in range only if that is not from the database |
| AirspaceMonitor.CAirspaceMonitor.OnPilotDisconnected | src/blackcore/airspacemonitor.cpp:1428-1437 | Forgets the record, removes the aircraft and signals it if it was there |
| AirspaceMonitor.CAirspaceMonitor.OnAtcPositionUpdate | src/blackcore/airspacemonitor.cpp:731-778 | Puts the station online |
| AirspaceMonitor.CAirspaceMonitor.OnAtcControllerDisconnected | src/blackcore/airspacemonitor.cpp:780-796 | Takes an online station off and signals it |
| AirspaceMonitor.CAirspaceMonitor.RemoveAllAircraft | src/blackcore/airspacemonitor.cpp:544-552 | Signals each aircraft in range once, in some order, and empties the maps |
| AirspaceMonitor.CAirspaceMonitor.Clear | src/blackcore/airspacemonitor.cpp:437-448 | A lost connection clears all but timers and limits |
| AirspaceMonitor.CAirspaceMonitor.ReInitializeAllAircraft | src/blackcore/airspacemonitor.cpp:456-462 | Removes all aircraft and schedules each of them once |
| AirspaceMonitor.CAirspaceMonitor.ScheduleReAdds | src/blackcore/airspacemonitor.cpp:1127-1142 | The loop gives the i-th aircraft a timer after 25 i ms |
| AirspaceMonitor.CAirspaceMonitor.OnReAddTimer | src/blackcore/airspacemonitor.cpp:1131-1140 | Adds the aircraft again, resets its record and evaluates it as if all data had come |
| StaggeredQueries.QueuesDrainInOrder | src/blackcore/airspacemonitor.cpp:421-429 | After any connected ticks without new requests both queues are the old ones without a prefix: one station per tick, one pilot per tick without an ATIS query |
| StaggeredQueries.DrainedInTime | src/blackcore/airspacemonitor.cpp:1732-1771 | n stations and m pilots are worked off within n + m ticks, whoever goes offline meanwhile |
| StaggeredQueries.TickAsks | src/blackcore/airspacemonitor.cpp:421-429 | What the k-th tick asks, and for whom, said without running the queues |
| StaggeredQueries.EveryPilotIsServedOnce | src/blackcore/airspacemonitor.cpp:1755-1771 | Each waiting pilot has exactly one tick that serves it, in queue order |
| StaggeredQueries.RequestsKeepQueuesDuplicateFree | src/blackcore/airspacemonitor.cpp:309-339 | Requests append exactly the callsigns that are not waiting and keep the queues free of duplicates |
| StaggeredQueries.OneCallsignPerTick | src/blackcore/airspacemonitor.cpp:421-429 | All queries of one tick concern one callsign, and no query is sent twice |
| StaggeredQueries.ServedPilotIsAsked | src/blackcore/airspacemonitor.cpp:1755-1771 | The pilot a tick serves is asked if and only if in range by then: for the frequency, and for the plane info exactly if its type is unknown |
| StaggeredQueries.StationIsAskedInItsTurn | src/blackcore/airspacemonitor.cpp:1732-1740 | A waiting station is asked in its turn exactly if it is still online by then |
| StaggeredQueries.RequestsKeepTheirOrder | src/blackcore/airspacemonitor.cpp:309-339 | Requests change nothing about the callsigns that wait already and put new ones behind them, in the order of their first mention |
| StaggeredQueries.CQueryQueues.FastProcessing | src/blackcore/airspacemonitor.cpp:421-429 | A tick sends the next ATIS query, or else the next pilot query |
| StaggeredQueries.CQueryQueues.RequestAtisUpdates | src/blackcore/airspacemonitor.cpp:324-339 | Queues the stations online, in order, each once |
| StaggeredQueries.CQueryQueues.RequestAircraftDataUpdates | src/blackcore/airspacemonitor.cpp:309-322 | Queues the aircraft in range, in order, each once |
| StaggeredQueries.CQueryQueues.SendNextStaggeredAtisQuery | src/blackcore/airspacemonitor.cpp:1732-1740 | Dequeues a station; nothing is sent, and false returned, if it is offline by now |
| StaggeredQueries.CQueryQueues.SendNextStaggeredPilotDataQuery | src/blackcore/airspacemonitor.cpp:1755-1771 | Dequeues a pilot; asks for the frequency and, if the type is unknown, the plane info |
| UserResolution.GetUsersForCallsigns | src/blackcore/airspacemonitor.cpp:244-299 | Exactly one user per requested callsign: that of the own aircraft, else of the first aircraft in range with the callsign, else of the first such station online, else the first one the web knows, despite early exits and duplicate entries |
| UserResolution.TakeFrom | src/blackcore/airspacemonitor.cpp:258-281 | A search loop answers exactly the callsigns its list knows, by their first entry, and leaves exactly the others |
| UserResolution.FindTakesTheFirst | src/blackcore/airspacemonitor.cpp:258-281 | Of several entries for a callsign the first one counts |
| WeatherProtocol.OrderlyIffNeverCleanedUp | src/blackcore/weathermanager.cpp:53-69 | A run keeps the token protocol in every state (answered requests followed by waiting ones are the accepted ones, every answer from its own fetch, exactly one timer, fetch or signal while requests wait) if and only if no request arrives more than 30 s after the last one while others wait |
| WeatherProtocol.AnsweredOnceInOrder | src/blackcore/weathermanager.cpp:196-238 | Without a clean-up the i-th answer is for the i-th accepted request and uses the data fetched for it |
| WeatherProtocol.WaitingRequestsAreAnswered | src/blackcore/weathermanager.cpp:167-238 | Left alone, the manager answers everything that waits in exactly the number of token moves its state tells |
| WeatherProtocol.TokenMakesProgress | src/blackcore/weathermanager.cpp:167-194 | While requests wait a token move is possible, and each brings the end one step closer |
| WeatherProtocol.StepKeepsOrder | src/blackcore/weathermanager.cpp:53-133 | A step keeps the protocol if and only if it does not clean up |
| WeatherProtocol.NestedCallsQueueUp | src/blackcore/weathermanager.cpp:226-233 | Requests made by listeners during an answer queue up behind it and start no fetch |
| WeatherProtocol.CallersAreToldTheirAnswers | src/blackcore/weathermanager.cpp:214-227 | In every run, clean-ups or not, each answered request is posted to its callback and signalled to its listeners once, in order, with weather interpolated from the data of its answer; apart from clear weather nothing else is; and every posted callback has been called once or still waits for its zero timer |
| WeatherProtocol.CleanUpAnswersFromForeignFetch | src/blackcore/weathermanager.cpp:59-64 | A concrete run: after the clean-up a request is answered with data fetched for a dropped one, and its own fetch meets an empty queue |
| WeatherLaws.DeliveryAnswersItsCall | src/blackcore/weathermanager.cpp:196-238 | Without a clean-up the i-th answer is for the i-th queued call, told by the call alone: its own grid, interpolated point by point from the fetch for its own grid and file, once, to its callback or under its identifier |
| WeatherLaws.SubmissionDoesWhatItSays | src/blackcore/weathermanager.cpp:72-133 | A call is queued, answered with clear weather, or rejected, as its fields and the override say |
| WeatherLaws.OthersTellNothing | src/blackcore/weathermanager.cpp:196-238 | Nobody is told anything by any other event |
| WeatherLaws.FetchIsForTheCall | src/blackcore/weathermanager.cpp:167-194 | What is being fetched is the grid of the oldest unanswered call |
| WeatherLaws.WaitingCallsAreDroppedIff | src/blackcore/weathermanager.cpp:53-69 | A queued call drops all waiting ones if and only if no other was queued for more than 30 s, and waits behind them otherwise |
| WeatherManager.CWeatherManager.AppendRequest | src/blackcore/weathermanager.cpp:53-69 | Appends, after dropping everything if the last request is over 30 s old |
| WeatherManager.CWeatherManager.RequestWeatherGrid | src/blackcore/weathermanager.cpp:72-90 | Rejects unusable requests, queues the others and starts a deferred fetch for the first |
| WeatherManager.CWeatherManager.RequestWeatherGridForCallback | src/blackcore/weathermanager.cpp:92-117 | As above, but posts clear weather to the callback, without a request, while the weather is overridden as clear |
| WeatherManager.CWeatherManager.RequestWeatherGridFromFile | src/blackcore/weathermanager.cpp:119-133 | Queues without looking at the grid; clear weather is posted to a callback without a request |
| WeatherManager.CWeatherManager.Interpolate | src/blackcore/weathermanager.cpp:214-220 | The loop gives every requested point weather and position of the closest fetched point, and keeps its name |
| WeatherManager.CWeatherManager.HandleNextRequest | src/blackcore/weathermanager.cpp:196-238 | Answers the first request: posts its callback, then signals everybody unless anonymous; then pops it, and fetches for the next one or forgets the time stamp |
| WeatherManager.CWeatherManager.SetWeatherToClear | src/blackcore/weathermanager.cpp:41-45 | Sets the override and nothing else |
| Hotkeys.EdgesAlternate | src/blackcore/inputmanager.cpp:180-202 | In every run (captures, reloads, resets, binds, unbinds) the edges of each action alternate starting with a press, and the last was a press exactly if the action is active |
| Hotkeys.HandlerSeesAlternation | src/blackcore/inputmanager.cpp:101-113 | In every run a handler bound while its action is inactive is called down, up, down, ... as long as it is bound and triggers keep the order of its action |
| Hotkeys.HandlersAlwaysAgree | src/blackcore/inputmanager.cpp:101-123 | In every run, keys triggered by hand or not, every bound handler was called for exactly the edges of its action since it was bound |
| Hotkeys.EdgesAreRelayed | src/blackcore/inputmanager.cpp:101-104 | The core is told exactly the edges of every action while forwarding is enabled, and nothing otherwise |
| Hotkeys.LastCombinationIsLatestReports | src/blackcore/inputmanager.cpp:76-92 | In every run the stored combination pairs the last report of each device that was not captured |
| Hotkeys.ActiveActionsAreDeclarative | src/blackcore/inputmanager.cpp:180-202 | From the first report after a change of hotkeys on, the active actions are exactly those with a combination contained in the latest reports |
| Hotkeys.MoreKeysReleaseNothing | src/blackcore/inputmanager.cpp:180-193 | Adding keys or buttons releases no action |
| Hotkeys.CaptureReportsTheLargest | src/blackcore/inputmanager.cpp:160-178 | Selections of a capture never shrink and come from one device; it ends at most once, with the last selection, which is not empty and the largest |
| Hotkeys.StepKeepsCapture | src/blackcore/inputmanager.cpp:94-99 | A capture ends only with a report smaller than the captured selection |
| Hotkeys.EdgesAlternateIffTriggersKeepOrder | src/blackcore/inputmanager.cpp:115-123 | In every run, keys triggered by hand or not, the edges of an action alternate and agree with the active set in all states if and only if every trigger releases and presses it together, and then only while it is active |
| Hotkeys.TriggerKeepsEdgesIff | src/blackcore/inputmanager.cpp:115-123 | The same for one trigger |
| Hotkeys.TriggeredKeyIsPressedTwice | src/blackcore/inputmanager.cpp:115-123 | A concrete run: a key triggered by hand is not entered as active, so the next report presses its action again |
| Hotkeys.ActiveMeansCompletelyPressed | src/blackcore/inputmanager.cpp:180-187 | In settled runs an action is active if and only if some combination of it has each of its keys in the latest keyboard report and each of its buttons in the latest joystick report |
| HotkeyLaws.ActiveMeansItsHotkeyIsHeldDown | src/blackcore/inputmanager.cpp:63-74 | From the settings on: after they are loaded and a device has reported, an action is active if and only if a setting of this machine that no later one overrides has it and is completely held down |
| HotkeyLaws.SettingsThatCount | src/blackcore/inputmanager.cpp:63-74 | The configured combinations are those of the local, non-empty settings; of several with one combination the last one |
| HotkeyLaws.UnbindTakesOneAway | src/blackcore/inputmanager.cpp:54-61 | In every execution an unbind takes away exactly the binding with its index |
| HotkeyLaws.RemoteCallsAreNotSentBack | src/blackcore/inputmanager.cpp:101-113 | A call that must not be emitted only invokes handlers |
| HotkeyLaws.CaptureSelectsTheNewKeys | src/blackcore/inputmanager.cpp:158-178 | A report during a capture selects exactly the keys or buttons its device did not report before the capture, and ends it with the last selection once these get fewer |
| InputManager.CInputManager.ProcessCombination | src/blackcore/inputmanager.cpp:158-203 | Outside a capture: the active set becomes the matching one, presses are called before releases, each once; in a capture: report or finish |
| InputManager.CInputManager.ProcessKeyCombinationChanged | src/blackcore/inputmanager.cpp:76-83 | A keyboard report is merged with the stored buttons and processed |
| InputManager.CInputManager.ProcessButtonCombinationChanged | src/blackcore/inputmanager.cpp:85-92 | A joystick report is merged with the stored keys and processed |
| InputManager.CInputManager.CollectMatching | src/blackcore/inputmanager.cpp:180-187 | The loop collects exactly the actions with a contained combination |
| InputManager.CInputManager.CallFunctionsBy | src/blackcore/inputmanager.cpp:101-113 | Relays if enabled and calls the handlers of the action in the order of binding; nothing for the empty action |
| InputManager.CInputManager.Unbind | src/blackcore/inputmanager.cpp:54-61 | Erases the first binding with the index, if there is one |
| InputManager.CInputManager.Bind | src/blackcore/inputmanager.cpp:144-156 | Appends a binding under a fresh index |
| InputManager.CInputManager.ReloadHotkeySettings | src/blackcore/inputmanager.cpp:63-74 | The configured actions are those of this machine with a combination; of several with the same combination the last one counts |
| InputManager.CInputManager.StartCapture | src/blackcore/inputmanager.cpp:94-99 | Remembers the stored combination and starts with an empty selection |
| InputManager.CInputManager.TriggerKey | src/blackcore/inputmanager.cpp:115-123 | Releases the action of the stored combination, presses that of the new one and stores it |
| InputManager.CInputManager.ResetAllActions | src/blackcore/inputmanager.h:76 | Removes all configured actions, leaves the active ones |
| SymbolRuns.CleanUpsDoNotDependOnTheSchedule | scripts/symbolstore.py:250-271 | After any execution and whatever order the rest completes in: no counter is missed, every future is handed out once, and a tuple's clean-up runs once exactly if none of its dumps raised (for Mac files: if the pre-processing succeeded too) |
| SymbolRuns.ExecutionsAgree | scripts/symbolstore.py:75-91 | Every state of an execution has counters and clean-ups that agree with the dumps that came back, and futures handed out once |
| SymbolRuns.StepKeepsAgreement | scripts/symbolstore.py:75-91 | Submissions of new tuples and files and completions in any interleaving keep the counters equal to the number of finished dumps and the clean-ups consistent with them |
| SymbolStatus.CleanUpGetsTheLastStatus | scripts/symbolstore.py:250-258 | In every execution, for every tuple, a clean-up was called with the status of the last dump of its tuple to come back |
| SymbolStatus.StatusIsFixedIffSameOutcome | scripts/symbolstore.py:250-258 | After any execution, if no dump of a tuple raises, all orders of completion hand over the same status if and only if the dumps that have not come back have the same outcome |
| SymbolStatus.AnyDumpCanBeLast | scripts/symbolstore.py:75-91 | For every dump of a tuple that has not come back there is an order of completion that brings it back last |
| SymbolStatus.StatusDependsOnTheSchedule | scripts/symbolstore.py:250-258 | The smallest case: two architectures, two orders, two statuses |
| SymbolResubmissions.ResubmissionFailsIffTooManyComeBack | scripts/symbolstore.py:250-271 | A tuple submitted again after any execution, any number of architectures, any order, an own outcome for every future: the counting fails if and only if more of its dumps come back from then on than there are architectures |
| SymbolResubmissions.ResubmissionCleansUp | scripts/symbolstore.py:250-258 | If it does not fail, the clean-up runs once if as many dumps come back as there are architectures and all have it, never if fewer come back or none has it, and never twice |
| SymbolResubmissions.ResubmissionFailsIffPending | scripts/symbolstore.py:260-271 | If none of them raises, it fails if and only if a dump of the tuple was still pending |
| SymbolResubmissions.CounterIsMissedIffOverfull | scripts/symbolstore.py:250-258 | For any pool: working it off misses a counter if and only if for some tuple counter and dumps to come exceed the number of architectures |
| SymbolResubmissions.SecondSubmissionLosesTheCounter | scripts/symbolstore.py:260-271 | The smallest case: one architecture, submitted twice |
| SymbolRuns.EmptyPoolDecides | scripts/symbolstore.py:250-258 | When the pool is empty a clean-up has run exactly if all architectures came back |
| SymbolRuns.MacKeepsAgreement | scripts/symbolstore.py:451-461 | A pre-processed file has its bundle dumped once, on success only |
| SymbolStore.ReturnShrinks | scripts/symbolstore.py:75-91 | A completion leaves fewer pre-processing jobs, or equally many and fewer jobs altogether, although callbacks submit jobs |
| SymbolStore.Dumper.Finish | scripts/symbolstore.py:187-199 | The loop over completed futures ends with an empty pool, for any choice of completed sets, and amounts to the futures coming back in some order |
| SymbolStore.Dumper.Complete | scripts/symbolstore.py:84-91 | A completed future leaves the pool and its callback is called unless the job raised |
| SymbolStore.Dumper.ProcessFiles | scripts/symbolstore.py:260-271 | Submits one dump per architecture and resets the counter of the tuple |
| SymbolStore.Dumper.ProcessFilesFinished | scripts/symbolstore.py:250-258 | Counts the tuple, and on the last one forgets it and runs the clean-up; a missing counter is an error |
| SymbolStore.Dumper.ProcessFilesMac | scripts/symbolstore.py:451-456 | Submits the pre-processing of the file |
| SymbolStore.Dumper.Callback | scripts/symbolstore.py:458-461 | A successful pre-processing submits the dumps of the bundle with a clean-up |
| SymbolStore.Dumper.SubmitJob | scripts/symbolstore.py:75-77 | The job gets a new future |
| ModelReduction.StepwiseReductionIsSafe | src/blackcore/aircraftmatcher.cpp:1394-1490 | For every combination of mode flags the stepwise reduction of a non-empty set is non-empty, invents no model and, if all models have strings, lists none more often than the set |
| ModelReduction.IcaoDataIsSafe | src/blackcore/aircraftmatcher.cpp:1600-1658 | The same for the ICAO filter with its detour by family and airline |
| ModelReduction.FamilyNamedIsSafe | src/blackcore/aircraftmatcher.cpp:1675-1727 | The same for the family filter, which joins two searches without duplicates |
| ModelReduction.AirlineIsSafe | src/blackcore/aircraftmatcher.cpp:1821-1866 | The same for the airline filter with its group search |
| ModelReduction.CombinedTypeIsSafe | src/blackcore/aircraftmatcher.cpp:1922-1947 | The same for the combined type filter |
| ModelReduction.CategoriesAreSafe | src/blackmisc/simulation/categorymatcher.cpp:60-155 | The same for the glider filter, relative to the whole set it searches |
| ModelReduction.NarrowIsSafe | src/blackcore/aircraftmatcher.cpp:1729-1755 | A simple filter reduces exactly if something meets its criterion, and then only that is left |
| ClosestMatch.ClosestMatchComesFromTheSet | src/blackcore/aircraftmatcher.cpp:288-461 | Whatever the setup: the result is, up to callsign and type, the manual model, a model of the set with a string, or the default; the last resort of the code never changes it |
| ClosestMatch.DefaultOnlyIfNothingIsLeft | src/blackcore/aircraftmatcher.cpp:288-369 | With stepwise reduction: the default if no model survives the exclusions and none matches by string, and otherwise a model of the set with a string |
| ClosestMatch.DefaultIffNoCandidate | src/blackcore/aircraftmatcher.cpp:288-369 | For every algorithm: a model of the set if one matches by string, counts as a candidate (with scores: is not ignored), or has a color livery and the combined type, and otherwise the default |
| ClosestMatch.CandidatesAreWorking | src/blackcore/aircraftmatcher.cpp:348-364 | Candidates are models of the working set, and there are some unless it is empty or zero scores are ignored |
| ClosestMatch.BestScoresHighest | src/blackcore/aircraftmatcher.cpp:1492-1511 | Scoring keeps exactly the models of highest score among those that count |
| ClosestMatch.CombinedTypeDefaultNeedsColor | src/blackcore/aircraftmatcher.cpp:1513-1548 | The fallback by combined type finds models with a color livery only: its wider search looks into an empty list |
| ClosestMatch.WorkingSetIsFiltered | src/blackcore/aircraftmatcher.cpp:325-343 | The working set: models with a string that the setup does not exclude |
| ClosestMatch.MinOrderIsMinimal | src/blackmisc/orderablelist.h:145-158 | Picking by order takes a model of smallest order |
| ClosestMatch.FirstWithStringIsListed | src/blackmisc/simulation/aircraftmodellist.cpp:123-130 | The exact match is a model of the set with that string or alias, if there is one |
| ReductionSettings.ExactMatchesWin | src/blackcore/aircraftmatcher.cpp:1394-1490 | If the set has models of the same aircraft type and airline, the stepwise reduction returns only such models, unless a livery matched, categories are used, or the airline group is asked for and known |
| ReductionSettings.ExactIcaoMatchesAreSelected | src/blackcore/aircraftmatcher.cpp:1600-1658 | The ICAO filter selects exactly the models of the same type and airline if there are any, in either order of its steps, unless the airline group is asked for and known |
| ReductionSettings.FamilyFilterSelects | src/blackcore/aircraftmatcher.cpp:1675-1727 | The family filter selects the models of the family plus, under other strings, those of the same type and manufacturer, and reduces exactly if there are any |
| ReductionSettings.AirlineFilterSelects | src/blackcore/aircraftmatcher.cpp:1821-1866 | With a model of the airline, exactly the models of the airline, unless the airline group is asked for and known |
| ReductionSettings.IcaoFilterHidesFamilySearch | src/blackcore/aircraftmatcher.cpp:1619-1658 | The ICAO filter returns another list without saying that it reduced if and only if it took the detour by family and airline |
| ReductionSettings.CombinedTypeHidesSingleModels | src/blackcore/aircraftmatcher.cpp:1939-1946 | The combined type filter hides its reduction exactly if it leaves a single model of several |
| ReductionSettings.LoggingIsIrrelevantIff | src/blackcore/aircraftmatcher.cpp:1416-1437 | Per setup: logging never changes the reduction, whatever aircraft, set and categories, if and only if the setup uses ICAO data or does not use the family |
| ReductionSettings.LoggingMatters | src/blackcore/aircraftmatcher.cpp:1422-1437 | For every other setup, whatever its other flags, an aircraft and a set for which only the logged reduction looks at the family |
| ReductionSettings.GroupFlagsAreEqual | src/blackcore/aircraftmatcher.cpp:1836-1845 | The two flags for airline groups do the same |
| ReductionSettings.GroupIsAlwaysTheFallback | src/blackcore/aircraftmatcher.cpp:1836-1845 | Without a model of the airline its group is used whatever the flags |
| ReductionSettings.LiveryFilterReducesIffSwapped | src/blackcore/aircraftmatcher.cpp:1585-1589 | The livery filter passes its arguments the wrong way round: it reduces if and only if some model has the livery code as designator and the designator as livery code |
| ReductionSettings.LiverySwapIsHarmlessIff | src/blackcore/aircraftmatcher.cpp:1585-1589 | The swap makes no difference if and only if a code is missing, both are the same, or no model has them in either order |
| ReductionSettings.LiveryFilterNeverMatches | src/blackcore/aircraftmatcher.cpp:1585-1589 | A livery code with a dot, as standard liveries have, hence never matches |
| ReductionSettings.MilitaryFlagIsRespected | src/blackcore/aircraftmatcher.cpp:1456-1468 | With both flags, logged or not, all results agree with the aircraft being military or not, unless no candidate did or the reduction ended before the flag is looked at |
| ReductionSettings.FamilyFilterDuplicatesIffNameless | src/blackcore/aircraftmatcher.cpp:1719-1722 | The family filter lists a model more often than its input does if and only if both its searches find a model without a string |
| ReductionSettings.NamelessModelsAreDuplicated | src/blackcore/aircraftmatcher.cpp:1719-1722 | The smallest case: such a single model is listed twice |
| ReductionLaws.ManufacturerWins | src/blackcore/aircraftmatcher.cpp:1483-1487 | A candidate of the manufacturer that is left before the last step lets no other model into the result |
| ReductionLaws.ManufacturerAloneWins | src/blackcore/aircraftmatcher.cpp:1483-1487 | Without other steps that is every model of the set |
| ReductionLaws.ManufacturerDecides | src/blackcore/aircraftmatcher.cpp:1483-1487 | Several results: if one is of the manufacturer, all are |
| ReductionLaws.LiveryDecides | src/blackcore/aircraftmatcher.cpp:1406-1414 | A model with both codes, the wrong way round, ends the reduction with such models only |
| ReductionLaws.TypeOrFamilyDecides | src/blackcore/aircraftmatcher.cpp:1812-1819 | Without an airline: with a model of the type all results are of the type; without one, with a model of the family, all are of the family or alike in combined type and manufacturer |
| ReductionLaws.DesignatorMayBeAFamily | src/blackcore/aircraftmatcher.cpp:1660-1673 | Without type, family and models alike, the designator is searched as a family, and decides |
| ReductionLaws.AirlineDecides | src/blackcore/aircraftmatcher.cpp:1821-1866 | Without a type: with a model of the airline all results are of the airline |
| ReductionLaws.FirstFilterDecides | src/blackcore/aircraftmatcher.cpp:1600-1658 | Of type and airline the one that the setup puts first decides, whether or not a model has both |
| ReductionLaws.GroupIsSelected | src/blackcore/aircraftmatcher.cpp:1829-1866 | With the airline group, as in both default setups for the reduction: exactly the models of the type of the group, and those of the type and airline that no model of the group stands for by its string |
| ReductionLaws.TypeAndGroupDecide | src/blackcore/aircraftmatcher.cpp:1394-1490 | Under these setups all results are of the type, and of the airline or its group, if the set has such a model |
| ReductionLaws.NearestGlidersDecide | src/blackmisc/simulation/categorymatcher.cpp:83-127 | A glider gets models of the nearest category for which the whole set has any: same, parallel, sibling, any glider |
| ReductionLaws.SubstitutesForGliders | src/blackmisc/simulation/categorymatcher.cpp:128-152 | If the set has no gliders: colored ultralights among the candidates, else landplanes with one piston engine, else all |
| ReductionLaws.OthersKeepTheirCandidates | src/blackmisc/simulation/categorymatcher.cpp:60-83 | For anything but a glider the categories change no candidate, but the step forgets that they had been reduced |
| ReductionLaws.VtolDecides | src/blackcore/aircraftmatcher.cpp:1450-1454 | If nothing was reduced before, with a VTOL model among the candidates all results of a VTOL aircraft are |
| ReductionLaws.VtolDecidesAmongStrangers | src/blackcore/aircraftmatcher.cpp:1450-1454 | So it is if the ICAO data tell nothing about any model of the set |
| ReductionLaws.MilitaryDecides | src/blackcore/aircraftmatcher.cpp:1456-1468 | Each of the two flags alone decides for its kind of aircraft |
| ReductionLaws.CombinedTypeDecides | src/blackcore/aircraftmatcher.cpp:1470-1481 | With a candidate of the combined type all results have it |
| ReductionLaws.SideAndCombinedTypeDecide | src/blackcore/aircraftmatcher.cpp:1456-1481 | Without earlier steps the military flag, then the combined type, decide among all models of the set |
| ReductionLaws.CombinedTypeIsRefined | src/blackcore/aircraftmatcher.cpp:1939-1946 | Of several models of the type those of the airline are preferred |
| ReductionLaws.CodesMatchByPosition | src/blackmisc/aviation/aircrafticaocode.cpp:421-444 | A complete combined type matches if and only if it agrees in every position that is no wildcard |
| ReductionLaws.NoCodeMatchesOpenCodes | src/blackmisc/aviation/aircrafticaocode.cpp:421-444 | A model without a combined type matches exactly the codes that leave everything open |
| ChoiceLaws.ReducedModelIsChosen | src/blackcore/aircraftmatcher.cpp:345-369 | By stepwise reduction the chosen model is the first, the given random, or the first one of smallest order of the reduced models |
| ChoiceLaws.BestModelIsChosen | src/blackcore/aircraftmatcher.cpp:348-364 | By scores it is one of highest score among the reduced models, or among the whole working set |
| ChoiceLaws.LastBestModelIsChosen | src/blackcore/aircraftmatcher.cpp:1492-1511 | Picking the first candidate by score takes the last of the best models, because the scores are listed backwards |
| ChoiceLaws.ExactModelIsChosen | src/blackcore/aircraftmatcher.cpp:288-369 | So a model of the very type and airline is chosen if the working set has one |
| ChoiceLaws.NamedModelIsChosen | src/blackcore/aircraftmatcher.cpp:301-323 | The first model with the string of the remote aircraft, or with it as alias, is chosen whatever else the setup says |
| ChoiceLaws.MatchingIsNeededIf | src/blackcore/aircraftmatcher.cpp:301-323 | And only then is nothing left to match |
| ChoiceLaws.ManualModelStays | src/blackcore/aircraftmatcher.cpp:288-299 | A model set by hand stays |
| AircraftMatcher.RunsConserveStrings | src/blackcore/aircraftmatcher.cpp:1300-1318 | No run of disables and restores drawn from the set loses or adds a model string, a final restore gives exactly the original strings, and without restores in between enabled and disabled stay disjoint |
| AircraftMatcher.StringsGrowByWhatIsDisabled | src/blackcore/aircraftmatcher.cpp:1300-1318 | The strings of a run are conserved if and only if all that is disabled comes from the set |
| AircraftMatcher.StringsAfter | src/blackcore/aircraftmatcher.cpp:1300-1318 | One operation: strings, and when enabled and disabled are disjoint afterwards (after a restore only if nothing was disabled) |
| AircraftMatcher.DisabledAddUp | src/blackcore/aircraftmatcher.cpp:1300-1318 | Incremental disables add up in their order, and no restore forgets one of them |
| AircraftMatcher.CopiesConservedIffExact | src/blackcore/aircraftmatcher.cpp:1302-1306 | An incremental disable conserves the models with their copies exactly if it names enabled models as often as they occur |
| AircraftMatcher.RestoringConservesCopiesIffApart | src/blackmisc/simulation/aircraftmodellist.cpp:1005-1020 | Restoring conserves the models with their copies if and only if no string is both enabled and disabled |
| AircraftMatcher.RunsKeepCopiesIffExact | src/blackcore/aircraftmatcher.cpp:1300-1318 | A run of disables, incremental or not, and restores: after each operation restoring gives back the same models with the same copies if and only if every operation is exact |
| AircraftMatcher.OperationKeepsCopiesIffExact | src/blackcore/aircraftmatcher.cpp:1300-1318 | Exact is: what is disabled are the enabled models with its strings, each as often, beside those already disabled; a restore, if every disabled model has a string |
| AircraftMatcher.DisabledTwiceRestoredTwice | src/blackcore/aircraftmatcher.cpp:1368-1381 | A model that fails twice is restored as two copies |
| AircraftMatcher.CAircraftMatcher.DisableModelsForMatching | src/blackcore/aircraftmatcher.cpp:1300-1313 | Incremental or not, the new enabled and disabled models |
| AircraftMatcher.CAircraftMatcher.RestoreDisabledModels | src/blackcore/aircraftmatcher.cpp:1315-1318 | Adds the disabled models again and does not forget them |
| AircraftMatcher.CAircraftMatcher.AddingRemoteModelFailed | src/blackcore/aircraftmatcher.cpp:1368-1381 | Disables the model of the aircraft, whether or not it is in the set |
| AircraftMatcher.CAircraftMatcher.SetModelSet | src/blackcore/aircraftmatcher.cpp:1251-1298 | Takes over the cleaned set unless a set of equal size is there for the simulator; the disabled models stay; returns the size of the uncleaned list |

## Left out

- Witnesses: the executions there are concrete; they show that a condition is needed, not how often it is missed.
- Positions taken from Euroscope simulator data: they reach the monitor only, not the analyzer, and are not an event of the model.
- The time between the start and the end of a disconnection: both are one step, so no message is handled in between.
- Elevations, ground flags, client lists, flight plans, bookings and the text of queries: they do not influence readiness, range or the watchdog.
- Normalisation of the model string in FsInn packets and the resolution of ICAO codes: their outcome is part of the packet's `Lookup`.
- The clearing of the query queues on disconnect and the slow real-name queries to stations.
- One check's time-outs are posted as one block: no other message of the analyzer's thread can come in between.
- WatchdogRuns.CheckReportsExactlyTheSilent: for a watchdog that was never disabled; faked stamps replace real touches otherwise.
- Weather runs with no or several plugins, a plugin that never finishes, and the GFS plugin itself.
- Handlers that bind, unbind or capture while they are being called: the loop in the source does not support it.
- Clean-up functions that raise an exception, and the shutdown of the executor.
- Matching scripts and reverse lookups: foreign code and foreign data.
- The resolution of airline designators from models (aircraftmatcher.cpp:131-251), which reuses the filters with other inputs.
- ModelReduction.StepwiseReductionIsSafe: multiplicities are bounded only for sets in which every model has a string; `ReductionSettings.NamelessModelsAreDuplicated` shows why.
- AircraftMatcher.CAircraftMatcher.SetModelSet: no run-level result is stated across changes of the set; the disabled models of the old one stay.
- Data snapshots of the analyzer (`analyzeAirspace`), the application, context and plugin plumbing, and all user interface code.
