# Verified core of the swift pilot client

A Dafny model of the parts of swift's core where threads, timers and lists of candidates meet, with
proofs of what they keep over every run. `dafny verify dfyconfig.toml` checks the whole project.

| files | component |
|---|---|
| `Watchdog.dfy` | timestamps per callsign and the timeout check of `CAirspaceAnalyzer` |
| `AirspaceRange.dfy` | joining, leaving and the range hysteresis of `CAirspaceMonitor` |
| `AirspaceSystem.dfy`, `LogOff.dfy`, `StationWatch.dfy` | both on their own threads, with FIFO event queues, fed by the FSD thread: aircraft, what log-offs do, ATC stations |
| `Readiness.dfy`, `ReadinessRuns.dfy`, `ReadinessStays.dfy`, `ReadinessFirst.dfy` | when an aircraft is announced as ready for model matching |
| `Rendering.dfy`, `RenderingRuns.dfy` | restriction snapshots and what the simulator renders |
| `InputManager.dfy`, `InputManagerRuns.dfy` | the hotkey engine: device merge, press and release, capture |
| `CommandLine.dfy`, `CommandLineMerge.dfy` | the command line handed to a restarted application |
| `ModelMatcher.dfy`, `ModelMatching.dfy`, `ModelRanking.dfy`, `ModelCandidates.dfy`, `ClosestMatch.dfy` | the matching pipeline, its reductions, the ranks it goes by, the candidates it leaves, the model picked |
| `ModelSet.dfy` | the model set with disabled and restored models |
| `Queries.dfy` | staggered queries and the lookup of users by callsign |
| `UpdateLimiter.dfy` | the limit of aircraft updates per second and its token bucket |
| `Basics.dfy` | shared types |

Objects whose methods update their fields are classes here too. Each method's contract ties the new
state to a specification function of the old one (`View() == Step(old(View()), ...)`), and the lemmas
about runs are about those functions. Threads are interleaved step by step: a signal posted to another
thread is a message in that thread's queue. Clock readings, packets, the order of hash iteration,
distances, scores and random numbers are parameters.

## Where the code and its intent part

Each of these follows the code; the named lemma has the run, or the exact condition.

- The switched-off watchdog writes the aircraft map for ATC stations (`airspaceanalyzer.cpp:212`), so
  ATC timeouts still fire (`DisabledCheckSilentIff`) and stations time out as aircraft: when exactly,
  says `PhantomTimesOutIff`.
- The log-off signals of the network carry the CID of the packet (`fsdclient.cpp:1214`, `1224`), and the
  monitor takes it for a callsign: a log-off removes a station or aircraft exactly when its CID is that
  callsign (`StationLeavesIff`, `AircraftLeavesIff`). Otherwise stations leave by their watchdog timeout
  or the end of the session alone, aircraft by these, the range test or a new initialization
  (`OnlyTimeoutTakesStationOff`, `OnlyTimeoutTakesAircraftOff`).
- ATC stations are not watched as aircraft are. One that reports just as it times out
  (`TimeoutBetweenSignals`), or whose log-off carries the callsign as CID just before it logs on again
  (`AtcStationIsOrphaned`), stays online without a timestamp; otherwise it is watched
  (`StationIsWatched`, `StepOrphansIff`). A timeout taken while disconnected is ignored, but then the
  session end follows (`SessionEndFollows`).
- An aircraft that `reInitializeAllAircraft` adds again by timer is watched exactly if it was before the
  timer fired (`ReAddOrphansIff`); left alone it is not (`ReInitializedAircraftIsOrphaned`).
- Removal by the range test (`airspacemonitor.cpp:1156`) emits nothing and keeps the readiness record;
  the next stay may then be announced late (`GuaranteedIff`, `LeftoverRecord`), and an unrestricted
  simulator goes on rendering the aircraft (`SilentLeaverLingers`).
- The age of a readiness record counts from its first flag: announcements can be 1 ms apart
  (`ReannouncedAtOnce`). A chain that meets a record without timestamp makes up to 16 more waits in a
  stay instead of four (`StayPollingIsBounded`, `UntimedChainsAreLonger`).
- The livery step hands the livery code over as aircraft designator and the designator as livery code
  (`aircraftmatcher.cpp:2014-2015`): with valid codes it never finds anything (`LiveryStepNeverHits`).
- The family step of a setup without ICAO step sits in the log branch (`aircraftmatcher.cpp:1799-1811`):
  logging changes the candidates (`LoggingMattersIff`).
- With the aircraft before the airline, candidates need not have the aircraft's designator though the set
  has it: when exactly, says `DesignatorIsKeptIff`.
- Three reductions change the list without saying so (`IcaoFlagIff`, `CombinedTypeFlagIff`, `MilitaryFlagIff`).
- The second search for a default by combined type looks in the empty result of the first
  (`aircraftmatcher.cpp:1948`, `CombinedTypeDefaultIff`).
- Restoring disabled models does not empty the disabled list: the sets overlap (`RestoreOverlapsIff`),
  a model that failed twice comes back twice (`FailingTwiceDuplicates`), and a new model set gets the
  disabled models of the old one (`NewSetIsPollutedIff`).
- A capture swallows key releases (`CaptureLeavesKeyBehind`), and no capture can yield keys mixed with
  buttons, against the comments at `inputmanager.cpp:68` and `77` (`NoMixedSelection`). A report acts
  right for all hotkeys exactly if what was taken over last from the other device is its last report
  (`MergeExactIff`).
- A triggered key breaks the alternation of press and release (`TriggerBreaksAlternation`): exactly when,
  say `AlternatesIff` and `FirstTriggerAlternatesIff`.
- The command-line merge takes out only the first of repeated options (`MeaningIff`), mistakes values
  for options (`ValueSurvivesIff`, `ValueIsKeptIff`), and piles up arguments that are no options
  (`MergingAgainIff`).
- A limit of one update per second breaks the bucket's assertion (`ConsumingOneIsAllowedIff`); a clock
  that goes back drives the bucket below zero (`ClockBackCostsTokens`).
- A direct removal counts as an addition, too (`simulator.cpp:68`): the statistics drift (`StatisticsDrift`).
- Switching rendering off is no restriction: joining aircraft are still added (`JoinerIsAddedIff`), and
  the default driver leaves aircraft that have left the range (`SwitchingOffClearsIff`).

## Assumptions

- The analyzer's slot for a network signal is queued before the monitor's slot for the same signal, as the
  analyzer, created in the monitor's initializer list, connects first; queues are first in, first out.
- The FSD client's connection status stops being "connected" only at the end of a session, and the
  `Disconnected` signal follows (`fsdclient.cpp:322-346`, `1957-1993`); the next connection starts
  disconnected (`contextnetworkimpl.cpp:274`). Shutting the program down is apart from this.
- `removedAircraft` reaches the simulator through its event queue
  (`remoteaircraftprovider.cpp:913-916`); `RenderingRuns.Leave` takes the aircraft off provider and
  rendering in one step, so nothing happens to that callsign in between.
- Model strings are compared without case, so a model carries its string in lower case; codes are
  trimmed upper-case strings, as the source normalizes them; names of options are ASCII.
- Alias names of different options are disjoint in whatever case, and options are given in the case
  they are declared in, as Qt's parser, unlike the merge, distinguishes it. Parsing takes the next argument as the value of an
  option with a value name. Neither the merge nor the parser of the model splits `--name=value`: such
  an argument names no option and stays where it is.
- A callsign known only as the sender of a packet carries no type hint and is valid unless empty; the
  one of simulation data is hinted as an aircraft's.

## Model

| member | source | states |
|---|---|---|
| `Watchdog.TimeoutIffSilent` | src/core/airspaceanalyzer.cpp:168-222 | over every run with the watchdog on, a callsign is timed out at an event exactly when that is a check, no overlong gap between checks lies in the last 22.5 s, and its last touch is as old as the timeout |
| `Watchdog.TimeoutFollowsRecentCheck` | src/core/airspaceanalyzer.cpp:168-187 | the check before a timeout is at most 11250 ms old |
| `Watchdog.TouchBetweenTimeouts` | src/core/airspaceanalyzer.cpp:189-222 | between two timeouts of a callsign there is a touch |
| `Watchdog.SilentIsDetected` | src/core/airspaceanalyzer.cpp:142-222 | a silent callsign is timed out at most one check interval after both its timeout and the end of grace |
| `Watchdog.StampIsLastTouch` | src/core/airspaceanalyzer.cpp:115-129 | a timestamp is the time of the last touch that was not removed, cleared or timed out since |
| `Watchdog.ArmedOutsideGrace` | src/core/airspaceanalyzer.cpp:168-187 | a check looks at timestamps exactly outside the grace periods that overlong gaps open |
| `Watchdog.DisabledCheckSilentIff` | src/core/airspaceanalyzer.cpp:189-221 | switched off, no aircraft is timed out; stations are not exactly when no stamp is old or the check is not armed |
| `Watchdog.AircraftStampOrigin` | src/core/airspaceanalyzer.cpp:115-221 | with the watchdog on or off, a callsign has an aircraft stamp exactly when it was touched as an aircraft, or seen as a station by a switched-off check, and not dropped since |
| `Watchdog.PhantomTimesOutIff` | src/core/airspaceanalyzer.cpp:168-222 | a callsign never touched as an aircraft is timed out as one exactly by an armed switched-on check after such a check, its stamp not dropped since, and the last switched-off check saw it as a station or is a second old |
| `Watchdog.AtcTimesOutAsAircraft` | src/core/airspaceanalyzer.cpp:207-221 | the run in which a station that was never an aircraft times out as one |
| `Watchdog.IntendedDisabledCheckIsSilent` | src/core/airspaceanalyzer.cpp:207-221 | with the intended map the switched-off check times nothing out and invents no callsign |
| `Watchdog.AirspaceAnalyzer.WatchdogCheckTimeouts` | src/core/airspaceanalyzer.cpp:168-222 | state and emitted timeouts of a check, as the specification gives them |
| `Watchdog.AirspaceAnalyzer.CheckAircraft` | src/core/airspaceanalyzer.cpp:189-205 | the loop over aircraft stamps |
| `Watchdog.AirspaceAnalyzer.CheckAtc` | src/core/airspaceanalyzer.cpp:207-221 | the loop over ATC stamps, writing the aircraft map when switched off |
| `Watchdog.AirspaceAnalyzer.TouchAircraftCallsign` | src/core/airspaceanalyzer.cpp:115-120 | stamps the aircraft |
| `Watchdog.AirspaceAnalyzer.TouchAtcCallsign` | src/core/airspaceanalyzer.cpp:122-129 | stamps the station |
| `Watchdog.AirspaceAnalyzer.RemoveAircraftCallsign` | src/core/airspaceanalyzer.cpp:158-161 | drops the aircraft's stamp |
| `Watchdog.AirspaceAnalyzer.RemoveAtcCallsign` | src/core/airspaceanalyzer.cpp:163-166 | drops the station's stamp |
| `Watchdog.AirspaceAnalyzer.Clear` | src/core/airspaceanalyzer.cpp:131-156 | drops all stamps when the connection is lost |
| `AirspaceRange.LimitsFollowRange` | src/core/airspacemonitor.cpp:417-432 | over every run the limits are those of the last range set: the rounded range and its rounded 110 percent, both off exactly after a null or non-positive range, the defaults before any |
| `AirspaceRange.InRangeIffHeld` | src/core/airspacemonitor.cpp:1148-1160 | over every run, whatever ranges are set meanwhile, an aircraft is in range exactly when an update at most the limit of its time away admitted it and none since was beyond the hysteresis limit of its time, with no disconnect between |
| `AirspaceRange.PostsIff` | src/core/airspacemonitor.cpp:1248-1427 | which touches and removals a handler posts to the analyzer, exactly |
| `AirspaceRange.SituationStep` | src/misc/simulation/remoteaircraftprovider.cpp:247-340 | an aircraft has a stored situation exactly since a full update that found or brought it in range, until it is expelled |
| `AirspaceRange.ReentryCrossesBand` | src/core/airspacemonitor.cpp:1148-1160 | leaving and coming back crosses the whole band between both limits, unless another range is set in between |
| `AirspaceRange.BandIffFiveMiles` | src/core/airspacemonitor.cpp:417-432 | the band is non-empty exactly from 5 NM on |
| `AirspaceRange.HysteresisValue` | src/core/airspacemonitor.cpp:417-432 | the rounded 110 percent in integers |
| `AirspaceRange.AirspaceMonitor.SetMaxRange` | src/core/airspacemonitor.cpp:417-432 | both limits, or none for a null or non-positive range |
| `AirspaceRange.AirspaceMonitor.HandleMaxRange` | src/core/airspacemonitor.cpp:1148-1160 | the range test: who is removed, who is admitted |
| `AirspaceRange.AirspaceMonitor.OnAircraftUpdateReceived` | src/core/airspacemonitor.cpp:1248-1297 | the membership after a full update and the signals posted |
| `AirspaceRange.AirspaceMonitor.StoreAircraftSituation` | src/misc/simulation/remoteaircraftprovider.cpp:247-340 | a stored situation posts a touch, an update dropped for its lost velocity posts none |
| `AirspaceRange.AirspaceMonitor.OnAircraftInterimUpdateReceived` | src/core/airspacemonitor.cpp:1299-1340 | an interim update is stored only for an aircraft in range with a full situation |
| `AirspaceRange.AirspaceMonitor.OnAircraftVisualUpdateReceived` | src/core/airspacemonitor.cpp:1342-1385 | the same for a visual update |
| `AirspaceRange.AirspaceMonitor.OnAircraftSimDataUpdateReceived` | src/core/airspacemonitor.cpp:1387-1403 | simulation data admit and expel as a full update does |
| `AirspaceRange.AirspaceMonitor.OnPilotDisconnected` | src/core/airspacemonitor.cpp:1418-1427 | the aircraft leaves, with its signal |
| `AirspaceRange.AirspaceMonitor.OnAtcPositionUpdate` | src/core/airspacemonitor.cpp:672-717 | the station is online; no touch is posted |
| `AirspaceRange.AirspaceMonitor.OnAtcControllerDisconnected` | src/core/airspacemonitor.cpp:719-732 | the station goes, with its signal |
| `AirspaceRange.AirspaceMonitor.Clear` | src/core/airspacemonitor.cpp:394-407 | nothing is left, every aircraft's removal is signalled |
| `AirspaceSystem.NoOrphanReachable` | src/core/airspaceanalyzer.cpp:61-74 | over every interleaving of the threads, with connections and their ends, all kinds of updates and log-offs, each aircraft in range will be stamped, or its timeout or the end of the session is on its way to the monitor, as long as only watched aircraft are added again by timer |
| `AirspaceSystem.StepKeepsNoOrphan` | src/core/airspacemonitor.cpp:1248-1297 | every step of any thread but such an addition keeps that |
| `AirspaceSystem.ReAddOrphansIff` | src/core/airspacemonitor.cpp:1117-1138 | the addition by timer keeps it if and only if the aircraft is watched: a stamp is to come, or its timeout or the end of the session waits |
| `AirspaceSystem.HandleKeepsWatch` | src/core/airspacemonitor.cpp:1248-1297 | a handler posts a touch for every aircraft it adds and removes no stamp of one it keeps |
| `AirspaceSystem.CheckKeepsNoOrphan` | src/core/airspaceanalyzer.cpp:189-222 | a check that drops a stamp sends the timeout |
| `AirspaceSystem.QuietSystemWatchesAll` | src/core/airspacemonitor.cpp:107-110 | whenever both queues are empty every aircraft in range has a timestamp |
| `AirspaceSystem.SilentAircraftLeaves` | src/core/airspaceanalyzer.cpp:142-222 | over every interleaving, an aircraft that falls silent has left the monitor's range once a check has run after its timeout and all grace periods, and the queues are empty again |
| `AirspaceSystem.ReInitializedAircraftIsOrphaned` | src/core/airspacemonitor.cpp:409-415 | the run in which an aircraft added again is watched by nothing |
| `LogOff.StationLeavesIff` | src/core/airspacemonitor.cpp:719-732 | in any state a step takes a station off exactly when the monitor takes the end of the session or, connected, the timeout of the station or a log-off packet whose CID is the callsign |
| `LogOff.AircraftLeavesIff` | src/core/airspacemonitor.cpp:1418-1427 | the same for aircraft, connected or not; besides, an update from beyond the hysteresis limit and a new initialization |
| `LogOff.OnlyTimeoutTakesStationOff` | src/core/fsd/fsdclient.cpp:1211-1217 | over every run in which no log-off packet has the callsign as CID, whoever sends it, a station that is gone has timed out or the session has ended |
| `LogOff.OnlyTimeoutTakesAircraftOff` | src/core/fsd/fsdclient.cpp:1219-1225 | the same for an aircraft that was not expelled by the range test or a new initialization |
| `StationWatch.StationIsWatched` | src/core/airspacemonitor.cpp:672-732 | over every interleaving in which a station is not reported while a removing log-off or its timeout waits, and not timed out between the two signals of a report: while online it will be stamped, or its timeout or the end of the session is pending |
| `StationWatch.StepKeepsInv` | src/core/airspaceanalyzer.cpp:109-129 | every such step keeps the invariant behind that |
| `StationWatch.StepOrphansIff` | src/core/airspacemonitor.cpp:672-732 | in any reachable state a step makes a watched station an orphan exactly when the monitor, connected, takes the report that makes it online with no stamp left and nothing else on the way |
| `StationWatch.SessionEndFollows` | src/core/fsd/fsdclient.cpp:322-346 | in every reachable state, disconnected with a station online, the end of the session is on its way, so an ignored timeout leaves nothing behind |
| `StationWatch.TimeoutBetweenSignals` | src/core/airspaceanalyzer.cpp:61-74 | the run in which a station reports just as it is timed out, and stays online watched by nothing |
| `StationWatch.AtcStationIsOrphaned` | src/core/airspacemonitor.cpp:672-732 | the run with the same end in which a log-off packet carries the callsign as its CID and the station logs on again at once |
| `ReadinessRuns.AnnouncedInTime` | src/core/airspacemonitor.cpp:545-670 | a valid aircraft that joins without a record marked as sent and stays is announced within twice the verify interval, whatever packets and timers do |
| `ReadinessRuns.GuaranteedIff` | src/core/airspacemonitor.cpp:545-670 | that is guaranteed exactly for valid callsigns without such a left-over record |
| `ReadinessRuns.StepWhileWaiting` | src/core/airspacemonitor.cpp:545-670 | every step announces or keeps a verify timer pending |
| `ReadinessRuns.LeftoverRecord` | src/core/airspacemonitor.cpp:1148-1160 | leaving and joining again: the new stay is announced in time unless the aircraft was announced before and left by the range test; without timers left over exactly then |
| `ReadinessRuns.SentRecordIsSilent` | src/core/airspacemonitor.cpp:545-570 | a sent record announces nothing until 20 s after its first flag |
| `ReadinessRuns.AnnouncedOncePerRecord` | src/core/airspacemonitor.cpp:545-630 | a record announces at most once in those 20 s |
| `ReadinessRuns.ReannouncedAtOnce` | src/core/airspacemonitor.h:219-259 | two announcements of one record 1 ms apart |
| `ReadinessRuns.PollingIsBounded` | src/core/airspacemonitor.cpp:545-630 | a polling chain makes at most four waits while a record with timestamp persists |
| `ReadinessStays.StayPollingIsBounded` | src/core/airspacemonitor.cpp:545-670 | whatever record and timers a stay starts with, a chain makes at most 13 further waits while the record has no timestamp, and at most 16 in the stay |
| `ReadinessStays.UntimedChainsAreLonger` | src/core/airspacemonitor.cpp:1162-1170 | punctual runs that reach every number of waits up to these bounds |
| `ReadinessFirst.FirstAnnouncementIff` | src/core/airspacemonitor.cpp:545-670 | in a stay that starts without a record the first announcement comes exactly with a packet or polling timer when more than one situation and either a model string or both packets are there, or 6 s after the first flag; or with a verify timer after ICAO codes or another verify timer |
| `ReadinessFirst.NextAnnouncementIff` | src/core/airspacemonitor.cpp:545-570 | a further one comes exactly with the next packet or polling timer 20 s after the first flag |
| `ReadinessFirst.OnlyValidIsAnnounced` | src/core/airspacemonitor.cpp:545-630 | only an aircraft in range with a valid callsign is announced, and only while connected |
| `ReadinessFirst.InvalidCallsign` | src/core/airspacemonitor.cpp:844-873 | what codes do to a callsign that does not look like an aircraft's |
| `ReadinessFirst.PacketIsKeptIff` | src/core/airspacemonitor.cpp:770-842 | which FsInn packets are kept, and how long |
| `Readiness.ReadinessMonitor.SendReadyForModelMatching` | src/core/airspacemonitor.cpp:545-630 | record, timers and announcement of a call; all other callsigns untouched |
| `Readiness.ReadinessMonitor.VerifyReceivedIcaoData` | src/core/airspacemonitor.cpp:632-670 | the verify fallback |
| `Readiness.ReadinessMonitor.OnCustomFSInnPacketReceived` | src/core/airspacemonitor.cpp:770-842 | the FsInn packet, kept when it comes too early |
| `Readiness.ReadinessMonitor.RecallFsInnPacket` | src/core/airspacemonitor.cpp:1162-1170 | the kept packet is handled once |
| `Readiness.ReadinessMonitor.OnIcaoCodesReceived` | src/core/airspacemonitor.cpp:844-873 | ICAO codes |
| `Readiness.ReadinessMonitor.CheckAgain` | src/core/airspacemonitor.cpp:581-599 | the body of the polling timer |
| `Readiness.ReadinessMonitor.FireTimer` | src/core/airspacemonitor.cpp:581-599 | a timer changes the entry of its callsign as specified, and no other |
| `Readiness.ReadinessMonitor.AddNewAircraftInRange` | src/core/airspacemonitor.cpp:1077-1115 | a joining aircraft gets its verify timer |
| `Readiness.ReadinessMonitor.AddMatchingReadinessFlag` | src/core/airspacemonitor.cpp:538-543 | adds a flag and, to a record without one, the timestamp |
| `Readiness.ReadinessMonitor.OnPilotDisconnected` | src/core/airspacemonitor.cpp:1418-1427 | record and aircraft go |
| `Readiness.ReadinessMonitor.RemoveAircraft` | src/misc/simulation/remoteaircraftprovider.cpp:930-955 | the aircraft goes, the record stays |
| `Readiness.ReadinessMonitor.Clear` | src/core/airspacemonitor.cpp:394-407 | records, packets and stations go, timers stay |
| `Rendering.TakeSnapshot` | src/misc/simulation/airspaceaircraftsnapshot.cpp:19-80 | the snapshot names the first qualifying aircraft up to the limit and loses none |
| `Rendering.SnapshotNamesNearest` | src/misc/simulation/airspaceaircraftsnapshot.cpp:19-80 | a restricted snapshot names only enabled aircraft nearer than the limit, at most the allowed number, nearest first; an enabled one near enough is left out only when the number is used up by aircraft no farther away; an unrestricted one names exactly the enabled |
| `Rendering.SnapshotSource.AnalyzeAirspace` | src/core/airspaceanalyzer.cpp:224-257 | snapshot and restriction-changed flag |
| `Rendering.Simulator.OnRecalculatedRenderedAircraft` | src/core/simulator.cpp:673-724 | handling a snapshot, as the specification gives it |
| `Rendering.Simulator.RenderExactly` | src/core/simulator.cpp:689-716 | removes what is not wanted, adds what is missing |
| `Rendering.Simulator.LogicallyAddRemoteAircraft` | src/core/simulator.cpp:77-109 | a usable aircraft is added at once exactly without restriction |
| `Rendering.Simulator.LogicallyRemoveRemoteAircraft` | src/core/simulator.cpp:63-75 | an aircraft is removed at once exactly without restriction; the counter of added aircraft goes up |
| `Rendering.Simulator.PhysicallyRemoveMultipleRemoteAircraft` | src/core/simulator.cpp:732-742 | all of the callsigns go, and their last sent values |
| `Rendering.Simulator.PhysicallyRemoveAllRemoteAircraft` | src/core/simulator.cpp:744-755 | the default removes the aircraft in range |
| `RenderingRuns.HandlingIsExact` | src/core/simulator.cpp:673-724 | helper of the run results: one handled snapshot leaves its aircraft still in range, at most as many as it names |
| `RenderingRuns.StatisticsDrift` | src/core/simulator.cpp:63-75 | a handled snapshot counts what it adds and removes; each direct removal of a rendered aircraft, and each addition of one still rendered, puts the statistics one ahead |
| `RenderingRuns.RemovedIsForgotten` | src/core/simulator.cpp:673-742 | exactly the values last sent to aircraft taken off are forgotten, all of them when rendering is switched off |
| `RenderingRuns.StaysExact` | src/core/simulator.cpp:63-109 | without restriction direct adds and removals keep the rendering exact over every orderly run |
| `RenderingRuns.SilentLeaverLingers` | src/core/airspacemonitor.cpp:1148-1160 | an aircraft removed by the range test stays rendered until it joins again or settings change |
| `RenderingRuns.LiftingIsExactIff` | src/core/simulator.cpp:673-724 | from the snapshot taken after a restriction was lifted to its handling behind all older ones, whatever happens but a change of settings: the rendering is then exact if and only if no join or enabling since has set an aircraft to what it was not |
| `RenderingRuns.FreeSnapshotNamesEnabled` | src/core/airspaceanalyzer.cpp:224-257 | without restriction the snapshot names exactly the enabled aircraft in range |
| `RenderingRuns.LiftedRestrictionSettles` | src/core/simulator.cpp:673-724 | without join and enabling in between, the rendering is exact from that handling on over every orderly run |
| `RenderingRuns.JoinerIsLost` | src/core/simulator.cpp:673-724 | the run that loses an aircraft joining in between |
| `RenderingRuns.JoinerIsAddedIff` | src/misc/simulation/interpolation/interpolationrenderingsetup.cpp:150-160 | who is added at once, rendering switched off included |
| `RenderingRuns.SwitchingOffClearsIff` | src/core/simulator.cpp:744-755 | nothing stays rendered exactly when nothing rendered had left the range |
| `InputManagerRuns.CallsAlternate` | src/core/inputmanager.cpp:52-99 | over every run of reports, captures and reloads an action's calls alternate, and it is active exactly when the last was a press |
| `InputManagerRuns.PressesAreReleased` | src/core/inputmanager.cpp:146-182 | from the start the first call is a press, and the action is active exactly when the number of calls is odd |
| `InputManagerRuns.ReceiverSeesCalls` | src/core/inputmanager.cpp:90-99 | in whatever order an event calls actions, a bound function gets exactly the calls of its action |
| `InputManagerRuns.ReceiverSeesTrigger` | src/core/inputmanager.cpp:101-109 | the same for a triggered key |
| `InputManagerRuns.RelaySeesCalls` | src/core/inputmanager.cpp:90-99 | with relaying on, exactly the calls of every action are relayed, else none |
| `InputManagerRuns.TriggerBreaksAlternation` | src/core/inputmanager.cpp:101-109 | the run in which a held and triggered key is pressed twice |
| `InputManagerRuns.AlternatesIff` | src/core/inputmanager.cpp:101-109 | after any run, triggers included, whose calls alternate: a trigger repeats a release exactly if the last combination's action is not down, a press exactly if the triggered action is down and not just released; another event repeats a call exactly if it switches an action that triggers have put out of step |
| `InputManagerRuns.FirstTriggerAlternatesIff` | src/core/inputmanager.cpp:101-109 | the first trigger after a report repeats a call exactly if its action is active without belonging to the combination held |
| `InputManagerRuns.MergeRefinesMatching` | src/core/inputmanager.cpp:65-81 | without captures, after each report the active actions are those whose combination both devices together hold |
| `InputManagerRuns.ReleasingAllReleases` | src/core/inputmanager.cpp:146-182 | when nothing is held any more every press has met its release |
| `InputManagerRuns.ActsOnTaken` | src/core/inputmanager.cpp:65-88 | over every run, captures and triggers included, a report outside a capture leaves exactly the actions active that match what was taken over last from both devices |
| `InputManagerRuns.MergeExactIff` | src/core/inputmanager.cpp:65-88 | such a report acts right for every set of hotkeys if and only if what was taken over last from the other device is what that device reported last |
| `InputManagerRuns.RightForAllHotkeysIff` | src/core/inputmanager.cpp:168-182 | a merged combination is right for all settings if and only if it is what is held |
| `InputManagerRuns.CaptureLeavesKeyBehind` | src/core/inputmanager.cpp:146-166 | the run in which a released key's action is still active |
| `InputManagerRuns.ConfiguredIff` | src/core/inputmanager.cpp:52-63 | the configured combinations are those of local hotkeys that have one, each with the action of the last such hotkey |
| `InputManagerRuns.NoEmptyCombination` | src/core/inputmanager.cpp:52-63 | no empty combination is ever configured |
| `InputManagerRuns.OneFinishPerCapture` | src/core/inputmanager.cpp:83-88 | each start of a capture yields at most one finish |
| `InputManagerRuns.SessionFinishesWithLargest` | src/core/inputmanager.cpp:146-166 | the finish is last, not empty, the selection announced before, and at least as large as every difference seen |
| `InputManagerRuns.NoMixedSelection` | src/core/inputmanager.cpp:65-88 | no difference and no selection mixes keys with buttons |
| `InputManagerRuns.MixIsNotCaptured` | src/core/inputmanager.cpp:146-166 | key and button held together are captured as the key alone |
| `InputManager.UnboundIsNotInvoked` | src/core/inputmanager.cpp:45-50 | unbinding silences that binding and keeps all other calls in order |
| `InputManager.UnboundKeepsOthers` | src/core/inputmanager.cpp:45-50 | exactly the one binding goes |
| `InputManager.HotkeyManager.ReloadHotkeySettings` | src/core/inputmanager.cpp:52-63 | local hotkeys with a combination, the later of equal ones |
| `InputManager.HotkeyManager.ProcessCombination` | src/core/inputmanager.cpp:146-182 | state, selection and the calls, presses before releases |
| `InputManager.HotkeyManager.ProcessKeyCombinationChanged` | src/core/inputmanager.cpp:65-72 | a keyboard report merged with the last buttons |
| `InputManager.HotkeyManager.ProcessButtonCombinationChanged` | src/core/inputmanager.cpp:74-81 | a joystick report merged with the last keys |
| `InputManager.HotkeyManager.MatchingActions` | src/core/inputmanager.cpp:168-172 | the actions whose combination is contained in the current one |
| `InputManager.HotkeyManager.CallFunctionsBy` | src/core/inputmanager.cpp:90-99 | relays the action and invokes its functions in the order of binding |
| `InputManager.HotkeyManager.Bind` | src/core/inputmanager.cpp:132-144 | a new binding with an index of its own |
| `InputManager.HotkeyManager.Unbind` | src/core/inputmanager.cpp:45-50 | erases the first binding with the index |
| `InputManager.HotkeyManager.BeginCapture` | src/core/inputmanager.cpp:83-88 | starts a capture from the last combination |
| `InputManager.HotkeyManager.TriggerKey` | src/core/inputmanager.cpp:101-109 | releases the last and presses the new action, past the active ones |
| `CommandLineMerge.MeaningIff` | src/core/application.cpp:1060-1095 | for complete lists without a value that names an option to remove: the joined list means the old options without the named ones, overridden by the new, if and only if none named but not given anew was given more than once |
| `CommandLineMerge.JoinedItems` | src/core/application.cpp:1060-1095 | for such lists, as written and parsed: the old items without the first of each named option, then the new arguments |
| `CommandLineMerge.MergeIsWellFormed` | src/core/application.cpp:1060-1095 | well-formed lists merge into a well-formed list with that meaning; other arguments stay |
| `CommandLineMerge.NewOptionsAreNamed` | src/core/application.cpp:1075-1080 | the named options are those the new list sets, the ones to remove and the installer option |
| `CommandLineMerge.MergingAgainIff` | src/core/application.cpp:1060-1095 | merging the same new arguments after a restart changes nothing if and only if all of them are options |
| `CommandLineMerge.WithoutOptionDropsItem` | src/core/application.cpp:631-639 | in a complete list whose values do not name the option exactly its first item goes, with its value |
| `CommandLineMerge.ValueSurvivesIff` | src/core/application.cpp:631-639 | anywhere in any list a value goes with the removal of another option exactly if it names that option and nothing before it does; what goes and what stays in each case |
| `CommandLineMerge.ValueIsKeptIff` | src/core/application.cpp:1060-1095 | where the merge removes one option of a list, an earlier option keeps its value if and only if the value does not name the removed one, or the next argument left is the same value; else it gets that argument or none |
| `CommandLineMerge.NamesIff` | src/core/application.cpp:613-629 | an argument names an option exactly if it is one or two dashes and one of its names in whatever case |
| `CommandLine.NoneNamedBefore` | src/core/application.cpp:613-629 | the index found is the first |
| `CommandLine.Application.IndexOfCommandLineOption` | src/core/application.cpp:613-629 | index of the first argument naming the option in any case, with one or two dashes |
| `CommandLine.Application.ArgumentsWithoutOption` | src/core/application.cpp:631-639 | without that argument and, for options with a value, the next |
| `CommandLine.Application.ArgumentsJoined` | src/core/application.cpp:1060-1095 | the joined list, as the specification gives it |
| `ModelCandidates.CandidatesAreTheBest` | src/core/aircraftmatcher.cpp:1768-1878 | for every setup, aircraft and set without equal strings, the candidates are exactly the models of the set that no other beats by the ranks of the due steps, compared first to last |
| `ModelCandidates.CandidatesAreUniform` | src/core/aircraftmatcher.cpp:1855-1874 | in any set, when livery and logged family do not break off, the candidates all match or all miss the combined type, the military flag and the manufacturer, as far as the setup has the step |
| `ModelCandidates.DesignatorIsKeptIff` | src/core/aircraftmatcher.cpp:2031-2132 | aircraft first: if the set has the designator, all candidates have it, unless no such model is of the airline and some model of the family is; then none has |
| `ModelCandidates.AirlineIsKept` | src/core/aircraftmatcher.cpp:2031-2132 | airline first: if the set has the airline or its group, all candidates are of these |
| `ModelMatching.NeverLosesEverything` | src/core/aircraftmatcher.cpp:1768-1878 | for every setup the pipeline keeps a non-empty, duplicate-free part of the model set |
| `ModelRanking.OfTypeIff` | src/misc/aviation/aircrafticaocode.cpp:439-462 | a model is of a type exactly if they agree in every place that is not left open |
| `ModelRanking.LiveryNarrows` | src/core/aircraftmatcher.cpp:1998-2029 | the livery step keeps exactly the models of highest rank, and tells when some model has one |
| `ModelRanking.ManufacturerNarrows` | src/core/aircraftmatcher.cpp:2250-2298 | the same for the manufacturer |
| `ModelRanking.AirlineNarrows` | src/core/aircraftmatcher.cpp:2415-2493 | the same for airline before group, or both on a level |
| `ModelRanking.FamilyNarrows` | src/core/aircraftmatcher.cpp:2134-2248 | the same for the family, or type and manufacturer, before the designator taken as family |
| `ModelRanking.AircraftNarrows` | src/core/aircraftmatcher.cpp:2404-2413 | the same for the designator before the family |
| `ModelCandidates.SecondSearchIff` | src/core/aircraftmatcher.cpp:2031-2132 | the second search is taken exactly when no model best by aircraft is of the airline and one best by family is |
| `ModelCandidates.GlidersNarrow` | src/misc/simulation/categorymatcher.cpp:56-217 | with a glider in the set the category step starts from the set again: same category, parallel branch, sibling, any glider |
| `ModelCandidates.SubstitutesNarrow` | src/misc/simulation/categorymatcher.cpp:56-217 | without one it prefers substitutes in a colour livery, then light propeller aircraft |
| `ModelCandidates.TypeNarrows` | src/core/aircraftmatcher.cpp:2576-2622 | the type step prefers the type, among several of it airline and manufacturer |
| `ModelMatching.ByLiveryKeeps` | src/core/aircraftmatcher.cpp:1998-2029 | keeps candidates; unset flag means unchanged list |
| `ModelMatching.ByManufacturerKeeps` | src/core/aircraftmatcher.cpp:2250-2298 | the same for the manufacturer |
| `ModelMatching.ByAircraftKeeps` | src/core/aircraftmatcher.cpp:2349-2402 | the same for the aircraft designator |
| `ModelMatching.ByFamilyKeeps` | src/core/aircraftmatcher.cpp:2134-2153 | the same for the family |
| `ModelMatching.ByFamilyNamedFinds` | src/core/aircraftmatcher.cpp:2155-2248 | a family reduction finds exactly the models of the family or of the same type and manufacturer |
| `ModelMatching.ByAircraftOrFamilyKeeps` | src/core/aircraftmatcher.cpp:2404-2413 | the same for aircraft, then family |
| `ModelMatching.ByAirlineKeeps` | src/core/aircraftmatcher.cpp:2415-2493 | the same for the airline |
| `ModelMatching.ByAirlineFinds` | src/core/aircraftmatcher.cpp:2444-2468 | an airline reduction finds exactly the models of the airline and, where the group is taken in, of the group |
| `ModelMatching.NameReductionFlag` | src/core/aircraftmatcher.cpp:2495-2561 | the flag is set exactly when the list gets shorter |
| `ModelMatching.NameReductionFinds` | src/core/aircraftmatcher.cpp:2495-2561 | the models of the telephony designator if it tells models apart, else of the name; a single model of the name at once |
| `ModelMatching.IcaoFlagIff` | src/core/aircraftmatcher.cpp:2031-2132 | the flag stays unset on a changed list exactly when the second search succeeds with another list, and models are dropped in silence exactly when it succeeds and some model is not of that family and airline |
| `ModelMatching.ByFamilyFinds` | src/core/aircraftmatcher.cpp:2134-2153 | what the family step keeps, by the family or by the designator taken as one |
| `ModelMatching.ByIcaoDataWithin` | src/core/aircraftmatcher.cpp:2031-2132 | the ICAO step keeps candidates |
| `ModelMatching.CombinedTypeFlagIff` | src/core/aircraftmatcher.cpp:2576-2622 | the flag stays unset on a changed list exactly when one model of several has the type |
| `ModelMatching.MilitaryFlagIff` | src/core/aircraftmatcher.cpp:2624-2650 | the flag is never set; the list changes exactly when it is mixed |
| `ModelMatching.VtolFlagIff` | src/core/aircraftmatcher.cpp:2652-2671 | the same for VTOL |
| `ModelMatching.ByCategoriesWithin` | src/misc/simulation/categorymatcher.cpp:56-217 | the category step keeps candidates of the set |
| `ModelMatching.LiveryReducesIff` | src/core/aircraftmatcher.cpp:2014-2028 | when the livery step reduces: designator and livery code are exchanged |
| `ModelMatching.LiveryStepNeverHits` | src/core/aircraftmatcher.cpp:2014-2028 | with valid codes never |
| `ModelMatching.LoggingMattersIff` | src/core/aircraftmatcher.cpp:1793-1817 | logging leaves all candidates of all aircraft and sets alone if and only if the setup has the ICAO step or no family flag |
| `ModelMatching.LoggingMatters` | src/core/aircraftmatcher.cpp:1793-1817 | for one aircraft and set: without a due and successful family step logging changes nothing |
| `ModelMatching.LoggingChangesCandidates` | src/core/aircraftmatcher.cpp:1799-1811 | aircraft and set for which it does, whatever the other flags |
| `ModelMatcher.StepwiseReduceImplementation` | src/core/aircraftmatcher.cpp:1768-1878 | the step by step pipeline computes the specified reduction |
| `ModelMatcher.ReduceByCategoryAndFlags` | src/core/aircraftmatcher.cpp:1819-1852 | its middle part does |
| `ClosestMatch.MatchComesFromSet` | src/core/aircraftmatcher.cpp:322-498 | the match is the manually set model, a model of the set with a string, or the default |
| `ClosestMatch.StringDecides` | src/core/aircraftmatcher.cpp:382-393 | with the string flag the match is the first model with the string as string or alias, if it has a string itself |
| `ClosestMatch.NoStringNoMatch` | src/core/aircraftmatcher.cpp:382-393 | without such a model the flag has no influence |
| `ClosestMatch.StringIsIgnored` | src/core/aircraftmatcher.cpp:382-400 | without the flag the string of the aircraft has no influence, unless set by hand |
| `ClosestMatch.UsableMembers` | src/core/aircraftmatcher.cpp:404-433 | matching uses exactly the models with a string, and under their flags those with database key and those not excluded |
| `ClosestMatch.MatchIsBest` | src/core/aircraftmatcher.cpp:435-497 | otherwise the match is a usable model, after stepwise reduction and of best score as the algorithm has it, and when it is the default |
| `ClosestMatch.MatchIsUnbeaten` | src/core/aircraftmatcher.cpp:435-497 | with stepwise reduction no other usable model beats the match |
| `ClosestMatch.StepwiseMatchIsReal` | src/core/aircraftmatcher.cpp:440-497 | stepwise reduction never falls back to the default while the set has a usable model |
| `ClosestMatch.DisabledIsNotMatched` | src/core/aircraftmatcher.cpp:322-498 | after any run of disable calls a disabled model is matched only by hand or as default |
| `ClosestMatch.ByScoreKeepsBest` | src/core/aircraftmatcher.cpp:1880-1909 | scoring keeps exactly the best models, and none only if zeros are ignored and no score is positive |
| `ClosestMatch.LastBestIsFirst` | src/core/aircraftmatcher.cpp:1891-1909 | of several best models the last comes first |
| `ClosestMatch.CombinedTypeDefaultIff` | src/core/aircraftmatcher.cpp:1911-1961 | a model of the type in a colour livery if there is one, else the default |
| `ClosestMatch.CombinedTypeDefaultIsFirst` | src/core/aircraftmatcher.cpp:1911-1961 | and the first such model |
| `ClosestMatch.PickIsCandidate` | src/core/aircraftmatcher.cpp:464-487 | first candidate, first of least order if all have one, or the drawn one |
| `ModelSet.ListsFollowStory` | src/core/aircraftmatcher.cpp:1682-1700 | the lists refine sets of strings over every run of disable and restore calls |
| `ModelSet.DisablingConservesIff` | src/core/aircraftmatcher.cpp:1682-1695 | active and disabled strings are disjoint, and together the original ones if and only if only such models were disabled |
| `ModelSet.FinalRestoreIff` | src/core/aircraftmatcher.cpp:1697-1700 | a final restore gives back exactly the original strings under the same condition |
| `ModelSet.RestoreOverlapsIff` | src/core/aircraftmatcher.cpp:1697-1700 | after a restore the two are disjoint exactly if nothing was disabled |
| `ModelSet.NewSetIsPollutedIff` | src/core/aircraftmatcher.cpp:1624-1680 | a new set gets the old disabled models at the next restore |
| `ModelSet.RestoreIsCleanIff` | src/misc/simulation/aircraftmodellist.cpp:851-867 | the restored set has no duplicates exactly if the disabled list has none |
| `ModelSet.FailingTwiceDuplicates` | src/core/aircraftmatcher.cpp:1742-1754 | a model that failed twice is restored twice |
| `ModelSet.ModelsAreConserved` | src/core/aircraftmatcher.cpp:1682-1700 | with models drawn from the set, over every run of disable calls no model is lost, changed or doubled, and a final restore gives back the set |
| `ModelSet.CleanedMembers` | src/core/aircraftmatcher.cpp:1624-1680 | a new set consists of the given models with a string that are not excluded, in their order |
| `ModelSet.AircraftMatcher.SetModelSet` | src/core/aircraftmatcher.cpp:1624-1680 | when the set is replaced, by the models with string that are not excluded |
| `ModelSet.AircraftMatcher.DisableModelsForMatching` | src/core/aircraftmatcher.cpp:1682-1695 | incremental and full disabling |
| `ModelSet.AircraftMatcher.RestoreDisabledModels` | src/core/aircraftmatcher.cpp:1697-1700 | replaces or adds by string; the disabled list stays |
| `ModelSet.AircraftMatcher.AddingRemoteModelFailed` | src/core/aircraftmatcher.cpp:1742-1754 | the failed model is disabled on top, if the setup says so |
| `Queries.RequestQueues` | src/core/airspacemonitor.cpp:288-312 | a request puts what it names on its queue, behind what is there, exactly if connected |
| `Queries.QueuesStayDistinct` | src/core/airspacemonitor.cpp:288-312 | neither queue holds a callsign twice, over every run |
| `Queries.TickSends` | src/core/airspacemonitor.cpp:379-386 | which query a tick sends: ATIS exactly for the first station if online, else pilot data exactly for the first aircraft if in range |
| `Queries.PilotHasItsTurn` | src/core/airspacemonitor.cpp:379-386 | a pilot query has its turn within as many ticks as there are ATIS queries queued or requested and pilot queries ahead, and one |
| `Queries.NoEarlierTurn` | src/core/airspacemonitor.cpp:379-386 | with all queued stations online, not earlier |
| `Queries.PilotsStarve` | src/core/airspacemonitor.cpp:1679-1687 | stations requested before every tick keep pilots waiting for ever |
| `Queries.EnqueuedKeeps` | src/core/airspacemonitor.cpp:288-312 | requests keep the queue's order and add what is missing |
| `Queries.AirspaceMonitor.RequestAircraftDataUpdates` | src/core/airspacemonitor.cpp:288-298 | enqueues aircraft not queued yet |
| `Queries.AirspaceMonitor.RequestAtisUpdates` | src/core/airspacemonitor.cpp:300-312 | enqueues stations not queued yet |
| `Queries.AirspaceMonitor.SendNextStaggeredAtisQuery` | src/core/airspacemonitor.cpp:1679-1687 | takes one station; sends only if it is online |
| `Queries.AirspaceMonitor.SendNextStaggeredPilotDataQuery` | src/core/airspacemonitor.cpp:1702-1715 | takes one callsign; sends only if it is in range |
| `Queries.AirspaceMonitor.FastProcessing` | src/core/airspacemonitor.cpp:379-386 | one tick: at most one query, a pilot's only without an ATIS query |
| `Queries.UserComesFrom` | src/core/airspacemonitor.cpp:226-278 | the user comes from the own aircraft, the first entry among aircraft, among stations, or the web, in this order |
| `Queries.AirspaceMonitor.GetUsersForCallsigns` | src/core/airspacemonitor.cpp:226-278 | exactly one user for each requested callsign, from the first source that knows it |
| `Queries.AirspaceMonitor.FindIn` | src/core/airspacemonitor.cpp:240-263 | one pass over aircraft or stations finds what is listed there |
| `UpdateLimiter.RateIsClose` | src/core/simulator.cpp:876-911 | at least one token per interval and a rate within 20 percent |
| `UpdateLimiter.RateIsExactIff` | src/core/simulator.cpp:876-911 | for which numbers the rate is exact |
| `UpdateLimiter.TokensInIntegers` | src/core/simulator.cpp:884-905 | the rounding in integers and the numbers where the interval changes |
| `UpdateLimiter.ConsumingOneIsAllowedIff` | src/misc/tokenbucket.cpp:14-16 | the bucket's assertion holds exactly from two updates per second on |
| `UpdateLimiter.GrantedIff` | src/misc/tokenbucket.cpp:14-67 | a token is granted exactly if one is left or its time has passed; what is left then, and that a refused request changes nothing |
| `UpdateLimiter.GrantedAreCovered` | src/misc/tokenbucket.cpp:14-67 | over every run no more is granted than was there and the time refills |
| `UpdateLimiter.UpdatesAreLimited` | src/core/simulator.cpp:863-911 | the whole limiter never exceeds 1.2 times the asked rate, beyond what the bucket held |
| `UpdateLimiter.ClockBackCostsTokens` | src/misc/tokenbucket.cpp:25-39 | a clock that goes back drives the bucket further below zero with every request, and by how much |
| `UpdateLimiter.TokenBucket.TryConsumeTokens` | src/misc/tokenbucket.cpp:14-39 | consumption with lazy refill |
| `UpdateLimiter.TokenBucket.GetTokens` | src/misc/tokenbucket.cpp:57-67 | the tokens since the last refill; the time moves only if there are any |
| `UpdateLimiter.Simulator.LimitToUpdatesPerSecond` | src/core/simulator.cpp:876-911 | switches the limit and configures the bucket |
| `UpdateLimiter.Simulator.IsUpdateAircraftLimited` | src/core/simulator.cpp:863-868 | limited exactly when switched on and no token is granted |

## Left out

- ModelCandidates.CandidatesAreTheBest: needs a set without equal strings, as lists are united by string; it says which models are left, not in which order.
- FSD sockets, HTTP, D-Bus, plugin loading, files, JSON, settings storage and log texts: plumbing around the parts modelled here.
- Matching and reverse-lookup scripts: a foreign engine; `getClosestMatch` is modelled without script.
- Reverse lookup in the web database and fuzzy search for ICAO codes, airlines and liveries.
- Elevation, centre of gravity, distance and bearing: the distance of an update is an input, rounded to miles.
- The score of a model, the order of hash iteration and random numbers: parameters.
- How `CCategoryMatcher` finds siblings and parallel branches of a category: the related categories are an input.
- Flight plans, aircraft parts and ATIS texts: they touch neither membership, readiness nor timestamps.
- `parseCommandLine`, statistics, `CWebReaderFlags`, GUI and samples: no property that spans operations.
- 32-bit and 64-bit overflow of clock readings, counters and the token product: integers are unbounded.
- UpdateLimiter.TokensInIntegers: rounds real products, not the floating-point ones of the source.
- UpdateLimiter.TokenBucket.TryConsumeTokens: does not stop at the assertion on the capacity, as a release build does not.
- CommandLine.Application.IndexOfCommandLineOption: lower-cases ASCII letters only.
- ClosestMatch.MatchComesFromSet: leaves aside the callsign and the model type stamped on every result.
- Rendering.Simulator.OnRecalculatedRenderedAircraft: uses the default driver; simulator plugins may override the physical calls.
