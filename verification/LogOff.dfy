/** What takes stations and aircraft off the monitor. The log-off packets of the network hand their
    CID over as the callsign, so it is the watchdog that does it. */
module LogOff {
  import opened Basics
  import opened AirspaceSystem
  import R = AirspaceRange

  /** Log-offs come as packets, not as data. */
  predicate IsProper(signal: Signal) {
    signal.Data? ==> IsData(signal.ev)
  }

  predicate Proper(s: System) {
    && (forall m | m in s.toMonitor && m.FromNetwork? :: IsProper(m.signal))
    && (s.posting.Some? ==> IsProper(s.posting.value))
  }

  /** The signal is a log-off packet whose CID, not its sender, is the callsign. */
  predicate LogsOffStation(signal: Signal, cs: Callsign) {
    signal.DeleteAtc? && signal.cid == cs.text
  }

  predicate LogsOffAircraft(signal: Signal, cs: Callsign) {
    signal.DeletePilot? && signal.cid == cs.text
  }

  predicate LogsOff(signal: Signal, cs: Callsign) {
    LogsOffStation(signal, cs) || LogsOffAircraft(signal, cs)
  }

  /** The signal is a full update of the aircraft from beyond the hysteresis limit. */
  predicate OutOfRange(signal: Signal, s: R.State, cs: Callsign) {
    && signal.Data? && (signal.ev.Position? || signal.ev.SimData?)
    && signal.ev.sit.cs == cs && signal.ev.sit.distanceNM.Some?
    && 0 <= s.maxDistanceNM && s.hysteresisNM < signal.ev.sit.distanceNM.value
  }

  /** A step takes a station off the monitor exactly when the monitor takes the end of the session
      or, connected, the timeout of the station or a log-off packet whose CID is its callsign. */
  lemma StationLeavesIff(s: System, a: Action, cs: Callsign)
    requires Proper(s) && Enabled(s, a) && cs in s.monitor.online
    ensures cs !in Apply(s, a).monitor.online <==>
            && a.MonitorTake?
            && match s.toMonitor[0]
               case FromNetwork(signal) => signal == SESSION_END || (s.connected && LogsOffStation(signal, cs))
               case TimeoutAtc(late) => s.connected && late == cs
               case TimeoutAircraft(_) => false
  {
    if a.MonitorTake? {
      assert s.toMonitor[0] in s.toMonitor;
      assert cs == Callsign(cs.text);
    }
  }

  /** The same for aircraft, connected or not; the range test and a new initialization of all
      aircraft take them off as well. */
  lemma AircraftLeavesIff(s: System, a: Action, cs: Callsign)
    requires Proper(s) && Enabled(s, a) && cs in s.monitor.inRange
    ensures cs !in Apply(s, a).monitor.inRange <==>
            || a.ReInitialize?
            || (&& a.MonitorTake?
                && match s.toMonitor[0]
                   case FromNetwork(signal) =>
                     || signal == SESSION_END || LogsOffAircraft(signal, cs)
                     || (s.connected && !a.copilot && OutOfRange(signal, s.monitor, cs))
                   case TimeoutAircraft(late) => late == cs
                   case TimeoutAtc(_) => false)
  {
    if a.MonitorTake? {
      assert s.toMonitor[0] in s.toMonitor;
      assert cs == Callsign(cs.text);
    }
  }

  lemma StepKeepsProper(s: System, a: Action)
    requires Proper(s) && Enabled(s, a)
    ensures Proper(Apply(s, a))
  {
    if a.MonitorTake? {
      assert forall m | m in s.toMonitor[1..] :: m in s.toMonitor;
    }
  }

  /** Some step of the run hands the message to the monitor. */
  predicate Takes(s: System, acts: seq<Action>, m: Message)
    decreases |acts|
  {
    acts != [] && (|| (acts[0].MonitorTake? && s.toMonitor != [] && s.toMonitor[0] == m)
                   || Takes(Apply(s, acts[0]), acts[1..], m))
  }

  /** No log-off packet on its way, or sent in the run, has the callsign for its CID. */
  predicate NoCidIs(s: System, acts: seq<Action>, cs: Callsign) {
    && (forall m | m in s.toMonitor && m.FromNetwork? :: !LogsOff(m.signal, cs))
    && (s.posting.Some? ==> !LogsOff(s.posting.value, cs))
    && (forall a | a in acts && a.FsdEmit? :: !LogsOff(a.signal, cs))
  }

  lemma StepKeepsNoCid(s: System, acts: seq<Action>, cs: Callsign)
    requires acts != [] && NoCidIs(s, acts, cs)
    ensures NoCidIs(Apply(s, acts[0]), acts[1..], cs)
  {
    var s' := Apply(s, acts[0]);
    assert acts[0] in acts;
    assert forall a | a in acts[1..] :: a in acts;
    if acts[0].MonitorTake? && s.toMonitor != [] {
      assert forall m | m in s.toMonitor[1..] :: m in s.toMonitor;
    }
  }

  /** Over every run in which no log-off packet has the callsign for its CID, whoever its sender is:
      a station leaves the monitor by its watchdog timeout or the end of the session alone. */
  lemma {:induction false} OnlyTimeoutTakesStationOff(s: System, acts: seq<Action>, s': System, cs: Callsign)
    requires Proper(s) && Path(s, acts, s') && NoCidIs(s, acts, cs)
    requires cs in s.monitor.online && cs !in s'.monitor.online
    ensures Takes(s, acts, TimeoutAtc(cs)) || Takes(s, acts, FromNetwork(SESSION_END))
    decreases |acts|
  {
    var next := Apply(s, acts[0]);
    StationLeavesIff(s, acts[0], cs);
    if cs in next.monitor.online {
      StepKeepsProper(s, acts[0]);
      StepKeepsNoCid(s, acts, cs);
      OnlyTimeoutTakesStationOff(next, acts[1..], s', cs);
    } else {
      assert s.toMonitor[0] in s.toMonitor;
    }
  }

  /** Some step of the run takes the aircraft off by the range test, or all of them to add them again. */
  predicate Expelled(s: System, acts: seq<Action>, cs: Callsign)
    decreases |acts|
  {
    acts != [] && (|| acts[0].ReInitialize?
                   || (&& acts[0].MonitorTake? && s.toMonitor != [] && s.toMonitor[0].FromNetwork?
                       && OutOfRange(s.toMonitor[0].signal, s.monitor, cs))
                   || Expelled(Apply(s, acts[0]), acts[1..], cs))
  }

  /** The same for an aircraft, the range test and new initializations apart. */
  lemma {:induction false} OnlyTimeoutTakesAircraftOff(s: System, acts: seq<Action>, s': System, cs: Callsign)
    requires Proper(s) && Path(s, acts, s') && NoCidIs(s, acts, cs) && !Expelled(s, acts, cs)
    requires cs in s.monitor.inRange && cs !in s'.monitor.inRange
    ensures Takes(s, acts, TimeoutAircraft(cs)) || Takes(s, acts, FromNetwork(SESSION_END))
    decreases |acts|
  {
    var next := Apply(s, acts[0]);
    AircraftLeavesIff(s, acts[0], cs);
    if cs in next.monitor.inRange {
      StepKeepsProper(s, acts[0]);
      StepKeepsNoCid(s, acts, cs);
      OnlyTimeoutTakesAircraftOff(next, acts[1..], s', cs);
    } else {
      assert s.toMonitor[0] in s.toMonitor;
    }
  }
}
