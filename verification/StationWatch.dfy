/** ATC stations in the system of monitor and analyzer: when a station online is watched, and how
    it comes to be watched by nothing. */
module StationWatch {
  import opened Basics
  import opened AirspaceSystem
  import opened LogOff
  import W = Watchdog
  import R = AirspaceRange

  /** What the monitor will have handled once the FSD thread has delivered the signal it is at: the
      one it is posting, or that of a disconnection it has begun. */
  function Pipeline(s: System): seq<Message> {
    s.toMonitor + if s.posting.Some? then [FromNetwork(s.posting.value)] else if s.ending then [END] else []
  }

  predicate Goes(m: Message, cs: Callsign) {
    m == TimeoutAtc(cs) || (m.FromNetwork? && LogsOffStation(m.signal, cs))
  }

  function Logon(cs: Callsign): Message {
    FromNetwork(Data(R.AtcPosition(cs)))
  }

  const END := FromNetwork(SESSION_END)

  ghost predicate Stamp(s: System, cs: Callsign) {
    cs in Stamped(W.Atc, s.analyzer.atc.Keys, s.toAnalyzer)
  }

  /** Online, without a stamp to come, and with neither its timeout nor the end of the session
      on the way: in this session only a new report can have the station watched again. */
  ghost predicate Orphaned(s: System, cs: Callsign) {
    cs in s.monitor.online && !Stamp(s, cs) && TimeoutAtc(cs) !in s.toMonitor && END !in Pipeline(s)
  }

  /** The step does not mix the end of one logon with the next one: no report of the station is sent
      while a log-off or timeout waits, and no check times it out between the two signals of a
      report. */
  predicate Careful(s: System, a: Action, cs: Callsign) {
    match a
    case FsdEmit(signal) => signal == Logon(cs).signal ==> forall m | m in s.toMonitor :: !Goes(m, cs)
    case AnalyzerCheck(_, _, _, lateAtc) => s.posting == Some(Logon(cs).signal) ==> cs !in lateAtc
    case _ => true
  }

  predicate CarefulPath(s: System, acts: seq<Action>, cs: Callsign)
    decreases |acts|
  {
    acts == [] || (Careful(s, acts[0], cs) && CarefulPath(Apply(s, acts[0]), acts[1..], cs))
  }

  // ---------------------------------------------------------------------------
  // The invariant
  // ---------------------------------------------------------------------------

  /** Could the station be online when the messages are handled, whatever the connection? */
  predicate MayBeOnline(online: bool, q: seq<Message>, cs: Callsign)
    decreases |q|
  {
    if q == [] then online
    else MayBeOnline(q[0] == Logon(cs) || (online && q[0] != END), q[1..], cs)
  }

  /** No log-off and no timeout has a position update of the station behind it. */
  predicate NoRace(q: seq<Message>, cs: Callsign)
    decreases |q|
  {
    q == [] || ((Goes(q[0], cs) ==> Logon(cs) !in q[1..]) && NoRace(q[1..], cs))
  }

  /** The handlers read the connection status of the FSD client: it is reset only when the end of
      the session follows, so stations are online only connected or shortly before that. */
  predicate Tied(s: System) {
    && (s.ending ==> !s.connected && s.posting == None)
    && (!s.connected ==> s.monitor.online == {} || END in Pipeline(s))
  }

  ghost predicate Sane(s: System) {
    Tied(s) && Proper(s) && forall e | e in s.toAnalyzer :: !e.Check?
  }

  ghost predicate Inv(s: System, cs: Callsign) {
    && Sane(s)
    && NoRace(Pipeline(s), cs)
    && (MayBeOnline(cs in s.monitor.online, Pipeline(s), cs) ==> Stamp(s, cs) || TimeoutAtc(cs) in s.toMonitor)
  }

  lemma {:induction false} MayBeOnlineSnoc(online: bool, q: seq<Message>, m: Message, cs: Callsign)
    ensures MayBeOnline(online, q + [m], cs) <==> m == Logon(cs) || (MayBeOnline(online, q, cs) && m != END)
    decreases |q|
  {
    if q == [] {
      assert [m][1..] == [] && [] + [m] == [m];
    } else {
      assert (q + [m])[0] == q[0] && (q + [m])[1..] == q[1..] + [m];
      MayBeOnlineSnoc(q[0] == Logon(cs) || (online && q[0] != END), q[1..], m, cs);
    }
  }

  lemma {:induction false} OnlineStays(q: seq<Message>, cs: Callsign)
    requires END !in q
    ensures MayBeOnline(true, q, cs)
    decreases |q|
  {
    if q != [] {
      OnlineStays(q[1..], cs);
    }
  }

  lemma {:induction false} OfflineStays(q: seq<Message>, cs: Callsign)
    requires Logon(cs) !in q
    ensures !MayBeOnline(false, q, cs)
    decreases |q|
  {
    if q != [] {
      OfflineStays(q[1..], cs);
    }
  }

  lemma {:induction false} EndStops(online: bool, q: seq<Message>, cs: Callsign)
    requires END in q && Logon(cs) !in q
    ensures !MayBeOnline(online, q, cs)
    decreases |q|
  {
    if q[0] == END {
      OfflineStays(q[1..], cs);
    } else {
      EndStops(online, q[1..], cs);
    }
  }

  lemma {:induction false} NoRaceSnoc(q: seq<Message>, m: Message, cs: Callsign)
    requires NoRace(q, cs) && (m == Logon(cs) ==> forall m' | m' in q :: !Goes(m', cs))
    ensures NoRace(q + [m], cs)
    decreases |q|
  {
    if q == [] {
      assert [] + [m] == [m] && [m][1..] == [];
    } else {
      assert (q + [m])[0] == q[0] && (q + [m])[1..] == q[1..] + [m];
      NoRaceSnoc(q[1..], m, cs);
    }
  }

  lemma {:induction false} NoRaceInit(q: seq<Message>, m: Message, cs: Callsign)
    requires NoRace(q + [m], cs)
    ensures NoRace(q, cs) && (m == Logon(cs) ==> forall m' | m' in q :: !Goes(m', cs))
    decreases |q|
  {
    if q != [] {
      assert (q + [m])[0] == q[0] && (q + [m])[1..] == q[1..] + [m];
      NoRaceInit(q[1..], m, cs);
      assert m in q[1..] + [m];
    }
  }

  lemma {:induction false} TimeoutsAppend(q: seq<Message>, late: seq<Message>, online: bool, cs: Callsign)
    requires NoRace(q, cs) && forall m | m in late :: m.TimeoutAircraft? || m.TimeoutAtc?
    ensures NoRace(q + late, cs) && (MayBeOnline(online, q + late, cs) <==> MayBeOnline(online, q, cs))
    decreases |late|
  {
    if late == [] {
      assert q + late == q;
    } else {
      var init, m := late[..|late| - 1], late[|late| - 1];
      assert m in late && late == init + [m];
      TimeoutsAppend(q, init, online, cs);
      assert q + late == (q + init) + [m];
      NoRaceSnoc(q + init, m, cs);
      MayBeOnlineSnoc(online, q + init, m, cs);
    }
  }

  /** Timeouts slip in before a posted signal, and race only with a position update. */
  lemma TimeoutsSlipIn(q: seq<Message>, late: seq<Message>, m: Message, online: bool, cs: Callsign)
    requires forall t | t in late :: t.TimeoutAircraft? || t.TimeoutAtc?
    requires NoRace(q + [m], cs) && (TimeoutAtc(cs) in late ==> m != Logon(cs))
    ensures NoRace(q + late + [m], cs)
    ensures MayBeOnline(online, q + late + [m], cs) <==> MayBeOnline(online, q + [m], cs)
  {
    NoRaceInit(q, m, cs);
    TimeoutsAppend(q, late, online, cs);
    assert forall t | t in q + late :: t in q || t in late;
    NoRaceSnoc(q + late, m, cs);
    MayBeOnlineSnoc(online, q, m, cs);
    MayBeOnlineSnoc(online, q + late, m, cs);
  }

  // ---------------------------------------------------------------------------
  // Steps
  // ---------------------------------------------------------------------------

  /** What handling a message does to the stations and their stamps. */
  lemma HandledStation(m: R.State, c: R.Call, keys: set<Callsign>, cs: Callsign)
    ensures var (m', posts) := R.Handle(m, c);
            && (forall e | e in posts :: !e.Check?)
            && (cs in m'.online <==>
                if c.ev == R.AtcPosition(cs) then c.connected || cs in m.online
                else if c.ev == R.AtcGone(cs) then !c.connected && cs in m.online
                else c.ev != R.Disconnected && cs in m.online)
            && (cs in Stamped(W.Atc, keys, posts) <==>
                cs in keys && !(c.ev == R.AtcGone(cs) && c.connected && cs in m.online))
  {
    var (m', posts) := R.Handle(m, c);
    if c.ev.Disconnected? {
      RemovalsKeepStations(c.order, keys);
    } else if posts != [] {
      assert posts == [posts[0]];
      StampedOne(W.Atc, keys, posts[0]);
    } else {
      assert Stamped(W.Atc, keys, []) == keys;
    }
  }

  lemma {:induction false} RemovalsKeepStations(order: seq<Callsign>, keys: set<Callsign>)
    ensures Stamped(W.Atc, keys, R.Removals(order)) == keys
  {
    if order != [] {
      assert R.Removals(order)[1..] == R.Removals(order[1..]);
      RemovalsKeepStations(order[1..], keys);
    }
  }

  /** A stamp is dropped only with a timeout on its way. */
  lemma CheckKeepsStamp(s: System, a: Action, cs: Callsign)
    requires a.AnalyzerCheck? && Enabled(s, a) && Stamp(s, cs)
    ensures Stamp(Apply(s, a), cs) || TimeoutAtc(cs) in Apply(s, a).toMonitor
    ensures !Stamp(Apply(s, a), cs) ==> cs in a.lateAtc
  {
    var s', late := Apply(s, a), W.CheckTimeouts(s.analyzer, a.now, a.enabled).lateAtc;
    assert s'.analyzer.atc.Keys == s.analyzer.atc.Keys - late;
    if cs in late {
      var i :| 0 <= i < |a.lateAtc| && a.lateAtc[i] == cs;
      assert s'.toMonitor[|s.toMonitor| + |a.lateAircraft| + i] == TimeoutAtc(cs);
    } else {
      StampedDependsOnOwnKey(W.Atc, s.analyzer.atc.Keys, s'.analyzer.atc.Keys, s.toAnalyzer, cs);
    }
  }

  lemma TakeKeepsStamp(s: System, now: int, cs: Callsign)
    requires s.toAnalyzer != [] && forall e | e in s.toAnalyzer :: !e.Check?
    ensures Stamp(Apply(s, AnalyzerTake(now)), cs) <==> Stamp(s, cs)
  {
    assert s.toAnalyzer[0] in s.toAnalyzer;
    assert Apply(s, AnalyzerTake(now)).analyzer.atc.Keys == Mark(W.Atc, s.analyzer.atc.Keys, s.toAnalyzer[0]);
  }

  lemma EmitStamps(s: System, signal: Signal, cs: Callsign)
    ensures Stamp(Apply(s, FsdEmit(signal)), cs) <==>
            signal == Logon(cs).signal || (signal != SESSION_END && Stamp(s, cs))
  {
    var keys := s.analyzer.atc.Keys;
    StampedAppend(W.Atc, keys, s.toAnalyzer, AnalyzerPart(signal));
    if AnalyzerPart(signal) != [] {
      StampedOne(W.Atc, Stamped(W.Atc, keys, s.toAnalyzer), AnalyzerPart(signal)[0]);
    } else {
      assert s.toAnalyzer + [] == s.toAnalyzer;
    }
  }

  /** The handled message, and what it does to the station and its stamp. */
  lemma MonitorTakes(s: System, a: Action, cs: Callsign)
    requires a.MonitorTake? && Enabled(s, a) && Proper(s)
    ensures var s', m := Apply(s, a), s.toMonitor[0];
            && Pipeline(s) == [m] + Pipeline(s') && s'.toMonitor == s.toMonitor[1..]
            && s'.posting == s.posting && s'.connected == s.connected && s'.ending == s.ending
            && ((forall e | e in s.toAnalyzer :: !e.Check?) ==> forall e | e in s'.toAnalyzer :: !e.Check?)
            && (cs in s'.monitor.online <==>
                if m == Logon(cs) then s.connected || cs in s.monitor.online
                else if Goes(m, cs) then !s.connected && cs in s.monitor.online
                else m != END && cs in s.monitor.online)
            && (Stamp(s', cs) <==> Stamp(s, cs) && !(Goes(m, cs) && s.connected && cs in s.monitor.online))
  {
    var c := R.Call(Slot(s.toMonitor[0]), s.connected, a.copilot, a.order);
    var keys := Stamped(W.Atc, s.analyzer.atc.Keys, s.toAnalyzer);
    HandledStation(s.monitor, c, keys, cs);
    StampedAppend(W.Atc, s.analyzer.atc.Keys, s.toAnalyzer, R.Handle(s.monitor, c).1);
    assert s.toMonitor == [s.toMonitor[0]] + s.toMonitor[1..];
    assert s.toMonitor[0] in s.toMonitor && cs == Callsign(cs.text);
  }

  lemma TakeKeepsInv(s: System, a: Action, cs: Callsign)
    requires a.MonitorTake? && Enabled(s, a) && Inv(s, cs) && Sane(Apply(s, a))
    ensures Inv(Apply(s, a), cs)
  {
    var s', m := Apply(s, a), s.toMonitor[0];
    MonitorTakes(s, a, cs);
    assert Pipeline(s)[0] == m && Pipeline(s)[1..] == Pipeline(s');
    assert m != TimeoutAtc(cs) && TimeoutAtc(cs) in s.toMonitor ==> TimeoutAtc(cs) in s'.toMonitor;
    if Goes(m, cs) {
      if cs in s'.monitor.online {
        EndStops(true, Pipeline(s'), cs);
      } else {
        OfflineStays(Pipeline(s'), cs);
      }
    } else if !MayBeOnline(cs in s.monitor.online, Pipeline(s), cs) {
      var online := m == Logon(cs) || (cs in s.monitor.online && m != END);
      Monotone(cs in s'.monitor.online, online, Pipeline(s'), cs);
    }
  }

  lemma {:induction false} Monotone(a: bool, b: bool, q: seq<Message>, cs: Callsign)
    requires a ==> b
    ensures MayBeOnline(a, q, cs) ==> MayBeOnline(b, q, cs)
    decreases |q|
  {
    if q != [] {
      Monotone(q[0] == Logon(cs) || (a && q[0] != END),
               q[0] == Logon(cs) || (b && q[0] != END), q[1..], cs);
    }
  }

  lemma EmitKeepsInv(s: System, a: Action, cs: Callsign)
    requires a.FsdEmit? && Enabled(s, a) && Inv(s, cs) && Careful(s, a, cs) && Sane(Apply(s, a))
    ensures Inv(Apply(s, a), cs)
  {
    EmitStamps(s, a.signal, cs);
    if !s.ending {
      assert s.toMonitor + [] == s.toMonitor;
      NoRaceSnoc(s.toMonitor, FromNetwork(a.signal), cs);
    }
    MayBeOnlineSnoc(cs in s.monitor.online, s.toMonitor, FromNetwork(a.signal), cs);
  }

  lemma EndKeepsInv(s: System, cs: Callsign)
    requires Enabled(s, FsdEnd) && Inv(s, cs) && Sane(Apply(s, FsdEnd))
    ensures Inv(Apply(s, FsdEnd), cs)
  {
    assert s.toMonitor + [] == s.toMonitor;
    NoRaceSnoc(s.toMonitor, END, cs);
    MayBeOnlineSnoc(cs in s.monitor.online, s.toMonitor, END, cs);
  }

  lemma CheckKeepsInv(s: System, a: Action, cs: Callsign)
    requires a.AnalyzerCheck? && Enabled(s, a) && Inv(s, cs) && Careful(s, a, cs) && Sane(Apply(s, a))
    ensures Inv(Apply(s, a), cs)
  {
    var q, late := s.toMonitor, Timeouts(a.lateAircraft, a.lateAtc);
    if TimeoutAtc(cs) in late {
      var i :| 0 <= i < |late| && late[i] == TimeoutAtc(cs);
      assert a.lateAtc[i - |a.lateAircraft|] == cs;
    }
    if s.posting.Some? {
      TimeoutsSlipIn(q, late, FromNetwork(s.posting.value), cs in s.monitor.online, cs);
    } else if s.ending {
      TimeoutsSlipIn(q, late, END, cs in s.monitor.online, cs);
    } else {
      assert q + [] == q && q + late + [] == q + late;
      TimeoutsAppend(q, late, cs in s.monitor.online, cs);
    }
    if Stamp(s, cs) {
      CheckKeepsStamp(s, a, cs);
    }
  }

  lemma TakeKeepsTied(s: System, a: Action)
    requires a.MonitorTake? && Enabled(s, a) && Sane(s)
    ensures Tied(Apply(s, a))
  {
    var s', m := Apply(s, a), s.toMonitor[0];
    forall cs ensures cs in s'.monitor.online ==> (s.connected || cs in s.monitor.online) && m != END {
      MonitorTakes(s, a, cs);
    }
    MonitorTakes(s, a, Callsign(""));
    assert END in Pipeline(s) && m != END ==> END in Pipeline(s');
    assert m == END || (!s.connected && s.monitor.online == {}) ==> s'.monitor.online == {};
  }

  lemma StepKeepsSane(s: System, a: Action)
    requires Enabled(s, a) && Sane(s)
    ensures Sane(Apply(s, a))
  {
    var s' := Apply(s, a);
    StepKeepsProper(s, a);
    match a
    case MonitorTake(_, _) =>
      TakeKeepsTied(s, a);
      MonitorTakes(s, a, Callsign(""));
    case FsdDeliver =>
      assert Pipeline(s') == Pipeline(s);
    case FsdEmit(signal) =>
      assert signal == SESSION_END ==> END in Pipeline(s');
      assert END in s.toMonitor ==> END in Pipeline(s');
    case AnalyzerCheck(_, _, _, _) =>
      assert forall m | m in Pipeline(s) :: m in Pipeline(s');
    case _ =>
  }

  lemma {:induction false} SaneReachable(s: System, acts: seq<Action>, s': System)
    requires Sane(s) && Path(s, acts, s')
    ensures Sane(s')
    decreases |acts|
  {
    if acts != [] {
      StepKeepsSane(s, acts[0]);
      SaneReachable(Apply(s, acts[0]), acts[1..], s');
    }
  }

  /** A timeout that the monitor ignores for being disconnected leaves no station behind: in every
      reachable state, disconnected with a station online, the end of the session is on its way. */
  lemma SessionEndFollows(now: int, acts: seq<Action>, s: System)
    requires Path(Start(now), acts, s) && !s.connected && s.monitor.online != {}
    ensures END in Pipeline(s)
  {
    SaneReachable(Start(now), acts, s);
  }

  lemma ReInitializeKeepsStamp(s: System, order: seq<Callsign>, cs: Callsign)
    ensures Stamp(Apply(s, ReInitialize(order)), cs) <==> Stamp(s, cs)
  {
    StampedAppend(W.Atc, s.analyzer.atc.Keys, s.toAnalyzer, R.Removals(order));
    RemovalsKeepStations(order, Stamped(W.Atc, s.analyzer.atc.Keys, s.toAnalyzer));
  }

  lemma StepKeepsInv(s: System, a: Action, cs: Callsign)
    requires Enabled(s, a) && Inv(s, cs) && Careful(s, a, cs)
    ensures Inv(Apply(s, a), cs)
  {
    StepKeepsSane(s, a);
    match a
    case FsdConnect =>
    case FsdEnd => EndKeepsInv(s, cs);
    case FsdEmit(_) => EmitKeepsInv(s, a, cs);
    case AnalyzerTake(now) => TakeKeepsStamp(s, now, cs);
    case AnalyzerCheck(_, _, _, _) => CheckKeepsInv(s, a, cs);
    case MonitorTake(_, _) => TakeKeepsInv(s, a, cs);
    case ReInitialize(order) => ReInitializeKeepsStamp(s, order, cs);
    case FsdDeliver =>
      assert Pipeline(Apply(s, a)) == Pipeline(s);
      assert forall m | m in s.toMonitor :: m in Apply(s, a).toMonitor;
    case ReAdd(_) =>
  }

  lemma {:induction false} InvReachable(s: System, acts: seq<Action>, s': System, cs: Callsign)
    requires Inv(s, cs) && Path(s, acts, s') && CarefulPath(s, acts, cs)
    ensures Inv(s', cs)
    decreases |acts|
  {
    if acts != [] {
      StepKeepsInv(s, acts[0], cs);
      InvReachable(Apply(s, acts[0]), acts[1..], s', cs);
    }
  }

  /** Over every interleaving that is careful about one station, re-initialized aircraft included:
      while it is online it will be stamped, or its timeout or the end of the session is pending. */
  lemma StationIsWatched(now: int, acts: seq<Action>, s: System, cs: Callsign)
    requires Path(Start(now), acts, s) && CarefulPath(Start(now), acts, cs)
    ensures !Orphaned(s, cs)
    ensures s.toAnalyzer == [] && Pipeline(s) == [] && cs in s.monitor.online ==> cs in s.analyzer.atc
  {
    InvReachable(Start(now), acts, s, cs);
    if END !in Pipeline(s) && cs in s.monitor.online {
      OnlineStays(Pipeline(s), cs);
    }
  }

  /** The converse at the step: in any reachable state a watched station becomes an orphan exactly
      when the monitor, connected, takes a report of it that makes it online, with no stamp left, and
      nothing else is on the way. */
  lemma StepOrphansIff(s: System, a: Action, cs: Callsign)
    requires Enabled(s, a) && !Orphaned(s, cs) && Sane(s)
    ensures Orphaned(Apply(s, a), cs) <==>
            && a.MonitorTake? && s.connected && s.toMonitor[0] == Logon(cs) && cs !in s.monitor.online
            && !Stamp(s, cs) && TimeoutAtc(cs) !in s.toMonitor[1..] && END !in Pipeline(s)[1..]
  {
    var s' := Apply(s, a);
    match a
    case FsdConnect =>
    case FsdEnd =>
      assert END in Pipeline(s');
    case FsdEmit(signal) =>
      EmitStamps(s, signal, cs);
      assert Pipeline(s') == s.toMonitor + [FromNetwork(signal)];
      assert signal == SESSION_END ==> END in Pipeline(s');
      assert END in s.toMonitor ==> END in Pipeline(s');
    case AnalyzerTake(now) =>
      TakeKeepsStamp(s, now, cs);
    case AnalyzerCheck(_, _, _, _) =>
      assert forall m | m in s.toMonitor :: m in s'.toMonitor;
      assert forall m | m in Pipeline(s) :: m in Pipeline(s');
      if Stamp(s, cs) {
        CheckKeepsStamp(s, a, cs);
      }
    case MonitorTake(_, _) =>
      MonitorTakes(s, a, cs);
      assert Pipeline(s)[0] == s.toMonitor[0] && Pipeline(s)[1..] == Pipeline(s');
      assert s.toMonitor == [s.toMonitor[0]] + s.toMonitor[1..];
      assert END in Pipeline(s) && s.toMonitor[0] != END ==> END in Pipeline(s');
    case ReInitialize(order) =>
      ReInitializeKeepsStamp(s, order, cs);
    case FsdDeliver =>
      assert Pipeline(s') == Pipeline(s);
      assert forall m | m in s.toMonitor :: m in s'.toMonitor;
    case ReAdd(_) =>
  }

  // ---------------------------------------------------------------------------
  // The careless runs
  // ---------------------------------------------------------------------------

  function StationOnline(cs: Callsign): System {
    LOGGED_IN.(monitor := R.INITIAL.(online := {cs}))
  }

  /** The station is online and was stamped at 1 ms; the last check ran at `last`. */
  function Silent(cs: Callsign, last: int): System {
    StationOnline(cs).(analyzer := W.State(map[], map[cs := 1], last, -1))
  }

  /** The FSD thread sends no other signals in the run. */
  predicate Sends(acts: seq<Action>, signals: set<Signal>) {
    forall a | a in acts && a.FsdEmit? :: a.signal in signals
  }

  lemma StationLogsOn(cs: Callsign) returns (acts: seq<Action>)
    ensures Path(Start(0), acts, Silent(cs, 0)) && Sends(acts, {Logon(cs).signal})
  {
    var s0, on, touch := Start(0), Logon(cs).signal, W.Touch(W.Atc, cs);
    var s: System;
    acts, s := LoggedIn();
    acts, s := Go(s0, acts, s, FsdEmit(on), LOGGED_IN.(posting := Some(on), toAnalyzer := [touch]));
    acts, s := Go(s0, acts, s, FsdDeliver, LOGGED_IN.(toMonitor := [Logon(cs)], toAnalyzer := [touch]));
    acts, s := Go(s0, acts, s, MonitorTake(false, []), StationOnline(cs).(toAnalyzer := [touch]));
    acts, s := Go(s0, acts, s, AnalyzerTake(1), Silent(cs, 0));
  }

  /** The station falls silent; the first `k` checks find nothing. */
  lemma {:induction false} StationFallsSilent(cs: Callsign, k: nat) returns (acts: seq<Action>)
    requires k <= 6
    ensures Path(Start(0), acts, Silent(cs, 7500 * k))
    decreases k
  {
    if k == 0 {
      acts := StationLogsOn(cs);
    } else {
      acts := StationFallsSilent(cs, k - 1);
      NothingLate(cs, k);
      var check, s := AnalyzerCheck(7500 * k, true, [], []), Silent(cs, 7500 * (k - 1));
      acts, s := Go(Start(0), acts, s, check, Silent(cs, 7500 * k));
    }
  }

  lemma NothingLate(cs: Callsign, k: nat)
    requires 1 <= k <= 6
    ensures var s, check := Silent(cs, 7500 * (k - 1)), AnalyzerCheck(7500 * k, true, [], []);
            Enabled(s, check) && Apply(s, check) == Silent(cs, 7500 * k)
  {
    var s := Silent(cs, 7500 * (k - 1)).analyzer;
    var out := W.CheckTimeouts(s, 7500 * k, true);
    assert out.lateAircraft == {} && out.lateAtc == {};
    assert out.next == W.State(map[], map[cs := 1], 7500 * k, -1);
    assert Timeouts([], []) == [];
  }

  /** The check at 52.5 s times the station out, whatever waits in the queues. */
  lemma TimesOut(s: System, cs: Callsign)
    requires s.analyzer == Silent(cs, 45000).analyzer
    ensures var check := AnalyzerCheck(52500, true, [], [cs]);
            && Enabled(s, check)
            && Apply(s, check) == s.(analyzer := W.State(map[], map[], 52500, -1),
                                     toMonitor := s.toMonitor + [TimeoutAtc(cs)])
  {
    var out := W.CheckTimeouts(s.analyzer, 52500, true);
    assert out.lateAircraft == {} && out.lateAtc == {cs};
    assert out.next == W.State(map[], map[], 52500, -1);
    assert Timeouts([], [cs]) == [TimeoutAtc(cs)];
  }

  /** Online, no stamp, and nothing on the way. */
  function Forgotten(cs: Callsign, last: int): System {
    StationOnline(cs).(analyzer := W.State(map[], map[], last, -1))
  }

  /** The analyzer works off a touch and the removal behind it. */
  lemma TouchThenRemove(cs: Callsign, now: int, last: int, before: seq<Action>, idle: System)
    returns (acts: seq<Action>)
    requires idle == Forgotten(cs, last) || idle == Silent(cs, last)
    requires Path(Start(0), before, idle.(toAnalyzer := [W.Touch(W.Atc, cs), W.Remove(W.Atc, cs)]))
    ensures Path(Start(0), acts, Forgotten(cs, last)) && Orphaned(Forgotten(cs, last), cs)
    ensures acts == before + [AnalyzerTake(now), AnalyzerTake(now)]
  {
    var touch, remove, take := W.Touch(W.Atc, cs), W.Remove(W.Atc, cs), AnalyzerTake(now);
    var s := idle.(toAnalyzer := [touch, remove]);
    var stamped := W.State(map[], map[cs := now], last, -1);
    assert [touch, remove][1..] == [remove] && [remove][1..] == [];
    acts, s := Go(Start(0), before, s, take, StationOnline(cs).(analyzer := stamped, toAnalyzer := [remove]));
    acts, s := Go(Start(0), acts, s, take, Forgotten(cs, last));
    assert Stamped(W.Atc, {}, []) == {};
  }

  /** The analyzer times a silent station out between the two signals of its report. */
  lemma TimedOutBetween(cs: Callsign) returns (acts: seq<Action>, s: System)
    ensures s == Forgotten(cs, 52500).(toMonitor := [TimeoutAtc(cs), Logon(cs)], toAnalyzer := [W.Touch(W.Atc, cs)])
    ensures Path(Start(0), acts, s)
  {
    var s0, on, touch := Start(0), Logon(cs).signal, W.Touch(W.Atc, cs);
    acts := StationFallsSilent(cs, 6);
    s := Silent(cs, 45000);
    var posted := s.(posting := Some(on), toAnalyzer := [touch]);
    acts, s := Go(s0, acts, s, FsdEmit(on), posted);
    TimesOut(s, cs);
    var out := Forgotten(cs, 52500).(posting := Some(on), toAnalyzer := [touch], toMonitor := [TimeoutAtc(cs)]);
    acts, s := Go(s0, acts, s, AnalyzerCheck(52500, true, [], [cs]), out);
    acts, s := Go(s0, acts, s, FsdDeliver, out.(posting := None, toMonitor := [TimeoutAtc(cs), Logon(cs)]));
  }

  /** The station reports again just as it is timed out: analyzer and monitor hear of the report
      on either side of the timeout. */
  lemma TimeoutBetweenSignals(cs: Callsign) returns (acts: seq<Action>)
    ensures Path(Start(0), acts, Forgotten(cs, 52500)) && Orphaned(Forgotten(cs, 52500), cs)
  {
    var s0, touch, remove, take := Start(0), W.Touch(W.Atc, cs), W.Remove(W.Atc, cs), MonitorTake(false, []);
    var online, s := Forgotten(cs, 52500), s0;
    acts, s := TimedOutBetween(cs);
    var gone := online.(monitor := R.INITIAL, toAnalyzer := [touch, remove], toMonitor := [Logon(cs)]);
    acts, s := Go(s0, acts, s, take, gone);
    acts, s := Go(s0, acts, s, take, online.(toAnalyzer := [touch, remove]));
    acts := TouchThenRemove(cs, 52500, 52500, acts, online);
  }

  /** While the monitor is idle a log-off packet and a report of the station come in. */
  lemma LogsOffAndOn(cs: Callsign, sender: Callsign) returns (acts: seq<Action>, s: System)
    ensures var off := DeleteAtc(sender, cs.text);
            && s == Silent(cs, 0).(toMonitor := [FromNetwork(off), Logon(cs)], toAnalyzer := [W.Touch(W.Atc, cs)])
            && Path(Start(0), acts, s) && Sends(acts, {Logon(cs).signal, off})
  {
    var s0, on, off, touch := Start(0), Logon(cs).signal, DeleteAtc(sender, cs.text), W.Touch(W.Atc, cs);
    acts := StationLogsOn(cs);
    var online := Silent(cs, 0);
    s := online;
    acts, s := Go(s0, acts, s, FsdEmit(off), online.(posting := Some(off)));
    acts, s := Go(s0, acts, s, FsdDeliver, online.(toMonitor := [FromNetwork(off)]));
    var back := online.(toMonitor := [FromNetwork(off)], posting := Some(on), toAnalyzer := [touch]);
    acts, s := Go(s0, acts, s, FsdEmit(on), back);
    acts, s := Go(s0, acts, s, FsdDeliver, back.(posting := None, toMonitor := [FromNetwork(off), Logon(cs)]));
  }

  /** A server that puts the callsign into the CID field of the log-off packet has the same effect:
      the station logs off and on while the monitor is busy. With any other CID the log-off does
      nothing, and the station is watched. */
  lemma AtcStationIsOrphaned(cs: Callsign, sender: Callsign) returns (acts: seq<Action>)
    ensures Path(Start(0), acts, Forgotten(cs, 0)) && Orphaned(Forgotten(cs, 0), cs)
    ensures Sends(acts, {Logon(cs).signal, DeleteAtc(sender, cs.text)})
  {
    var touch, remove, take := W.Touch(W.Atc, cs), W.Remove(W.Atc, cs), MonitorTake(false, []);
    var online := Silent(cs, 0);
    var s: System;
    acts, s := LogsOffAndOn(cs, sender);
    var gone := online.(monitor := R.INITIAL, toAnalyzer := [touch, remove], toMonitor := [Logon(cs)]);
    acts, s := Go(Start(0), acts, s, take, gone);
    acts, s := Go(Start(0), acts, s, take, online.(toAnalyzer := [touch, remove]));
    acts := TouchThenRemove(cs, 2, 0, acts, online);
  }
}
