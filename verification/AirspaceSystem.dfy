/** Monitor and analyzer as two threads that talk through FIFO event queues, fed by the FSD
    thread, whose signals reach the analyzer before the monitor. */
module AirspaceSystem {
  import opened Basics
  import W = Watchdog
  import R = AirspaceRange

  /** A signal of the FSD thread. The log-off packets name their sender, but the signals pass on
      the packet's second field, the CID, where the slots expect a callsign. */
  datatype Signal =
    | Data(ev: R.Event)
    | DeleteAtc(sender: Callsign, cid: string)
    | DeletePilot(sender: Callsign, cid: string)

  predicate IsData(ev: R.Event) {
    !ev.AtcGone? && !ev.PilotGone?
  }

  const SESSION_END := Data(R.Disconnected)

  /** A message waiting for the monitor thread: a network signal or a timeout of the analyzer. */
  datatype Message = FromNetwork(signal: Signal) | TimeoutAircraft(cs: Callsign) | TimeoutAtc(cs: Callsign)

  /** `posting` is a signal the FSD thread has posted to the analyzer but not yet to the monitor.
      `readding` are callsigns that `reInitializeAllAircraft` will add again by timer. `connected`
      is the connection status of the FSD client, which all threads read; `ending` says that it
      has been reset and the signal of the disconnection is still to come. */
  datatype System = System(
    analyzer: W.State, toAnalyzer: seq<W.Event>,
    monitor: R.State, toMonitor: seq<Message>,
    posting: Option<Signal>, readding: set<Callsign>, connected: bool, ending: bool)

  function Start(now: int): System {
    System(W.State(map[], map[], now, -1), [], R.INITIAL, [], None, {}, false, false)
  }

  /** The part of a network signal that the analyzer is connected to. */
  function AnalyzerPart(signal: Signal): seq<W.Event> {
    match signal
    case Data(Position(sit)) => [W.Touch(W.Aircraft, sit.cs)]
    case Data(AtcPosition(cs)) => [W.Touch(W.Atc, cs)]
    case Data(Disconnected) => [W.Disconnect]
    case _ => []
  }

  datatype Action =
    | FsdConnect                  // login done
    | FsdEnd                      // disconnecting, or disconnected without notice
    | FsdEmit(signal: Signal)
    | FsdDeliver
    | AnalyzerTake(now: int)
    | AnalyzerCheck(now: int, enabled: bool, lateAircraft: seq<Callsign>, lateAtc: seq<Callsign>)
    | MonitorTake(copilot: bool, order: seq<Callsign>)
    | ReInitialize(order: seq<Callsign>)
    | ReAdd(cs: Callsign)

  ghost predicate Enabled(s: System, a: Action) {
    match a
    case FsdConnect => s.posting == None && !s.connected && !s.ending
    case FsdEnd => s.posting == None && s.connected
    case FsdEmit(signal) =>
      && s.posting == None && (signal.Data? ==> IsData(signal.ev))
      && (signal == SESSION_END ==> !s.connected) && (s.ending ==> signal == SESSION_END)
    case FsdDeliver => s.posting.Some?
    case AnalyzerTake(_) => s.toAnalyzer != []
    case AnalyzerCheck(now, enabled, lateAircraft, lateAtc) =>
      var out := W.CheckTimeouts(s.analyzer, now, enabled);
      Lists(lateAircraft, out.lateAircraft) && Lists(lateAtc, out.lateAtc)
    case MonitorTake(_, order) => s.toMonitor != [] && Lists(order, s.monitor.inRange)
    case ReInitialize(order) => Lists(order, s.monitor.inRange)
    case ReAdd(cs) => cs in s.readding
  }

  function Timeouts(lateAircraft: seq<Callsign>, lateAtc: seq<Callsign>): seq<Message> {
    seq(|lateAircraft|, i requires 0 <= i < |lateAircraft| => TimeoutAircraft(lateAircraft[i]))
    + seq(|lateAtc|, i requires 0 <= i < |lateAtc| => TimeoutAtc(lateAtc[i]))
  }

  /** The slot a message is connected to. */
  function Slot(m: Message): R.Event {
    match m
    case FromNetwork(Data(ev)) => ev
    case FromNetwork(DeleteAtc(_, cid)) => R.AtcGone(Callsign(cid))
    case FromNetwork(DeletePilot(_, cid)) => R.PilotGone(Callsign(cid))
    case TimeoutAircraft(cs) => R.PilotGone(cs)
    case TimeoutAtc(cs) => R.AtcGone(cs)
  }

  function Apply(s: System, a: Action): System {
    match a
    case FsdConnect => s.(connected := true)
    case FsdEnd => s.(connected := false, ending := true)
    case FsdEmit(signal) =>
      s.(posting := Some(signal), toAnalyzer := s.toAnalyzer + AnalyzerPart(signal),
         ending := s.ending && signal != SESSION_END)
    case FsdDeliver =>
      if s.posting.None? then s else s.(posting := None, toMonitor := s.toMonitor + [FromNetwork(s.posting.value)])
    case AnalyzerTake(now) =>
      if s.toAnalyzer == [] then s
      else s.(analyzer := W.Step(s.analyzer, W.At(now, s.toAnalyzer[0])).next, toAnalyzer := s.toAnalyzer[1..])
    case AnalyzerCheck(now, enabled, lateAircraft, lateAtc) =>
      s.(analyzer := W.CheckTimeouts(s.analyzer, now, enabled).next,
         toMonitor := s.toMonitor + Timeouts(lateAircraft, lateAtc))
    case MonitorTake(copilot, order) =>
      if s.toMonitor == [] then s
      else
        var (m, posts) := R.Handle(s.monitor, R.Call(Slot(s.toMonitor[0]), s.connected, copilot, order));
        s.(monitor := m, toMonitor := s.toMonitor[1..], toAnalyzer := s.toAnalyzer + posts)
    case ReInitialize(order) =>
      s.(monitor := s.monitor.(inRange := {}, situations := {}),
         readding := s.readding + s.monitor.inRange,
         toAnalyzer := s.toAnalyzer + R.Removals(order))
    case ReAdd(cs) =>
      s.(monitor := s.monitor.(inRange := s.monitor.inRange + {cs}), readding := s.readding - {cs})
  }

  /** The actions lead from `s` to `s'`. */
  ghost predicate Path(s: System, acts: seq<Action>, s': System)
    decreases |acts|
  {
    if acts == [] then s == s'
    else Enabled(s, acts[0]) && Path(Apply(s, acts[0]), acts[1..], s')
  }

  function Mark(kind: W.Kind, keys: set<Callsign>, e: W.Event): set<Callsign> {
    match e
    case Touch(touched, cs) => if touched == kind then keys + {cs} else keys
    case Remove(removed, cs) => if removed == kind then keys - {cs} else keys
    case Disconnect => {}
    case Check(_) => keys
  }

  /** Callsigns with a stamp of a kind once the analyzer has worked through queue `q`. */
  function Stamped(kind: W.Kind, keys: set<Callsign>, q: seq<W.Event>): set<Callsign>
    decreases |q|
  {
    if q == [] then keys else Stamped(kind, Mark(kind, keys, q[0]), q[1..])
  }

  /** The aircraft will have a stamp, or its timeout or the end of the session is on the way to
      the monitor. */
  ghost predicate Watched(s: System, cs: Callsign) {
    || cs in Stamped(W.Aircraft, s.analyzer.aircraft.Keys, s.toAnalyzer)
    || TimeoutAircraft(cs) in s.toMonitor
    || FromNetwork(SESSION_END) in s.toMonitor
    || s.posting == Some(SESSION_END)
  }

  ghost predicate NoOrphan(s: System) {
    forall cs | cs in s.monitor.inRange :: Watched(s, cs)
  }

  lemma {:induction false} StampedAppend(kind: W.Kind, keys: set<Callsign>, q: seq<W.Event>, r: seq<W.Event>)
    ensures Stamped(kind, keys, q + r) == Stamped(kind, Stamped(kind, keys, q), r)
    decreases |q|
  {
    if q == [] {
      assert q + r == r;
    } else {
      assert (q + r)[0] == q[0] && (q + r)[1..] == q[1..] + r;
      StampedAppend(kind, Mark(kind, keys, q[0]), q[1..], r);
    }
  }

  lemma StampedOne(kind: W.Kind, keys: set<Callsign>, e: W.Event)
    ensures Stamped(kind, keys, [e]) == Mark(kind, keys, e)
  {
    assert [e][1..] == [];
  }

  /** The monitor keeps situations only for aircraft in range, so the first situation of a
      joining aircraft is never dropped; no slot of the analyzer is a queued check. */
  ghost predicate Consistent(s: System) {
    && s.monitor.situations <= s.monitor.inRange
    && (forall e | e in s.toAnalyzer :: !e.Check?)
  }

  /** A handler touches every aircraft it adds and removes no stamp of an aircraft it keeps. */
  lemma HandleKeepsWatch(m: R.State, c: R.Call, keys: set<Callsign>)
    requires m.situations <= m.inRange
    ensures var (m', posts) := R.Handle(m, c);
            && m'.situations <= m'.inRange
            && (forall e | e in posts :: !e.Check?)
            && (forall cs | cs in m'.inRange && (cs in keys || cs !in m.inRange) ::
                  cs in Stamped(W.Aircraft, keys, posts))
            && (c.ev.PilotGone? ==> c.ev.cs !in m'.inRange)
            && (c.ev.Disconnected? ==> m'.inRange == {})
  {
    var (m', posts) := R.Handle(m, c);
    assert Stamped(W.Aircraft, keys, []) == keys;
    if !c.ev.Disconnected? && posts != [] {
      assert posts == [posts[0]];
      StampedOne(W.Aircraft, keys, posts[0]);
    }
  }

  lemma StepKeepsNoOrphan(s: System, a: Action)
    requires Consistent(s) && NoOrphan(s) && Enabled(s, a) && !a.ReAdd?
    ensures Consistent(Apply(s, a)) && NoOrphan(Apply(s, a))
  {
    var s', keys := Apply(s, a), s.analyzer.aircraft.Keys;
    match a
    case FsdConnect =>
    case FsdEnd =>
    case FsdEmit(signal) =>
      StampedAppend(W.Aircraft, keys, s.toAnalyzer, AnalyzerPart(signal));
      if AnalyzerPart(signal) != [] {
        StampedOne(W.Aircraft, Stamped(W.Aircraft, keys, s.toAnalyzer), AnalyzerPart(signal)[0]);
      }
    case FsdDeliver =>
      assert s'.toMonitor[|s.toMonitor|] == FromNetwork(s.posting.value);
      assert forall m | m in s.toMonitor :: m in s'.toMonitor;
    case AnalyzerTake(now) =>
      assert s.toAnalyzer[0] in s.toAnalyzer;
      assert s'.analyzer.aircraft.Keys == Mark(W.Aircraft, keys, s.toAnalyzer[0]);
    case AnalyzerCheck(now, enabled, lateAircraft, lateAtc) =>
      CheckKeepsNoOrphan(s, now, enabled, lateAircraft, lateAtc);
    case MonitorTake(_, _) =>
      TakeKeepsNoOrphan(s, a);
    case ReInitialize(order) =>
  }

  lemma TakeKeepsNoOrphan(s: System, a: Action)
    requires Consistent(s) && NoOrphan(s) && Enabled(s, a) && a.MonitorTake?
    ensures Consistent(Apply(s, a)) && NoOrphan(Apply(s, a))
  {
    var s', keys := Apply(s, a), s.analyzer.aircraft.Keys;
    var c := R.Call(Slot(s.toMonitor[0]), s.connected, a.copilot, a.order);
    HandleKeepsWatch(s.monitor, c, Stamped(W.Aircraft, keys, s.toAnalyzer));
    StampedAppend(W.Aircraft, keys, s.toAnalyzer, R.Handle(s.monitor, c).1);
    assert forall m | m in s.toMonitor :: m == s.toMonitor[0] || m in s'.toMonitor;
  }

  lemma CheckKeepsNoOrphan(s: System, now: int, enabled: bool, lateAircraft: seq<Callsign>, lateAtc: seq<Callsign>)
    requires NoOrphan(s) && Enabled(s, AnalyzerCheck(now, enabled, lateAircraft, lateAtc))
    ensures NoOrphan(Apply(s, AnalyzerCheck(now, enabled, lateAircraft, lateAtc)))
  {
    var s', keys := Apply(s, AnalyzerCheck(now, enabled, lateAircraft, lateAtc)), s.analyzer.aircraft.Keys;
    var late := W.CheckTimeouts(s.analyzer, now, enabled).lateAircraft;
    assert keys - late <= s'.analyzer.aircraft.Keys;
    assert forall m | m in s.toMonitor :: m in s'.toMonitor;
    forall cs | cs in s.monitor.inRange && cs in Stamped(W.Aircraft, keys, s.toAnalyzer)
      ensures cs in Stamped(W.Aircraft, s'.analyzer.aircraft.Keys, s.toAnalyzer) || TimeoutAircraft(cs) in s'.toMonitor
    {
      if cs in late {
        var i :| 0 <= i < |lateAircraft| && lateAircraft[i] == cs;
        assert s'.toMonitor[|s.toMonitor| + i] == TimeoutAircraft(cs);
      } else {
        StampedDependsOnOwnKey(W.Aircraft, keys, s'.analyzer.aircraft.Keys, s.toAnalyzer, cs);
      }
    }
  }

  /** Whether a callsign will be stamped depends on the other callsigns in no way. */
  lemma {:induction false} StampedDependsOnOwnKey(kind: W.Kind, keys: set<Callsign>, keys': set<Callsign>,
                                                        q: seq<W.Event>, cs: Callsign)
    requires cs in keys ==> cs in keys'
    ensures cs in Stamped(kind, keys, q) ==> cs in Stamped(kind, keys', q)
    decreases |q|
  {
    if q != [] {
      StampedDependsOnOwnKey(kind, Mark(kind, keys, q[0]), Mark(kind, keys', q[0]), q[1..], cs);
    }
  }

  /** Adding an aircraft again, with no situation and so no touch, orphans one exactly when that
      aircraft is not watched already. */
  lemma ReAddOrphansIff(s: System, cs: Callsign)
    requires Consistent(s) && NoOrphan(s) && cs in s.readding
    ensures Consistent(Apply(s, ReAdd(cs)))
    ensures NoOrphan(Apply(s, ReAdd(cs))) <==> Watched(s, cs)
  {
    var s' := Apply(s, ReAdd(cs));
    forall other ensures Watched(s', other) <==> Watched(s, other) {}
    assert cs in s'.monitor.inRange;
  }

  /** No aircraft of the run is added again that is not watched. */
  ghost predicate WatchedReAdds(s: System, acts: seq<Action>)
    decreases |acts|
  {
    acts != [] ==> (acts[0].ReAdd? ==> Watched(s, acts[0].cs)) && WatchedReAdds(Apply(s, acts[0]), acts[1..])
  }

  /** In every state the two threads can reach, over any number of sessions, no aircraft is
      orphaned, as long as `reInitializeAllAircraft` adds none again that is not watched. */
  lemma {:induction false} NoOrphanReachable(s: System, acts: seq<Action>, s': System)
    requires Consistent(s) && NoOrphan(s) && Path(s, acts, s') && WatchedReAdds(s, acts)
    ensures Consistent(s') && NoOrphan(s')
    decreases |acts|
  {
    if acts != [] {
      if acts[0].ReAdd? {
        ReAddOrphansIff(s, acts[0].cs);
      } else {
        StepKeepsNoOrphan(s, acts[0]);
      }
      NoOrphanReachable(Apply(s, acts[0]), acts[1..], s');
    }
  }

  /** Whenever nothing is on the way to either thread, every aircraft in range has a timestamp. */
  lemma QuietSystemWatchesAll(now: int, acts: seq<Action>, s: System)
    requires Path(Start(now), acts, s) && WatchedReAdds(Start(now), acts)
    requires s.toAnalyzer == [] && s.toMonitor == [] && s.posting == None
    ensures s.monitor.inRange <= s.analyzer.aircraft.Keys
  {
    NoOrphanReachable(Start(now), acts, s);
  }

  function AnalyzerEvent(s: System, a: Action): seq<W.Timed> {
    match a
    case AnalyzerTake(now) => if s.toAnalyzer == [] then [] else [W.At(now, s.toAnalyzer[0])]
    case AnalyzerCheck(now, enabled, _, _) => [W.At(now, W.Check(enabled))]
    case _ => []
  }

  /** What the analyzer thread does in a run: the slots it takes from its queue, and its checks. */
  function AnalyzerEvents(s: System, acts: seq<Action>): seq<W.Timed>
    decreases |acts|
  {
    if acts == [] then [] else AnalyzerEvent(s, acts[0]) + AnalyzerEvents(Apply(s, acts[0]), acts[1..])
  }

  lemma {:induction false} AfterFirst(s0: W.State, e: W.Timed, es: seq<W.Timed>, n: nat)
    requires n <= |es|
    ensures W.After(s0, [e] + es, n + 1) == W.After(W.Step(s0, e).next, es, n)
  {
    if n == 0 {
      assert W.After(s0, [e] + es, 0) == s0;
    } else {
      AfterFirst(s0, e, es, n - 1);
      assert ([e] + es)[n] == es[n - 1];
    }
  }

  lemma {:induction false} AnalyzerFollows(s: System, acts: seq<Action>, s': System)
    requires Path(s, acts, s')
    ensures var es := AnalyzerEvents(s, acts); s'.analyzer == W.After(s.analyzer, es, |es|)
    decreases |acts|
  {
    if acts != [] {
      var now, rest := AnalyzerEvent(s, acts[0]), AnalyzerEvents(Apply(s, acts[0]), acts[1..]);
      AnalyzerFollows(Apply(s, acts[0]), acts[1..], s');
      AnalyzerSteps(s, acts[0]);
      if now == [] {
        assert now + rest == rest;
      } else {
        AfterFirst(s.analyzer, now[0], rest, |rest|);
      }
    }
  }

  lemma AnalyzerSteps(s: System, a: Action)
    ensures var now := AnalyzerEvent(s, a);
            if now == [] then Apply(s, a).analyzer == s.analyzer
            else now == [now[0]] && Apply(s, a).analyzer == W.Step(s.analyzer, now[0]).next
  {
  }

  /** Both threads together: an aircraft whose last touch the analyzer saw at `u` or before has left
      the monitor's range once a check has run at least 15 s later and after all grace periods, and
      the queues are empty again. */
  lemma SilentAircraftLeaves(now: nat, acts: seq<Action>, s: System, cs: Callsign, u: int, graceEnd: int, c: nat)
    requires Path(Start(now), acts, s) && WatchedReAdds(Start(now), acts)
    requires s.toAnalyzer == [] && s.toMonitor == [] && s.posting == None
    requires var s0, es := Start(now).analyzer, AnalyzerEvents(Start(now), acts);
             && W.Timely(s0, es) && W.WatchdogOn(es)
             && (forall k | 0 <= k < |es| && es[k].ev == W.Touch(W.Aircraft, cs) :: es[k].time <= u)
             && (forall k | 0 <= k < |es| && W.OverlongGap(s0, es, k) :: es[k].time + 22500 <= graceEnd)
             && c < |es| && es[c].ev.Check? && es[c].time >= u + 15000 && es[c].time >= graceEnd
    ensures cs !in s.monitor.inRange
  {
    var s0, es := Start(now).analyzer, AnalyzerEvents(Start(now), acts);
    QuietSystemWatchesAll(now, acts, s);
    AnalyzerFollows(Start(now), acts, s);
    if cs in s.analyzer.aircraft {
      W.StampIsLastTouch(s0, es, W.Aircraft, cs, |es|);
      var j :| W.LastTouch(s0, es, W.Aircraft, cs, j, |es|);
      assert es[j].time < es[c].time;
      assert j < c;
      var _ := W.SilentIsDetected(s0, es, j, c, W.Aircraft, cs, graceEnd);
    }
  }

  /** Prolongs a path by one action. */
  lemma {:induction false} Extend(s0: System, acts: seq<Action>, s: System, a: Action)
    requires Path(s0, acts, s) && Enabled(s, a)
    ensures Path(s0, acts + [a], Apply(s, a))
    decreases |acts|
  {
    if acts == [] {
      assert [a][1..] == [];
    } else {
      assert (acts + [a])[0] == acts[0] && (acts + [a])[1..] == acts[1..] + [a];
      Extend(Apply(s0, acts[0]), acts[1..], s, a);
    }
  }

  lemma Go(s0: System, acts: seq<Action>, s: System, a: Action, next: System)
    returns (acts': seq<Action>, s': System)
    requires Path(s0, acts, s) && Enabled(s, a) && Apply(s, a) == next
    ensures acts' == acts + [a] && s' == next && Path(s0, acts', s')
  {
    Extend(s0, acts, s, a);
    acts', s' := acts + [a], next;
  }

  /** Logged in at 0, with nothing known yet. */
  const LOGGED_IN := Start(0).(connected := true)

  lemma LoggedIn() returns (acts: seq<Action>, s: System)
    ensures s == LOGGED_IN && acts == [FsdConnect] && Path(Start(0), acts, s)
  {
    assert Path(Start(0), [], Start(0));
    acts, s := Go(Start(0), [], Start(0), FsdConnect, LOGGED_IN);
  }

  /** Only `cs` is in range, and stamped. */
  function AircraftJoined(cs: Callsign): System {
    LOGGED_IN.(monitor := R.INITIAL.(inRange := {cs}, situations := {cs}),
               analyzer := LOGGED_IN.analyzer.(aircraft := map[cs := 1]))
  }

  lemma FirstUpdateAdmits(cs: Callsign)
    ensures var ev := R.Position(R.Situation(cs, Some(10), false));
            var (m, posts) := R.Handle(R.INITIAL, R.Call(ev, true, false, []));
            m == R.INITIAL.(inRange := {cs}, situations := {cs}) && posts == [W.Touch(W.Aircraft, cs)]
  {
  }

  lemma AircraftJoins(cs: Callsign) returns (acts: seq<Action>, s: System)
    ensures s == AircraftJoined(cs) && Path(Start(0), acts, s)
  {
    var ev, touch := Data(R.Position(R.Situation(cs, Some(10), false))), W.Touch(W.Aircraft, cs);
    var s0, s1 := Start(0), LOGGED_IN;
    acts, s := LoggedIn();
    acts, s := Go(s0, acts, s, FsdEmit(ev), s1.(posting := Some(ev), toAnalyzer := [touch]));
    acts, s := Go(s0, acts, s, FsdDeliver, s1.(toMonitor := [FromNetwork(ev)], toAnalyzer := [touch]));
    FirstUpdateAdmits(cs);
    var joined := s1.(monitor := AircraftJoined(cs).monitor, toAnalyzer := [touch, touch]);
    assert s.toMonitor[1..] == [] && [touch] + [touch] == [touch, touch];
    acts, s := Go(s0, acts, s, MonitorTake(false, []), joined);
    acts, s := TouchesTaken(cs, acts);
  }

  lemma TouchesTaken(cs: Callsign, joining: seq<Action>) returns (acts: seq<Action>, s: System)
    requires var touch := W.Touch(W.Aircraft, cs);
             Path(Start(0), joining, LOGGED_IN.(monitor := AircraftJoined(cs).monitor, toAnalyzer := [touch, touch]))
    ensures s == AircraftJoined(cs) && Path(Start(0), acts, s)
  {
    var touch := W.Touch(W.Aircraft, cs);
    acts, s := joining, LOGGED_IN.(monitor := AircraftJoined(cs).monitor, toAnalyzer := [touch, touch]);
    assert [touch, touch][1..] == [touch] && [touch][1..] == [];
    acts, s := Go(Start(0), acts, s, AnalyzerTake(1), AircraftJoined(cs).(toAnalyzer := [touch]));
    acts, s := Go(Start(0), acts, s, AnalyzerTake(1), AircraftJoined(cs));
  }

  /** The path that shows why re-added aircraft are excluded: after `reInitializeAllAircraft`
      the aircraft is in range, both queues are empty, and no stamp watches it. */
  lemma ReInitializedAircraftIsOrphaned(cs: Callsign) returns (acts: seq<Action>, s: System)
    ensures Path(Start(0), acts, s)
    ensures s.toAnalyzer == [] && s.toMonitor == [] && s.posting == None
    ensures cs in s.monitor.inRange && !NoOrphan(s)
  {
    var s0, s1, stamped := Start(0), LOGGED_IN, AircraftJoined(cs).analyzer;
    acts, s := AircraftJoins(cs);
    var removed := s1.(analyzer := stamped, readding := {cs}, toAnalyzer := [W.Remove(W.Aircraft, cs)]);
    assert R.Removals([cs]) == [W.Remove(W.Aircraft, cs)];
    acts, s := Go(s0, acts, s, ReInitialize([cs]), removed);
    acts, s := Go(s0, acts, s, AnalyzerTake(2), s1.(readding := {cs}));
    acts, s := Go(s0, acts, s, ReAdd(cs), s1.(monitor := R.INITIAL.(inRange := {cs})));
    assert Stamped(W.Aircraft, {}, []) == {};
    assert !Watched(s, cs);
  }
}
