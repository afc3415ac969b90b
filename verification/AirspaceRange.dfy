/** Which aircraft and stations `CAirspaceMonitor` keeps: the range test with hysteresis,
    joining, leaving, and what each handler posts to the analyzer. */
module AirspaceRange {
  import opened Basics
  import W = Watchdog

  /** A full position update. `distanceNM` is the rounded distance to the own aircraft, `None`
      for a null position; `velocityLost` says that this update has no velocity although the
      newest stored situation has one, so that the provider drops it without a signal. */
  datatype Situation = Situation(cs: Callsign, distanceNM: Option<int>, velocityLost: bool)

  /** `situations` are the callsigns with a stored situation history. */
  datatype State = State(inRange: set<Callsign>, situations: set<Callsign>, online: set<Callsign>,
                         maxDistanceNM: int, hysteresisNM: int)

  /** `qRound` of a non-negative value. */
  function QRound(r: real): int {
    (r + 0.5).Floor
  }

  function Hysteresis(maxNM: int): int {
    QRound(1.1 * maxNM as real)
  }

  // 138 is the hysteresis of the default limit of 125 NM
  const INITIAL := State({}, {}, {}, 125, 138)

  /** `None` stands for a null range; null, zero and negative ranges switch the limit off. */
  function WithMaxRange(s: State, rangeNM: Option<real>): State {
    if rangeNM.None? || rangeNM.value <= 0.0 then s.(maxDistanceNM := -1, hysteresisNM := -1)
    else s.(maxDistanceNM := QRound(rangeNM.value), hysteresisNM := Hysteresis(QRound(rangeNM.value)))
  }

  /** The provider's `removeAircraft`, which emits nothing. */
  function Forget(s: State, cs: Callsign): State {
    s.(inRange := s.inRange - {cs}, situations := s.situations - {cs})
  }

  function RangeTest(s: State, sit: Situation): (State, bool) {
    if sit.distanceNM.None? then (s, false)
    else if s.maxDistanceNM < 0 then (s, true)
    else if sit.distanceNM.value > s.hysteresisNM then (Forget(s, sit.cs), false)
    else (s, sit.distanceNM.value <= s.maxDistanceNM)
  }

  /** Storing a situation posts a touch to the analyzer, unless the update is dropped. */
  function StoreSituation(s: State, cs: Callsign, velocityLost: bool): (State, seq<W.Event>) {
    (s.(situations := s.situations + {cs}),
     if velocityLost && cs in s.situations then [] else [W.Touch(W.Aircraft, cs)])
  }

  /** `SimData` is a full update of a Euroscope simulation session, which only the monitor hears. */
  datatype Event =
    | Position(sit: Situation)
    | SimData(sit: Situation)
    | Interim(cs: Callsign, velocityLost: bool)
    | Visual(cs: Callsign, velocityLost: bool)
    | PilotGone(cs: Callsign)
    | AtcPosition(cs: Callsign)
    | AtcGone(cs: Callsign)
    | Connecting(rangeNM: Option<real>)
    | Disconnected

  /** One handler call. `connected` is the connection flag as the handler reads it, `copilot`
      whether the callsign looks like the own co-pilot, `order` the order in which the provider
      signals the removal of all aircraft. */
  datatype Call = Call(ev: Event, connected: bool, copilot: bool, order: seq<Callsign>)

  predicate Effective(c: Call) {
    c.connected && !c.copilot
  }

  function Removals(order: seq<Callsign>): (r: seq<W.Event>)
    ensures |r| == |order| && forall i | 0 <= i < |r| :: r[i] == W.Remove(W.Aircraft, order[i])
  {
    seq(|order|, i requires 0 <= i < |order| => W.Remove(W.Aircraft, order[i]))
  }

  function OnAircraftUpdate(s: State, sit: Situation): (State, seq<W.Event>) {
    var (ranged, valid) := RangeTest(s, sit);
    var exists' := sit.cs in ranged.inRange;
    if !valid && !exists' then (ranged, [])
    else
      var (stored, posts) := StoreSituation(ranged, sit.cs, sit.velocityLost);
      (stored.(inRange := stored.inRange + {sit.cs}), posts)
  }

  /** An update without ground speed needs a full situation before it. */
  function OnPartialUpdate(s: State, cs: Callsign, velocityLost: bool): (State, seq<W.Event>) {
    if cs in s.inRange && cs in s.situations then StoreSituation(s, cs, velocityLost) else (s, [])
  }

  function Handle(s: State, c: Call): (State, seq<W.Event>) {
    match c.ev
    case Position(sit) => if Effective(c) then OnAircraftUpdate(s, sit) else (s, [])
    case SimData(sit) => if Effective(c) then OnAircraftUpdate(s, sit) else (s, [])
    case Interim(cs, velocityLost) => if Effective(c) then OnPartialUpdate(s, cs, velocityLost) else (s, [])
    case Visual(cs, velocityLost) => if Effective(c) then OnPartialUpdate(s, cs, velocityLost) else (s, [])
    case PilotGone(cs) =>
      (Forget(s, cs), if cs in s.inRange then [W.Remove(W.Aircraft, cs)] else [])
    case AtcPosition(cs) =>
      if c.connected then (s.(online := s.online + {cs}), []) else (s, [])
    case AtcGone(cs) =>
      if c.connected && cs in s.online then (s.(online := s.online - {cs}), [W.Remove(W.Atc, cs)]) else (s, [])
    case Connecting(range) => (WithMaxRange(s, range), [])
    case Disconnected => (s.(inRange := {}, situations := {}, online := {}), Removals(c.order))
  }

  // ---------------------------------------------------------------------------
  // The monitor object
  // ---------------------------------------------------------------------------

  class AirspaceMonitor {
    var aircraftInRange: set<Callsign>
    var situationsByCallsign: set<Callsign>
    var atcStationsOnline: set<Callsign>
    var maxDistanceNM: int
    var maxDistanceNMHysteresis: int

    constructor ()
      ensures View() == INITIAL
    {
      aircraftInRange, situationsByCallsign, atcStationsOnline := {}, {}, {};
      maxDistanceNM, maxDistanceNMHysteresis := 125, QRound(1.1 * 125.0);
    }

    ghost function View(): State
      reads this
    {
      State(aircraftInRange, situationsByCallsign, atcStationsOnline, maxDistanceNM, maxDistanceNMHysteresis)
    }

    method SetMaxRange(rangeNM: Option<real>)
      modifies this
      ensures View() == WithMaxRange(old(View()), rangeNM)
    {
      if rangeNM.None? || rangeNM.value <= 0.0 {
        maxDistanceNM, maxDistanceNMHysteresis := -1, -1;
        return;
      }
      var r := QRound(rangeNM.value);
      maxDistanceNM, maxDistanceNMHysteresis := r, QRound(r as real * 1.1);
    }

    method RemoveAircraft(cs: Callsign) returns (removed: bool)
      modifies this
      ensures View() == Forget(old(View()), cs) && removed == (cs in old(aircraftInRange))
    {
      situationsByCallsign := situationsByCallsign - {cs};
      removed := cs in aircraftInRange;
      aircraftInRange := aircraftInRange - {cs};
    }

    method HandleMaxRange(sit: Situation) returns (valid: bool)
      modifies this
      ensures (View(), valid) == RangeTest(old(View()), sit)
    {
      if sit.distanceNM.None? { return false; }
      if maxDistanceNM < 0 { return true; }
      if sit.distanceNM.value > maxDistanceNMHysteresis {
        var _ := RemoveAircraft(sit.cs);
        return false;
      }
      return sit.distanceNM.value <= maxDistanceNM;
    }

    method StoreAircraftSituation(cs: Callsign, velocityLost: bool) returns (posts: seq<W.Event>)
      modifies this`situationsByCallsign
      ensures (View(), posts) == StoreSituation(old(View()), cs, velocityLost)
    {
      if cs in situationsByCallsign && velocityLost {
        assert situationsByCallsign + {cs} == situationsByCallsign;
        return [];
      }
      situationsByCallsign := situationsByCallsign + {cs};
      posts := [W.Touch(W.Aircraft, cs)];
    }

    method OnAircraftUpdateReceived(sit: Situation, connected: bool, copilot: bool) returns (posts: seq<W.Event>)
      modifies this
      ensures (View(), posts) == Handle(old(View()), Call(Position(sit), connected, copilot, []))
    {
      if !connected { return []; }
      if copilot { return []; }
      var validMaxRange := HandleMaxRange(sit);
      var existsInRange := sit.cs in aircraftInRange;
      if !validMaxRange && !existsInRange { return []; }
      posts := StoreAircraftSituation(sit.cs, sit.velocityLost);
      if !existsInRange && validMaxRange {
        aircraftInRange := aircraftInRange + {sit.cs};
      } else {
        assert aircraftInRange + {sit.cs} == aircraftInRange;
      }
    }

    /** The membership part; the ICAO codes that may follow are a readiness matter. */
    method OnAircraftSimDataUpdateReceived(sit: Situation, connected: bool, copilot: bool) returns (posts: seq<W.Event>)
      modifies this
      ensures (View(), posts) == Handle(old(View()), Call(SimData(sit), connected, copilot, []))
    {
      posts := OnAircraftUpdateReceived(sit, connected, copilot);
    }

    method OnAircraftInterimUpdateReceived(cs: Callsign, velocityLost: bool, connected: bool, copilot: bool)
      returns (posts: seq<W.Event>)
      modifies this`situationsByCallsign
      ensures (View(), posts) == Handle(old(View()), Call(Interim(cs, velocityLost), connected, copilot, []))
    {
      if !connected { return []; }
      if copilot { return []; }
      if cs !in aircraftInRange { return []; }
      if cs !in situationsByCallsign { return []; }
      posts := StoreAircraftSituation(cs, velocityLost);
    }

    method OnAircraftVisualUpdateReceived(cs: Callsign, velocityLost: bool, connected: bool, copilot: bool)
      returns (posts: seq<W.Event>)
      modifies this`situationsByCallsign
      ensures (View(), posts) == Handle(old(View()), Call(Visual(cs, velocityLost), connected, copilot, []))
    {
      if !connected { return []; }
      if copilot { return []; }
      if cs !in aircraftInRange { return []; }
      if cs !in situationsByCallsign { return []; }
      posts := StoreAircraftSituation(cs, velocityLost);
    }

    method OnPilotDisconnected(cs: Callsign) returns (posts: seq<W.Event>)
      modifies this
      ensures forall connected, copilot ::
                (View(), posts) == Handle(old(View()), Call(PilotGone(cs), connected, copilot, []))
    {
      var removed := RemoveAircraft(cs);
      posts := if removed then [W.Remove(W.Aircraft, cs)] else [];
    }

    method OnAtcPositionUpdate(cs: Callsign, connected: bool)
      modifies this`atcStationsOnline
      ensures (View(), []) == Handle(old(View()), Call(AtcPosition(cs), connected, false, []))
    {
      if !connected { return; }
      if cs !in atcStationsOnline {
        atcStationsOnline := atcStationsOnline + {cs};
      } else {
        assert atcStationsOnline + {cs} == atcStationsOnline;
      }
    }

    method OnAtcControllerDisconnected(cs: Callsign, connected: bool) returns (posts: seq<W.Event>)
      modifies this`atcStationsOnline
      ensures (View(), posts) == Handle(old(View()), Call(AtcGone(cs), connected, false, []))
    {
      if !connected { return []; }
      if cs !in atcStationsOnline { return []; }
      atcStationsOnline := atcStationsOnline - {cs};
      posts := [W.Remove(W.Atc, cs)];
    }

    /** `clear` as it runs on disconnection: one removal signal for each aircraft in range. */
    method Clear() returns (posts: seq<W.Event>, ghost order: seq<Callsign>)
      modifies this
      ensures Lists(order, old(aircraftInRange))
      ensures (View(), posts) == Handle(old(View()), Call(Disconnected, false, false, order))
    {
      var callsigns := ListOf(aircraftInRange);
      atcStationsOnline, aircraftInRange, situationsByCallsign := {}, {}, {};
      order := callsigns;
      posts := [];
      for i := 0 to |callsigns|
        invariant posts == Removals(callsigns[..i])
      {
        posts := posts + [W.Remove(W.Aircraft, callsigns[i])];
      }
      assert callsigns[..|callsigns|] == callsigns;
    }
  }

  // ---------------------------------------------------------------------------
  // Range hysteresis over runs
  // ---------------------------------------------------------------------------

  function After(s0: State, cs: seq<Call>, n: nat): State
    requires n <= |cs|
  {
    if n == 0 then s0 else Handle(After(s0, cs, n - 1), cs[n - 1]).0
  }

  /** The range that the last `Connecting` of the first `n` calls has set, `None` without one. */
  function LastRange(run: seq<Call>, n: nat): Option<Option<real>>
    requires n <= |run|
  {
    if n == 0 then None
    else if run[n - 1].ev.Connecting? then Some(run[n - 1].ev.rangeNM)
    else LastRange(run, n - 1)
  }

  /** The call is a processed full update of `cs`. */
  predicate Updates(c: Call, cs: Callsign) {
    Effective(c) && (c.ev.Position? || c.ev.SimData?) && c.ev.sit.cs == cs
  }

  /** The call is a processed full update of `cs` at distance `d`. */
  predicate Reports(c: Call, cs: Callsign, d: int) {
    Updates(c, cs) && c.ev.sit.distanceNM == Some(d)
  }

  /** The call admits `cs` under the limits of a state. */
  predicate Admits(s: State, c: Call, cs: Callsign) {
    && Updates(c, cs) && c.ev.sit.distanceNM.Some?
    && (s.maxDistanceNM < 0 || c.ev.sit.distanceNM.value <= s.maxDistanceNM)
  }

  /** The call takes `cs` out of range: a range expulsion, a disconnect of the pilot or of us. */
  predicate Expels(s: State, c: Call, cs: Callsign) {
    || c.ev == PilotGone(cs)
    || c.ev == Disconnected
    || (&& Updates(c, cs) && c.ev.sit.distanceNM.Some?
        && 0 <= s.maxDistanceNM && s.hysteresisNM < c.ev.sit.distanceNM.value)
  }

  /** Call `j` admits `cs` and nothing between it and call `n` expels it, each under the limits of
      its time. */
  ghost predicate HeldSince(s0: State, run: seq<Call>, cs: Callsign, j: int, n: nat)
    requires n <= |run|
  {
    && 0 <= j < n
    && Admits(After(s0, run, j), run[j], cs)
    && forall k | j < k < n :: !Expels(After(s0, run, k), run[k], cs)
  }

  /** The rounded 110 % limit. */
  lemma HysteresisValue(m: int)
    requires 0 <= m
    ensures Hysteresis(m) == (11 * m + 5) / 10
  {
    var h := (11 * m + 5) / 10;
    assert 10 * h <= 11 * m + 5 < 10 * h + 10;
    assert h as real <= 1.1 * m as real + 0.5 < h as real + 1.0;
  }

  /** The band between joining and leaving is non-empty exactly from 5 NM on. */
  lemma BandIffFiveMiles(m: int)
    requires 0 <= m
    ensures m <= Hysteresis(m)
    ensures m + 1 <= Hysteresis(m) <==> 5 <= m
  {
    HysteresisValue(m);
  }

  /** Over every run the limits are those of the last range set: the rounded range and its rounded
      110 percent, both off exactly after a null or non-positive range, and 125 NM before any. */
  lemma {:induction false} LimitsFollowRange(run: seq<Call>, n: nat)
    requires n <= |run|
    ensures var s := After(INITIAL, run, n);
            match LastRange(run, n)
            case None => s.maxDistanceNM == 125 && s.hysteresisNM == 138
            case Some(range) =>
              if range.Some? && range.value > 0.0 then
                && 0 <= s.maxDistanceNM && s.hysteresisNM == (11 * s.maxDistanceNM + 5) / 10
                && range.value - 0.5 < s.maxDistanceNM as real <= range.value + 0.5
              else s.maxDistanceNM == -1 && s.hysteresisNM == -1
  {
    if n > 0 {
      LimitsFollowRange(run, n - 1);
      if run[n - 1].ev.Connecting? && run[n - 1].ev.rangeNM.Some? && run[n - 1].ev.rangeNM.value > 0.0 {
        HysteresisValue(QRound(run[n - 1].ev.rangeNM.value));
      }
    }
  }

  predicate Ordered(s: State) {
    0 <= s.maxDistanceNM ==> s.maxDistanceNM <= s.hysteresisNM
  }

  lemma MembershipStep(s: State, c: Call, cs: Callsign)
    requires Ordered(s)
    ensures Ordered(Handle(s, c).0)
    ensures cs in Handle(s, c).0.inRange <==> Admits(s, c, cs) || (cs in s.inRange && !Expels(s, c, cs))
  {
    if c.ev.Connecting? && c.ev.rangeNM.Some? && c.ev.rangeNM.value > 0.0 {
      BandIffFiveMiles(QRound(c.ev.rangeNM.value));
    }
  }

  /** The call is a processed full update that finds or brings `cs` in range. */
  predicate Keeps(s: State, c: Call, cs: Callsign) {
    Updates(c, cs) && (Admits(s, c, cs) || (cs in s.inRange && !Expels(s, c, cs)))
  }

  /** What a handler posts to the analyzer: a touch exactly for a full update of an aircraft then in range
      and for a partial update of one in range with a situation, unless the update is dropped for
      its lost velocity; a removal exactly for an aircraft in range whose pilot is gone, for all of
      them at the end of the session, and for an ATC station that goes. */
  lemma PostsIff(s: State, c: Call, cs: Callsign)
    requires Ordered(s)
    ensures var posts := Handle(s, c).1;
            && (W.Touch(W.Aircraft, cs) in posts <==>
                || (Keeps(s, c, cs) && !(c.ev.sit.velocityLost && cs in s.situations))
                || (c.connected && !c.copilot && cs in s.inRange && cs in s.situations
                    && (c.ev == Interim(cs, false) || c.ev == Visual(cs, false))))
            && (W.Remove(W.Aircraft, cs) in posts <==>
                (c.ev == PilotGone(cs) && cs in s.inRange) || (c.ev == Disconnected && cs in c.order))
            && (W.Remove(W.Atc, cs) in posts <==> c.ev == AtcGone(cs) && c.connected && cs in s.online)
            && W.Touch(W.Atc, cs) !in posts
  {
    if c.ev == Disconnected && cs in c.order {
      var i :| 0 <= i < |c.order| && c.order[i] == cs;
      assert Handle(s, c).1[i] == W.Remove(W.Aircraft, cs);
    }
  }

  /** An aircraft has a stored situation exactly since a full update that found or brought it in range,
      as long as nothing expels it. */
  lemma SituationStep(s: State, c: Call, cs: Callsign)
    requires Ordered(s)
    ensures cs in Handle(s, c).0.situations <==> Keeps(s, c, cs) || (cs in s.situations && !Expels(s, c, cs))
  {
  }

  /** One more call: it admits, or does not expel what was held. */
  lemma HeldStep(s0: State, run: seq<Call>, cs: Callsign, m: nat, n: nat)
    requires n == m + 1 <= |run|
    ensures var s := After(s0, run, m);
            (exists j :: HeldSince(s0, run, cs, j, n)) <==>
            Admits(s, run[m], cs) || (!Expels(s, run[m], cs) && exists j :: HeldSince(s0, run, cs, j, m))
  {
    if Admits(After(s0, run, m), run[m], cs) {
      assert HeldSince(s0, run, cs, m, n);
    } else if !Expels(After(s0, run, m), run[m], cs) {
      if j :| HeldSince(s0, run, cs, j, m) {
        assert HeldSince(s0, run, cs, j, n);
      }
      if j :| HeldSince(s0, run, cs, j, n) {
        assert HeldSince(s0, run, cs, j, m);
      }
    }
  }

  lemma {:induction false} InRangeFrom(s0: State, run: seq<Call>, cs: Callsign, n: nat)
    requires s0.inRange == {} && Ordered(s0) && n <= |run|
    ensures Ordered(After(s0, run, n))
    ensures cs in After(s0, run, n).inRange <==> exists j :: HeldSince(s0, run, cs, j, n)
  {
    if n > 0 {
      InRangeFrom(s0, run, cs, n - 1);
      MembershipStep(After(s0, run, n - 1), run[n - 1], cs);
      HeldStep(s0, run, cs, n - 1, n);
    }
  }

  /** Over every run, with whatever ranges are set meanwhile: an aircraft is in range exactly when
      some processed update admitted it (at most the limit of that time away) and none since was
      beyond the hysteresis limit of its time, with no disconnect in between. */
  lemma InRangeIffHeld(run: seq<Call>, cs: Callsign, n: nat)
    requires n <= |run|
    ensures cs in After(INITIAL, run, n).inRange <==> exists j :: HeldSince(INITIAL, run, cs, j, n)
  {
    InRangeFrom(INITIAL, run, cs, n);
  }

  lemma {:induction false} LimitsStay(s0: State, run: seq<Call>, i: nat, n: nat)
    requires i <= n <= |run| && forall k | i <= k < n :: !run[k].ev.Connecting?
    ensures After(s0, run, n).maxDistanceNM == After(s0, run, i).maxDistanceNM
    ensures After(s0, run, n).hysteresisNM == After(s0, run, i).hysteresisNM
  {
    if i < n {
      LimitsStay(s0, run, i, n - 1);
    }
  }

  lemma BandOf(run: seq<Call>, i: nat)
    requires i <= |run| && 0 <= After(INITIAL, run, i).maxDistanceNM
    ensures var s := After(INITIAL, run, i);
            && s.hysteresisNM == (11 * s.maxDistanceNM + 5) / 10
            && s.maxDistanceNM <= s.hysteresisNM && (5 <= s.maxDistanceNM ==> s.maxDistanceNM + 1 <= s.hysteresisNM)
  {
    LimitsFollowRange(run, i);
  }

  lemma ReadmittedSince(s0: State, run: seq<Call>, cs: Callsign, i: nat, n: nat) returns (j: nat)
    requires s0.inRange == {} && Ordered(s0) && i < n <= |run|
    requires Expels(After(s0, run, i), run[i], cs) && cs in After(s0, run, n).inRange
    ensures i < j < n && Admits(After(s0, run, j), run[j], cs)
  {
    InRangeFrom(s0, run, cs, n);
    InRangeFrom(s0, run, cs, i);
    NotBoth(After(s0, run, i), run[i], cs);
    j :| HeldSince(s0, run, cs, j, n);
    assert j != i;
  }

  lemma NotBoth(s: State, c: Call, cs: Callsign)
    requires Ordered(s) && Expels(s, c, cs)
    ensures !Admits(s, c, cs)
  {
  }

  /** An aircraft that is in range after it was expelled at distance `d` has since reported a position
      within the limit of its time; without another range set in between, that is nearer by the
      whole band, a tenth of the limit, and by at least 2 NM from 5 NM on. */
  lemma ReentryCrossesBand(run: seq<Call>, cs: Callsign, i: nat, d: int, n: nat) returns (j: nat, d': int)
    requires i < n <= |run| && 0 <= After(INITIAL, run, i).maxDistanceNM
    requires Reports(run[i], cs, d) && After(INITIAL, run, i).hysteresisNM < d
    requires cs in After(INITIAL, run, n).inRange
    ensures i < j < n && Reports(run[j], cs, d')
    ensures var s := After(INITIAL, run, j); s.maxDistanceNM < 0 || d' <= s.maxDistanceNM
    ensures (forall k | i < k < j :: !run[k].ev.Connecting?) ==>
              var max := After(INITIAL, run, i).maxDistanceNM;
              d' <= max && d > (11 * max + 5) / 10 && (5 <= max ==> d - d' >= 2)
  {
    BandOf(run, i);
    j := ReadmittedSince(INITIAL, run, cs, i, n);
    d' := run[j].ev.sit.distanceNM.value;
    if forall k | i < k < j :: !run[k].ev.Connecting? {
      LimitsStay(INITIAL, run, i, j);
    }
  }
}
