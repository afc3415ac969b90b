/** The watchdog of `CAirspaceAnalyzer`: a timestamp per callsign, checked every 7.5 s. */
module Watchdog {
  import opened Basics

  // 1.5 times the update interval of 7.5 s
  const CALL_THRESHOLD_MS := 11250
  const GRACE_MS := 2 * CALL_THRESHOLD_MS
  const AIRCRAFT_TIMEOUT_MS := 15000
  const ATC_TIMEOUT_MS := 50000

  datatype Kind = Aircraft | Atc

  type Stamps = map<Callsign, int>

  datatype State = State(aircraft: Stamps, atc: Stamps, lastCheck: int, doNotRunBefore: int) {
    function Of(kind: Kind): Stamps {
      if kind == Aircraft then aircraft else atc
    }

    function With(kind: Kind, stamps: Stamps): State {
      if kind == Aircraft then this.(aircraft := stamps) else this.(atc := stamps)
    }
  }

  function TimeoutMs(kind: Kind): int {
    if kind == Aircraft then AIRCRAFT_TIMEOUT_MS else ATC_TIMEOUT_MS
  }

  /** What one event does: the next state and the callsigns whose timeout signals it emits. */
  datatype Outcome = Outcome(next: State, lateAircraft: set<Callsign>, lateAtc: set<Callsign>) {
    function Late(kind: Kind): set<Callsign> {
      if kind == Aircraft then lateAircraft else lateAtc
    }
  }

  function LateIn(stamps: Stamps, limit: int): set<Callsign> {
    set cs | cs in stamps && stamps[cs] <= limit
  }

  /** The clock tests at the head of a check: may this check look at the timestamps? */
  predicate Armed(s: State, now: int) {
    now - s.lastCheck <= CALL_THRESHOLD_MS && s.doNotRunBefore <= now
  }

  /** Stamps as the switched-off watchdog leaves them in the aircraft map: line 195 for
      every aircraft, then line 212 for every ATC callsign (also in the aircraft map). */
  function FakedAircraft(s: State, now: int): Stamps {
    map cs | cs in s.aircraft.Keys + s.atc.Keys ::
      if cs in s.atc then now - ATC_TIMEOUT_MS + 1000 else now - AIRCRAFT_TIMEOUT_MS + 1000
  }

  function CheckTimeouts(s: State, now: int, enabled: bool): Outcome {
    var checked := s.(lastCheck := now);
    if now - s.lastCheck > CALL_THRESHOLD_MS then
      Outcome(checked.(doNotRunBefore := now + GRACE_MS), {}, {})
    else if s.doNotRunBefore > now then
      Outcome(checked, {}, {})
    else
      var lateAircraft := if enabled then LateIn(s.aircraft, now - AIRCRAFT_TIMEOUT_MS) else {};
      var lateAtc := LateIn(s.atc, now - ATC_TIMEOUT_MS);
      var aircraft := if enabled then s.aircraft - lateAircraft else FakedAircraft(s, now);
      Outcome(State(aircraft, s.atc - lateAtc, now, -1), lateAircraft, lateAtc)
  }

  datatype Event =
    | Touch(kind: Kind, cs: Callsign)
    | Remove(kind: Kind, cs: Callsign)
    | Check(enabled: bool)
    | Disconnect

  datatype Timed = At(time: int, ev: Event)

  function Step(s: State, te: Timed): Outcome {
    match te.ev
    case Touch(kind, cs) => Outcome(s.With(kind, s.Of(kind)[cs := te.time]), {}, {})
    case Remove(kind, cs) => Outcome(s.With(kind, s.Of(kind) - {cs}), {}, {})
    case Check(enabled) => CheckTimeouts(s, te.time, enabled)
    case Disconnect => Outcome(s.(aircraft := map[], atc := map[]), {}, {})
  }

  /** The state after the first `n` events of a run. */
  function After(s0: State, es: seq<Timed>, n: nat): State
    requires n <= |es|
  {
    if n == 0 then s0 else Step(After(s0, es, n - 1), es[n - 1]).next
  }

  /** Callsigns whose timeout the `i`-th event of a run emits. */
  function TimedOut(s0: State, es: seq<Timed>, i: nat, kind: Kind): set<Callsign>
    requires i < |es|
  {
    Step(After(s0, es, i), es[i]).Late(kind)
  }

  // ---------------------------------------------------------------------------
  // Runs with the watchdog switched on
  // ---------------------------------------------------------------------------

  /** A freshly constructed analyzer. */
  predicate Started(s: State) {
    s.aircraft == map[] && s.atc == map[] && s.doNotRunBefore == -1 && 0 <= s.lastCheck
  }

  /** Clock readings never go back. */
  ghost predicate Timely(s0: State, es: seq<Timed>) {
    && (forall i | 0 <= i < |es| :: s0.lastCheck <= es[i].time)
    && (forall i, j | 0 <= i < j < |es| :: es[i].time <= es[j].time)
  }

  ghost predicate WatchdogOn(es: seq<Timed>) {
    forall i | 0 <= i < |es| :: es[i].ev != Check(false)
  }

  /** When the last check before event `n` ran, or when the analyzer was made. */
  function PreviousCheck(s0: State, es: seq<Timed>, n: nat): int
    requires n <= |es|
  {
    if n == 0 then s0.lastCheck
    else if es[n - 1].ev.Check? then es[n - 1].time
    else PreviousCheck(s0, es, n - 1)
  }

  /** Event `k` is a check that came too late after the one before it. */
  predicate OverlongGap(s0: State, es: seq<Timed>, k: nat)
    requires k < |es|
  {
    es[k].ev.Check? && es[k].time - PreviousCheck(s0, es, k) > 11250
  }

  /** Event `j` touched `cs`, and up to event `n` nothing touched, removed, cleared or timed it out. */
  ghost predicate LastTouch(s0: State, es: seq<Timed>, kind: Kind, cs: Callsign, j: int, n: nat)
    requires n <= |es|
  {
    && 0 <= j < n
    && es[j].ev == Touch(kind, cs)
    && forall k | j < k < n ::
         && es[k].ev != Touch(kind, cs) && es[k].ev != Remove(kind, cs) && es[k].ev != Disconnect
         && cs !in TimedOut(s0, es, k, kind)
  }

  lemma {:induction false} LastCheckIsPrevious(s0: State, es: seq<Timed>, n: nat)
    requires n <= |es|
    ensures After(s0, es, n).lastCheck == PreviousCheck(s0, es, n)
  {
    if n > 0 {
      LastCheckIsPrevious(s0, es, n - 1);
    }
  }

  /** A stamp is always the time of the last touch, and every live last touch has its stamp. */
  lemma {:induction false} StampIsLastTouch(s0: State, es: seq<Timed>, kind: Kind, cs: Callsign, n: nat)
    requires Started(s0) && WatchdogOn(es) && n <= |es|
    ensures cs in After(s0, es, n).Of(kind) ==>
              exists j :: LastTouch(s0, es, kind, cs, j, n) && es[j].time == After(s0, es, n).Of(kind)[cs]
    ensures forall j | LastTouch(s0, es, kind, cs, j, n) ::
              cs in After(s0, es, n).Of(kind) && es[j].time == After(s0, es, n).Of(kind)[cs]
  {
    if n > 0 {
      var m := n - 1;
      StampIsLastTouch(s0, es, kind, cs, m);
      var s, s' := After(s0, es, m), After(s0, es, n);
      assert es[m].ev != Check(false);
      if cs in s'.Of(kind) {
        if es[m].ev == Touch(kind, cs) {
          assert LastTouch(s0, es, kind, cs, m, n);
        } else {
          assert cs in s.Of(kind) && s.Of(kind)[cs] == s'.Of(kind)[cs] && cs !in TimedOut(s0, es, m, kind);
          var j :| LastTouch(s0, es, kind, cs, j, m) && es[j].time == s.Of(kind)[cs];
          assert LastTouch(s0, es, kind, cs, j, n);
        }
      }
      forall j | LastTouch(s0, es, kind, cs, j, n)
        ensures cs in s'.Of(kind) && es[j].time == s'.Of(kind)[cs]
      {
        if j < m {
          assert LastTouch(s0, es, kind, cs, j, m);
          assert cs !in TimedOut(s0, es, m, kind);
        }
      }
    }
  }

  /** The grace period an overlong gap opens: it is still noted, or it is over. */
  lemma {:induction false} GraceIsKept(s0: State, es: seq<Timed>, n: nat)
    requires Started(s0) && Timely(s0, es) && n <= |es|
    ensures var s := After(s0, es, n);
            && (forall k | 0 <= k < n && OverlongGap(s0, es, k) ::
                  es[k].time + GRACE_MS <= s.doNotRunBefore || es[k].time + GRACE_MS <= s.lastCheck)
            && (s.doNotRunBefore == -1
                || exists k :: 0 <= k < n && OverlongGap(s0, es, k) && s.doNotRunBefore == es[k].time + GRACE_MS)
  {
    if n > 0 {
      var m := n - 1;
      GraceIsKept(s0, es, m);
      LastCheckIsPrevious(s0, es, m);
      LastCheckIsPrevious(s0, es, n);
      var s, s' := After(s0, es, m), After(s0, es, n);
      assert s'.lastCheck >= s.lastCheck by {
        PreviousCheckIsPast(s0, es, m);
      }
      if OverlongGap(s0, es, m) {
        assert s'.doNotRunBefore == es[m].time + GRACE_MS;
      }
    }
  }

  lemma {:induction false} PreviousCheckIsPast(s0: State, es: seq<Timed>, n: nat)
    requires Timely(s0, es) && n < |es|
    ensures s0.lastCheck <= PreviousCheck(s0, es, n) <= es[n].time
  {
    if n > 0 && !es[n - 1].ev.Check? {
      PreviousCheckIsPast(s0, es, n - 1);
    }
  }

  /** The check at event `i` looks at the stamps exactly when no grace period is running. */
  lemma ArmedOutsideGrace(s0: State, es: seq<Timed>, i: nat)
    requires Started(s0) && Timely(s0, es) && i < |es| && es[i].ev.Check?
    ensures Armed(After(s0, es, i), es[i].time) <==>
            forall k | 0 <= k <= i && OverlongGap(s0, es, k) :: es[k].time + GRACE_MS <= es[i].time
  {
    var s := After(s0, es, i);
    GraceIsKept(s0, es, i);
    LastCheckIsPrevious(s0, es, i);
    PreviousCheckIsPast(s0, es, i);
    if !Armed(s, es[i].time) {
      if es[i].time - s.lastCheck > CALL_THRESHOLD_MS {
        assert OverlongGap(s0, es, i);
      } else {
        var k :| 0 <= k < i && OverlongGap(s0, es, k) && s.doNotRunBefore == es[k].time + GRACE_MS;
        assert es[k].time + GRACE_MS > es[i].time;
      }
    }
  }

  /** Over every run with the watchdog on: a callsign is timed out at an event exactly when
      that event is a check, no overlong gap between checks (the one ending now included)
      lies in the last 22.5 s, and the last touch of the callsign is as old as the timeout. */
  lemma TimeoutIffSilent(s0: State, es: seq<Timed>, i: nat, kind: Kind, cs: Callsign)
    requires Started(s0) && Timely(s0, es) && WatchdogOn(es) && i < |es|
    ensures cs in TimedOut(s0, es, i, kind) <==>
            && es[i].ev.Check?
            && (forall k | 0 <= k <= i && OverlongGap(s0, es, k) :: es[k].time + GRACE_MS <= es[i].time)
            && (exists j :: LastTouch(s0, es, kind, cs, j, i) && es[j].time + TimeoutMs(kind) <= es[i].time)
  {
    assert es[i].ev != Check(false);
    StampIsLastTouch(s0, es, kind, cs, i);
    if es[i].ev.Check? {
      ArmedOutsideGrace(s0, es, i);
    }
  }

  /** The check before a timeout ran at most 11250 ms earlier. */
  lemma TimeoutFollowsRecentCheck(s0: State, es: seq<Timed>, i: nat, kind: Kind, cs: Callsign)
    requires Started(s0) && Timely(s0, es) && WatchdogOn(es) && i < |es|
    requires cs in TimedOut(s0, es, i, kind)
    ensures es[i].time - PreviousCheck(s0, es, i) <= 11250
  {
    TimeoutIffSilent(s0, es, i, kind, cs);
    assert !OverlongGap(s0, es, i);
  }

  /** Between two timeouts of one callsign the callsign was touched. */
  lemma TouchBetweenTimeouts(s0: State, es: seq<Timed>, i: nat, i': nat, kind: Kind, cs: Callsign)
    requires Started(s0) && Timely(s0, es) && WatchdogOn(es) && i < i' < |es|
    requires cs in TimedOut(s0, es, i, kind) && cs in TimedOut(s0, es, i', kind)
    ensures exists j :: i < j < i' && es[j].ev == Touch(kind, cs)
  {
    TimeoutIffSilent(s0, es, i, kind, cs);
    TimeoutIffSilent(s0, es, i', kind, cs);
    var j :| LastTouch(s0, es, kind, cs, j, i') && es[j].time + TimeoutMs(kind) <= es[i'].time;
    assert i <= j;
  }

  /** Bounded detection: a callsign touched at event `j` and then neither touched, removed nor
      cleared is timed out by the time the first check has run at or after both its timeout and
      the end `e` of all grace periods, and that is at most one check interval late. */
  lemma SilentIsDetected(s0: State, es: seq<Timed>, j: nat, c: nat, kind: Kind, cs: Callsign, e: int)
    returns (k: nat)
    requires Started(s0) && Timely(s0, es) && WatchdogOn(es)
    requires j < c < |es| && es[j].ev == Touch(kind, cs)
    requires forall k | j < k < |es| ::
               es[k].ev != Touch(kind, cs) && es[k].ev != Remove(kind, cs) && es[k].ev != Disconnect
    requires forall k | 0 <= k < |es| && OverlongGap(s0, es, k) :: es[k].time + GRACE_MS <= e
    requires es[c].ev.Check? && es[c].time >= es[j].time + TimeoutMs(kind) && es[c].time >= e
    ensures j < k <= c && cs in TimedOut(s0, es, k, kind)
    ensures es[k].time <= es[j].time + TimeoutMs(kind) + CALL_THRESHOLD_MS || es[k].time <= e + CALL_THRESHOLD_MS
    decreases c
  {
    if k' :| j < k' < c && es[k'].ev.Check? && es[k'].time >= es[j].time + TimeoutMs(kind) && es[k'].time >= e {
      k := SilentIsDetected(s0, es, j, k', kind, cs, e);
    } else if k' :| j < k' < c && cs in TimedOut(s0, es, k', kind) {
      k := k';
      TimeoutIffSilent(s0, es, k, kind, cs);
    } else {
      k := c;
      assert LastTouch(s0, es, kind, cs, j, c);
      TimeoutIffSilent(s0, es, c, kind, cs);
      assert !OverlongGap(s0, es, c);
      PreviousCheckBeforeDeadline(s0, es, j, c, es[j].time + TimeoutMs(kind), e);
    }
  }

  lemma {:induction false} PreviousCheckBeforeDeadline(s0: State, es: seq<Timed>, j: nat, n: nat, d: int, e: int)
    requires Timely(s0, es) && j < n < |es| && es[j].time < d && !es[j].ev.Check?
    requires forall k | j < k < n && es[k].ev.Check? :: es[k].time < d || es[k].time < e
    ensures PreviousCheck(s0, es, n) < d || PreviousCheck(s0, es, n) < e
  {
    if es[n - 1].ev.Check? {
    } else if n - 1 == j {
      PreviousCheckIsPast(s0, es, j);
    } else {
      PreviousCheckBeforeDeadline(s0, es, j, n - 1, d, e);
    }
  }

  // ---------------------------------------------------------------------------
  // The watchdog switched off
  // ---------------------------------------------------------------------------

  /** A check with the watchdog off times out no aircraft. It is silent altogether exactly
      when it is not armed or no ATC stamp has reached the ATC timeout. */
  lemma DisabledCheckSilentIff(s: State, now: int)
    ensures CheckTimeouts(s, now, false).lateAircraft == {}
    ensures CheckTimeouts(s, now, false).lateAtc == {} <==>
            !Armed(s, now) || forall cs | cs in s.atc :: now - ATC_TIMEOUT_MS < s.atc[cs]
  {
    var late := LateIn(s.atc, now - ATC_TIMEOUT_MS);
    if cs :| cs in s.atc && s.atc[cs] <= now - ATC_TIMEOUT_MS {
      assert cs in late;
    }
  }

  /** Event `k` is a switched-off check that rewrites the aircraft stamps. */
  predicate Fakes(s0: State, es: seq<Timed>, k: int)
    requires 0 <= k < |es|
  {
    es[k].ev == Check(false) && Armed(After(s0, es, k), es[k].time)
  }

  /** It sees the callsign among the stations, and so makes it an aircraft. */
  predicate FakesStation(s0: State, es: seq<Timed>, cs: Callsign, k: int)
    requires 0 <= k < |es|
  {
    Fakes(s0, es, k) && cs in After(s0, es, k).atc
  }

  /** Event `k` drops the aircraft stamp of the callsign, if there is one. */
  predicate Drops(s0: State, es: seq<Timed>, cs: Callsign, k: int)
    requires 0 <= k < |es|
  {
    es[k].ev == Remove(Aircraft, cs) || es[k].ev == Disconnect || cs in TimedOut(s0, es, k, Aircraft)
  }

  /** Event `k` gave the callsign its aircraft stamp, which nothing has dropped up to event `n`. */
  ghost predicate Origin(s0: State, es: seq<Timed>, cs: Callsign, k: int, n: nat)
    requires n <= |es|
  {
    && 0 <= k < n
    && (es[k].ev == Touch(Aircraft, cs) || FakesStation(s0, es, cs, k))
    && forall m | k < m < n :: !Drops(s0, es, cs, m)
  }

  /** A callsign has an aircraft stamp, whenever the watchdog was on or off, exactly when it was
      touched as an aircraft, or seen as a station by a switched-off check, and not dropped since. */
  lemma {:induction false} AircraftStampOrigin(s0: State, es: seq<Timed>, cs: Callsign, n: nat)
    requires Started(s0) && n <= |es|
    ensures cs in After(s0, es, n).aircraft <==> exists k :: Origin(s0, es, cs, k, n)
  {
    if n > 0 {
      var m := n - 1;
      var s, s' := After(s0, es, m), After(s0, es, n);
      AircraftStampOrigin(s0, es, cs, m);
      if es[m].ev == Touch(Aircraft, cs) || FakesStation(s0, es, cs, m) {
        assert Origin(s0, es, cs, m, n);
      } else if Drops(s0, es, cs, m) {
        assert cs !in s'.aircraft;
      } else {
        assert cs in s'.aircraft <==> cs in s.aircraft;
        if k :| Origin(s0, es, cs, k, m) {
          assert Origin(s0, es, cs, k, n);
        }
        if k :| Origin(s0, es, cs, k, n) {
          assert Origin(s0, es, cs, k, m);
        }
      }
    }
  }

  /** `k` is the last switched-off check before event `n` that rewrote the stamps. */
  ghost predicate LastFake(s0: State, es: seq<Timed>, k: int, n: nat)
    requires n <= |es|
  {
    0 <= k < n && Fakes(s0, es, k) && forall m | k < m < n :: !Fakes(s0, es, m)
  }

  /** The stamp of a callsign that was never touched as an aircraft is the one of that check. */
  lemma {:induction false} PhantomStamp(s0: State, es: seq<Timed>, cs: Callsign, n: nat)
    requires Started(s0) && n <= |es| && forall k | 0 <= k < n :: es[k].ev != Touch(Aircraft, cs)
    requires cs in After(s0, es, n).aircraft
    ensures exists k :: LastFake(s0, es, k, n)
    ensures forall k | LastFake(s0, es, k, n) ::
              After(s0, es, n).aircraft[cs] ==
              es[k].time + 1000 - if cs in After(s0, es, k).atc then ATC_TIMEOUT_MS else AIRCRAFT_TIMEOUT_MS
  {
    var m := n - 1;
    if Fakes(s0, es, m) {
      assert LastFake(s0, es, m, n);
    } else {
      var s, s' := After(s0, es, m), After(s0, es, n);
      assert cs in s.aircraft && s.aircraft[cs] == s'.aircraft[cs];
      PhantomStamp(s0, es, cs, m);
      var k :| LastFake(s0, es, k, m);
      assert LastFake(s0, es, k, n);
      forall k' | LastFake(s0, es, k', n) ensures LastFake(s0, es, k', m) {}
    }
  }

  /** Over every run with the watchdog on and off: a callsign never touched as an aircraft is timed
      out as one exactly by an armed switched-on check, after a switched-off check saw it as a
      station, with its stamp not dropped since, and at once if the last switched-off check still
      saw it as a station, or else a second after that check. */
  lemma PhantomTimesOutIff(s0: State, es: seq<Timed>, i: nat, cs: Callsign)
    requires Started(s0) && Timely(s0, es) && i < |es|
    requires forall k | 0 <= k < i :: es[k].ev != Touch(Aircraft, cs)
    ensures cs in TimedOut(s0, es, i, Aircraft) <==>
            && es[i].ev == Check(true)
            && (forall k | 0 <= k <= i && OverlongGap(s0, es, k) :: es[k].time + GRACE_MS <= es[i].time)
            && (exists k :: Origin(s0, es, cs, k, i))
            && (exists k :: LastFake(s0, es, k, i) && (cs in After(s0, es, k).atc || es[k].time + 1000 <= es[i].time))
  {
    var s := After(s0, es, i);
    AircraftStampOrigin(s0, es, cs, i);
    if es[i].ev.Check? {
      ArmedOutsideGrace(s0, es, i);
    }
    if cs in s.aircraft {
      PhantomStamp(s0, es, cs, i);
      var k :| LastFake(s0, es, k, i);
      forall k' | LastFake(s0, es, k', i) ensures k' == k {}
    }
  }

  /** The run behind it: an ATC station that was never an aircraft is timed out as one. */
  lemma AtcTimesOutAsAircraft(tower: Callsign) returns (s0: State, es: seq<Timed>)
    ensures Started(s0) && Timely(s0, es)
    ensures forall k | 0 <= k < |es| :: es[k].ev != Touch(Aircraft, tower)
    ensures |es| == 3 && tower in TimedOut(s0, es, 2, Aircraft)
  {
    s0 := State(map[], map[], 0, -1);
    es := [At(1000, Touch(Atc, tower)), At(7500, Check(false)), At(15000, Check(true))];
    assert After(s0, es, 1).atc == map[tower := 1000];
    assert After(s0, es, 2).aircraft == map[tower := -41500];
  }

  /** What line 212 was meant to write: the ATC map. */
  function CheckWithAtcFake(s: State, now: int): Outcome {
    if now - s.lastCheck > CALL_THRESHOLD_MS || s.doNotRunBefore > now then CheckTimeouts(s, now, false)
    else
      var aircraft: Stamps := map cs | cs in s.aircraft :: now - AIRCRAFT_TIMEOUT_MS + 1000;
      var atc: Stamps := map cs | cs in s.atc :: now - ATC_TIMEOUT_MS + 1000;
      Outcome(State(aircraft, atc, now, -1), LateIn(aircraft, now - AIRCRAFT_TIMEOUT_MS),
              LateIn(atc, now - ATC_TIMEOUT_MS))
  }

  /** With the intended map a switched-off check is silent and invents no callsign. */
  lemma IntendedDisabledCheckIsSilent(s: State, now: int)
    ensures CheckWithAtcFake(s, now).lateAircraft == {} && CheckWithAtcFake(s, now).lateAtc == {}
    ensures CheckWithAtcFake(s, now).next.aircraft.Keys == s.aircraft.Keys
    ensures CheckWithAtcFake(s, now).next.atc.Keys == s.atc.Keys
  {
  }

  // ---------------------------------------------------------------------------
  // The analyzer object
  // ---------------------------------------------------------------------------

  class AirspaceAnalyzer {
    var aircraftTimestamps: Stamps
    var atcTimestamps: Stamps
    var lastWatchdogCall: int
    var doNotRunAgainBefore: int
    var enabledWatchdog: bool

    constructor (now: int)
      ensures View() == State(map[], map[], now, -1) && enabledWatchdog
    {
      aircraftTimestamps, atcTimestamps := map[], map[];
      lastWatchdogCall, doNotRunAgainBefore, enabledWatchdog := now, -1, true;
    }

    ghost function View(): State
      reads this
    {
      State(aircraftTimestamps, atcTimestamps, lastWatchdogCall, doNotRunAgainBefore)
    }

    method SetEnabledWatchdog(enabled: bool)
      modifies this`enabledWatchdog
      ensures enabledWatchdog == enabled
    {
      enabledWatchdog := enabled;
    }

    method TouchAircraftCallsign(cs: Callsign, now: int)
      modifies this`aircraftTimestamps
      ensures View() == Step(old(View()), At(now, Touch(Aircraft, cs))).next
    {
      aircraftTimestamps := aircraftTimestamps[cs := now];
    }

    method TouchAtcCallsign(cs: Callsign, now: int)
      modifies this`atcTimestamps
      ensures View() == Step(old(View()), At(now, Touch(Atc, cs))).next
    {
      atcTimestamps := atcTimestamps[cs := now];
    }

    method RemoveAircraftCallsign(cs: Callsign, now: int)
      modifies this`aircraftTimestamps
      ensures View() == Step(old(View()), At(now, Remove(Aircraft, cs))).next
    {
      aircraftTimestamps := aircraftTimestamps - {cs};
    }

    method RemoveAtcCallsign(cs: Callsign, now: int)
      modifies this`atcTimestamps
      ensures View() == Step(old(View()), At(now, Remove(Atc, cs))).next
    {
      atcTimestamps := atcTimestamps - {cs};
    }

    method Clear(now: int)
      modifies this`aircraftTimestamps, this`atcTimestamps
      ensures View() == Step(old(View()), At(now, Disconnect)).next
    {
      aircraftTimestamps, atcTimestamps := map[], map[];
    }

    /** Emits `timeoutAircraft` for each of `lateAircraft`, then `timeoutAtc` for each of
        `lateAtc`; the order inside each group is that of the hash. */
    method WatchdogCheckTimeouts(now: int) returns (lateAircraft: seq<Callsign>, lateAtc: seq<Callsign>)
      modifies this
      ensures enabledWatchdog == old(enabledWatchdog)
      ensures View() == CheckTimeouts(old(View()), now, old(enabledWatchdog)).next
      ensures Lists(lateAircraft, CheckTimeouts(old(View()), now, old(enabledWatchdog)).lateAircraft)
      ensures Lists(lateAtc, CheckTimeouts(old(View()), now, old(enabledWatchdog)).lateAtc)
    {
      lateAircraft, lateAtc := [], [];
      var callDiff := now - lastWatchdogCall;
      lastWatchdogCall := now;
      if callDiff > CALL_THRESHOLD_MS {
        doNotRunAgainBefore := now + 2 * CALL_THRESHOLD_MS;
        return;
      }
      if doNotRunAgainBefore > now {
        return;
      }
      doNotRunAgainBefore := -1;
      lateAircraft := CheckAircraft(now - AIRCRAFT_TIMEOUT_MS);
      lateAtc := CheckAtc(now - ATC_TIMEOUT_MS);
    }

    /** The first loop of the check. */
    method CheckAircraft(limit: int) returns (late: seq<Callsign>)
      modifies this`aircraftTimestamps
      ensures enabledWatchdog ==>
                && Lists(late, LateIn(old(aircraftTimestamps), limit))
                && aircraftTimestamps == old(aircraftTimestamps) - LateIn(old(aircraftTimestamps), limit)
      ensures !enabledWatchdog ==>
                late == [] && aircraftTimestamps == map cs | cs in old(aircraftTimestamps) :: limit + 1000
    {
      late := [];
      var callsigns := ListOf(aircraftTimestamps.Keys);
      ghost var was := aircraftTimestamps;
      ghost var done: set<Callsign> := {};
      ghost var gone: set<Callsign> := {};
      var i := 0;
      while i < |callsigns|
        invariant 0 <= i <= |callsigns|
        invariant forall k | 0 <= k < |callsigns| :: k < i <==> callsigns[k] in done
        invariant done <= was.Keys && gone <= done
        invariant forall cs | cs in done :: cs in gone <==> enabledWatchdog && was[cs] <= limit
        invariant Lists(late, gone)
        invariant !enabledWatchdog ==> late == []
        invariant aircraftTimestamps.Keys == was.Keys - gone
        invariant forall cs | cs in aircraftTimestamps ::
                    aircraftTimestamps[cs] == if !enabledWatchdog && cs in done then limit + 1000 else was[cs]
      {
        var cs := callsigns[i];
        done := done + {cs};
        i := i + 1;
        if !enabledWatchdog {
          aircraftTimestamps := aircraftTimestamps[cs := limit + 1000];
        }
        var tsv := aircraftTimestamps[cs];
        if tsv > limit {
          continue;
        }
        aircraftTimestamps := aircraftTimestamps - {cs};
        ListsGrow(late, gone, cs);
        late, gone := late + [cs], gone + {cs};
      }
      assert forall cs | cs in was :: cs in callsigns;
      assert done == was.Keys;
      assert enabledWatchdog ==> gone == LateIn(was, limit);
    }

    /** The second loop of the check; when the watchdog is off it writes the aircraft map. */
    method CheckAtc(limit: int) returns (late: seq<Callsign>)
      modifies this`aircraftTimestamps, this`atcTimestamps
      ensures Lists(late, LateIn(old(atcTimestamps), limit))
      ensures atcTimestamps == old(atcTimestamps) - LateIn(old(atcTimestamps), limit)
      ensures enabledWatchdog ==> aircraftTimestamps == old(aircraftTimestamps)
      ensures !enabledWatchdog ==>
                aircraftTimestamps == old(aircraftTimestamps) + map cs | cs in old(atcTimestamps) :: limit + 1000
    {
      late := [];
      var callsigns := ListOf(atcTimestamps.Keys);
      ghost var was, wasAircraft := atcTimestamps, aircraftTimestamps;
      ghost var done: set<Callsign> := {};
      ghost var gone: set<Callsign> := {};
      var i := 0;
      while i < |callsigns|
        invariant 0 <= i <= |callsigns|
        invariant forall k | 0 <= k < |callsigns| :: k < i <==> callsigns[k] in done
        invariant done <= was.Keys && gone <= done
        invariant forall cs | cs in done :: cs in gone <==> was[cs] <= limit
        invariant Lists(late, gone)
        invariant atcTimestamps == was - gone
        invariant enabledWatchdog ==> aircraftTimestamps == wasAircraft
        invariant !enabledWatchdog ==> aircraftTimestamps.Keys == wasAircraft.Keys + done
        invariant !enabledWatchdog ==> forall cs | cs in aircraftTimestamps ::
                    aircraftTimestamps[cs] == if cs in done then limit + 1000 else wasAircraft[cs]
      {
        var cs := callsigns[i];
        done := done + {cs};
        i := i + 1;
        if !enabledWatchdog {
          aircraftTimestamps := aircraftTimestamps[cs := limit + 1000];
        }
        var tsv := atcTimestamps[cs];
        if tsv > limit {
          continue;
        }
        atcTimestamps := atcTimestamps - {cs};
        ListsGrow(late, gone, cs);
        late, gone := late + [cs], gone + {cs};
      }
      assert forall cs | cs in was :: cs in callsigns;
      assert done == was.Keys;
      assert gone == LateIn(was, limit);
    }
  }
}
