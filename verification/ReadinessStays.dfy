/** How long polling can go on in one stay of an aircraft when the record has no timestamp: a polling
    timer that has outlived the record it was started for enters an empty one. */
module ReadinessStays {
  import opened Basics
  import opened Readiness
  import opened ReadinessRuns

  // ---------------------------------------------------------------------------
  // The bound
  // ---------------------------------------------------------------------------

  predicate Untimed(e: Entry) {
    e.record.Some? ==> e.record.value.ts < 0
  }

  /** In a stay that began at `t0`, with chains of at most `w0` waits pending: without a timestamp
      the verify timer of the stay is pending, and all further waits lie between both bounds. */
  ghost predicate Staying(e: Entry, t0: int, w0: nat, slack: nat) {
    && e.inRange
    && (Untimed(e) ==> (e.record.Some? ==> e.record.value == UNTIMED) && Verify(t0 + VERIFY_MS) in e.timers)
    && (!Untimed(e) ==> e.record.value.ts <= t0 + VERIFY_MS + slack)
    && forall t | t in e.timers && t.Recheck? && w0 < t.waits ::
         && t0 + CHECK_AGAIN_MS * (t.waits - w0) <= t.due
         && t.due <= t0 + VERIFY_MS + slack + CHECK_AGAIN_MS + if Untimed(e) then 0 else MAX_AGE_MS
  }

  predicate InStay(t: Timed) {
    !t.ev.PilotGone? && !t.ev.OutOfRange? && !t.ev.Cleared?
  }

  /** A call in the stay, `waits` waits into its chain, before the verify timer is overdue. */
  predicate OnTime(e: Entry, now: int, waits: nat, t0: int, w0: nat, slack: nat) {
    && t0 <= now && (w0 < waits ==> t0 + CHECK_AGAIN_MS * (waits - w0) <= now)
    && (Untimed(e) ==> now <= t0 + VERIFY_MS + slack)
  }

  lemma SendReadyStays(cs: Callsign, e: Entry, rf: Flag, env: Env, waits: nat, t0: int, w0: nat, slack: nat)
    requires IsValidAircraftCallsign(cs) && 0 <= t0
    requires Staying(e, t0, w0, slack) && OnTime(e, env.now, waits, t0, w0, slack)
    ensures Staying(SendReady(cs, e, rf, env, waits).next, t0, w0, slack)
  {
  }

  lemma FsInnStays(cs: Callsign, e: Entry, env: Env, waits: nat, t0: int, w0: nat, slack: nat)
    requires IsValidAircraftCallsign(cs) && 0 <= t0
    requires Staying(e, t0, w0, slack) && OnTime(e, env.now, waits, t0, w0, slack)
    ensures Staying(FsInnReceived(cs, e, env, waits).next, t0, w0, slack)
  {
    var r := RecordOf(e).AddFlag(ReceivedFsInnPacket, env.now);
    SendReadyStays(cs, e.(record := Some(r)), ReceivedFsInnPacket, env, waits, t0, w0, slack);
  }

  lemma RecheckStays(cs: Callsign, e: Entry, timer: Timer, env: Env, t0: int, w0: nat, slack: nat)
    requires IsValidAircraftCallsign(cs) && 0 <= t0 && timer.Recheck? && timer in e.timers
    requires Staying(e, t0, w0, slack) && Punctual(e, At(Fire(timer), env), slack) && t0 <= env.now
    ensures Staying(Step(cs, e, At(Fire(timer), env)).next, t0, w0, slack)
  {
    var rest := e.(timers := e.timers - multiset{timer});
    assert Staying(rest, t0, w0, slack);
    FsInnStays(cs, rest.(packet := false), env, timer.waits, t0, w0, slack);
    SendReadyStays(cs, rest, RecursiveCall, env, timer.waits, t0, w0, slack);
  }

  lemma VerifyStays(cs: Callsign, e: Entry, timer: Timer, env: Env, t0: int, w0: nat, slack: nat)
    requires IsValidAircraftCallsign(cs) && 0 <= t0 && timer.Verify? && timer in e.timers
    requires Staying(e, t0, w0, slack) && Punctual(e, At(Fire(timer), env), slack) && t0 <= env.now
    ensures Staying(Step(cs, e, At(Fire(timer), env)).next, t0, w0, slack)
  {
    var rest := e.(timers := e.timers - multiset{timer});
    VerifiedStays(e, timer, env, t0, w0, slack);
    SendReadyStays(cs, rest.(record := Some(RecordOf(e).AddFlag(Verified, env.now))), Verified, env, 0, t0, w0, slack);
    if !Untimed(e) {
      SendReadyStays(cs, rest, Verified, env, 0, t0, w0, slack);
    }
  }

  /** The verify timer gives the record a timestamp. */
  lemma VerifiedStays(e: Entry, timer: Timer, env: Env, t0: int, w0: nat, slack: nat)
    requires 0 <= t0 && timer.Verify? && timer in e.timers
    requires Staying(e, t0, w0, slack) && Punctual(e, At(Fire(timer), env), slack) && t0 <= env.now
    ensures var v := RecordOf(e).AddFlag(Verified, env.now);
            var rest := e.(timers := e.timers - multiset{timer}, record := Some(v));
            && !Untimed(rest) && Staying(rest, t0, w0, slack)
            && Staying(rest.(timers := rest.timers + multiset{Verify(env.now + VERIFY_MS)}), t0, w0, slack)
            && OnTime(rest, env.now, 0, t0, w0, slack)
  {
  }

  lemma StepStays(cs: Callsign, e: Entry, t: Timed, t0: int, w0: nat, slack: nat)
    requires IsValidAircraftCallsign(cs) && 0 <= t0 <= t.env.now && InStay(t)
    requires Staying(e, t0, w0, slack) && Punctual(e, t, slack)
    ensures Staying(Step(cs, e, t).next, t0, w0, slack)
  {
    match t.ev
    case Icao(_) => SendReadyStays(cs, e, ReceivedIcaoCodes, t.env, 0, t0, w0, slack);
    case FsInn => FsInnStays(cs, e, t.env, 0, t0, w0, slack);
    case Fire(timer) =>
      if timer.Verify? {
        VerifyStays(cs, e, timer, t.env, t0, w0, slack);
      } else {
        RecheckStays(cs, e, timer, t.env, t0, w0, slack);
      }
    case _ =>
  }

  lemma {:induction false} RunStays(cs: Callsign, e: Entry, run: seq<Timed>, t0: int, w0: nat, slack: nat)
    requires IsValidAircraftCallsign(cs) && Legal(cs, e, run, slack) && 0 <= t0 && Staying(e, t0, w0, slack)
    requires forall t | t in run :: InStay(t) && t0 <= t.env.now
    ensures Staying(Final(cs, e, run), t0, w0, slack)
    decreases |run|
  {
    if run != [] {
      assert run[0] in run;
      StepStays(cs, e, run[0], t0, w0, slack);
      RunStays(cs, Step(cs, e, run[0]).next, run[1..], t0, w0, slack);
    }
  }

  /** In one stay, whatever record it starts with and whatever timers are left of earlier stays, a
      chain makes at most 13 further waits while the record is without timestamp, and at most 16
      altogether, plus one for every 2 s that timers are late. */
  lemma StayPollingIsBounded(cs: Callsign, e: Entry, run: seq<Timed>, t0: int, w0: nat, slack: nat)
    requires IsValidAircraftCallsign(cs) && Legal(cs, e, run, slack) && 0 <= t0
    requires e.inRange && Verify(t0 + VERIFY_MS) in e.timers
    requires e.record.Some? ==> e.record.value == UNTIMED || 0 <= e.record.value.ts <= t0
    requires forall t | t in e.timers && t.Recheck? :: t.waits <= w0
    requires forall t | t in run :: InStay(t) && t0 <= t.env.now
    ensures var end := Final(cs, e, run);
            forall t | t in end.timers && t.Recheck? ::
              t.waits <= w0 + (if Untimed(end) then 13 else 16) + (slack + CHECK_AGAIN_MS - 1) / CHECK_AGAIN_MS
  {
    RunStays(cs, e, run, t0, w0, slack);
  }

  // ---------------------------------------------------------------------------
  // The bound is reached
  // ---------------------------------------------------------------------------

  const EMPTY := Entry(false, false, None, false, multiset{})
  const FIRST_VERIFY := Verify(VERIFY_MS)
  const FIRST_RECHECK := Recheck(24500, ReceivedIcaoCodes, 1)
  const SECOND_VERIFY := Verify(24500 + VERIFY_MS)
  const JOINED := EMPTY.(inRange := true, timers := multiset{FIRST_VERIFY})
  const WAITING := Entry(true, false, Some(Record(22500, true, false, false, false)), false,
                         multiset{FIRST_VERIFY, FIRST_RECHECK})
  const ANNOUNCED := Entry(true, false, Some(Record(22500, false, false, true, false)), false, multiset{FIRST_RECHECK})
  const GONE := EMPTY.(timers := multiset{FIRST_RECHECK})
  const AGAIN := EMPTY.(inRange := true, timers := multiset{FIRST_RECHECK, SECOND_VERIFY})

  function Now(time: int): Env {
    QUIET.(now := time)
  }

  /** The polling timer of the second stay, which begins at 24.5 s, after `w` waits of its chain. */
  function Poll(w: nat): Timer {
    Recheck(24500 + CHECK_AGAIN_MS * (w - 1), RecursiveCall, w)
  }

  function FirePoll(w: nat): Timed {
    At(Fire(Poll(w)), Now(Poll(w).due))
  }

  /** Up to 14 waits the record has no timestamp; then the verify timer has given it one. */
  function Polling(w: nat, timed: bool): Entry {
    if timed then Entry(true, false, Some(Record(48500, false, false, false, true)), false,
                        multiset{Verify(48500 + VERIFY_MS), Poll(w)})
    else Entry(true, false, Some(UNTIMED), false, multiset{SECOND_VERIFY, Poll(w)})
  }

  lemma PollAgainWaits(cs: Callsign, w: nat, timed: bool)
    requires IsValidAircraftCallsign(cs) && if timed then 14 <= w <= 16 else 2 <= w <= 13
    ensures Punctual(Polling(w, timed), FirePoll(w), 0)
    ensures Step(cs, Polling(w, timed), FirePoll(w)).next == Polling(w + 1, timed)
  {
    var verify := if timed then Verify(48500 + VERIFY_MS) else SECOND_VERIFY;
    var e, rest := Polling(w, timed), Polling(w, timed).(timers := multiset{verify});
    assert e.timers - multiset{Poll(w)} == rest.timers;
    assert multiset{verify} + multiset{Poll(w + 1)} == Polling(w + 1, timed).timers;
    QuietSendReady(cs, rest, w);
  }

  lemma QuietSendReady(cs: Callsign, e: Entry, w: nat)
    requires IsValidAircraftCallsign(cs) && e.inRange && !e.packet && e.record.Some? && !e.record.value.sent
    requires e.record.value.AgeMs(Poll(w).due) <= MAX_AGE_MS
    ensures SendReady(cs, e, RecursiveCall, Now(Poll(w).due), w).next == e.(timers := e.timers + multiset{Poll(w + 1)})
  {
  }

  /** With 14 waits the verify timer of the stay sets the timestamp. */
  lemma VerifyTimes(cs: Callsign)
    requires IsValidAircraftCallsign(cs)
    ensures var t := At(Fire(SECOND_VERIFY), Now(48500));
            Punctual(Polling(14, false), t, 0) && Step(cs, Polling(14, false), t).next == Polling(14, true)
  {
    assert Polling(14, false).timers - multiset{SECOND_VERIFY} == multiset{Poll(14)};
  }

  /** Prefixes a run by one step. */
  lemma Prepend(cs: Callsign, e: Entry, t: Timed, next: Entry, run: seq<Timed>)
    requires Punctual(e, t, 0) && Step(cs, e, t).next == next && Legal(cs, next, run, 0)
    requires run != [] ==> t.env.now <= run[0].env.now
    ensures Legal(cs, e, [t] + run, 0) && Final(cs, e, [t] + run) == Final(cs, next, run)
  {
    assert ([t] + run)[1..] == run;
  }

  lemma {:induction false} PollsOn(cs: Callsign, w: nat, timed: bool, m: nat) returns (run: seq<Timed>)
    requires IsValidAircraftCallsign(cs) && w <= m <= 17 && if timed then 14 <= w else 2 <= w <= 14
    ensures Legal(cs, Polling(w, timed), run, 0)
    ensures Final(cs, Polling(w, timed), run) == Polling(m, timed || 14 < m)
    ensures run != [] ==> 24500 + CHECK_AGAIN_MS * (w - 2) <= run[0].env.now
    decreases 17 - w, !timed
  {
    run := [];
    if w < m {
      if w == 14 && !timed {
        run := PollsOn(cs, w, true, m);
        VerifyTimes(cs);
        PrependVerify(cs, run);
        run := [At(Fire(SECOND_VERIFY), Now(48500))] + run;
      } else {
        run := PollsOn(cs, w + 1, timed, m);
        PollAgainWaits(cs, w, timed);
        Prepend(cs, Polling(w, timed), FirePoll(w), Polling(w + 1, timed), run);
        run := [FirePoll(w)] + run;
      }
    }
  }

  lemma PrependVerify(cs: Callsign, run: seq<Timed>)
    requires IsValidAircraftCallsign(cs) && Legal(cs, Polling(14, true), run, 0)
    requires run != [] ==> 48500 <= run[0].env.now
    ensures var t := At(Fire(SECOND_VERIFY), Now(48500));
            Legal(cs, Polling(14, false), [t] + run, 0)
            && Final(cs, Polling(14, false), [t] + run) == Final(cs, Polling(14, true), run)
  {
    VerifyTimes(cs);
    Prepend(cs, Polling(14, false), At(Fire(SECOND_VERIFY), Now(48500)), Polling(14, true), run);
  }

  /** The first stay: ICAO codes start a wait, the verify timer announces, the pilot leaves. */
  lemma FirstStay(cs: Callsign)
    requires IsValidAircraftCallsign(cs)
    ensures Step(cs, EMPTY, At(Joins, Now(0))).next == JOINED
    ensures Step(cs, JOINED, At(Icao(false), Now(22500))).next == WAITING
  {
    assert JOINED.timers + multiset{FIRST_RECHECK} == WAITING.timers;
  }

  lemma FirstStayEnds(cs: Callsign)
    requires IsValidAircraftCallsign(cs)
    ensures Step(cs, WAITING, At(Fire(FIRST_VERIFY), Now(24000))).next == ANNOUNCED
    ensures Step(cs, ANNOUNCED, At(PilotGone, Now(24000))).next == GONE
    ensures Step(cs, GONE, At(Joins, Now(24500))).next == AGAIN
  {
    var rest := WAITING.(timers := multiset{FIRST_RECHECK});
    assert WAITING.timers - multiset{FIRST_VERIFY} == rest.timers;
    var v := rest.(record := Some(Record(22500, true, false, false, true)));
    assert SendReady(cs, v, Verified, Now(24000), 0).next == ANNOUNCED;
    assert GONE.timers + multiset{SECOND_VERIFY} == AGAIN.timers;
  }

  /** The polling timer of the first stay fires for a record that does not exist yet. */
  lemma RecheckOutlivesRecord(cs: Callsign)
    requires IsValidAircraftCallsign(cs)
    ensures Step(cs, AGAIN, At(Fire(FIRST_RECHECK), Now(24500))).next == Polling(2, false)
  {
    assert AGAIN.timers - multiset{FIRST_RECHECK} == multiset{SECOND_VERIFY};
    assert multiset{SECOND_VERIFY} + multiset{Poll(2)} == Polling(2, false).timers;
  }

  /** The bounds are tight: from one pending wait at the start of the second stay, runs with punctual
      timers reach every number of waits up to 14 without a timestamp and up to 17 with one. */
  lemma UntimedChainsAreLonger(cs: Callsign, w: nat) returns (run: seq<Timed>)
    requires IsValidAircraftCallsign(cs) && 2 <= w <= 17
    ensures Legal(cs, EMPTY, run, 0)
    ensures (w <= 14 ==> Untimed(Final(cs, EMPTY, run)))
    ensures exists t :: t in Final(cs, EMPTY, run).timers && t.Recheck? && t.waits == w
  {
    FirstStay(cs);
    FirstStayEnds(cs);
    RecheckOutlivesRecord(cs);
    run := PollsOn(cs, 2, false, w);
    var first := At(Fire(FIRST_RECHECK), Now(24500));
    Prepend(cs, AGAIN, first, Polling(2, false), run);
    run := [first] + run;
    Prepend(cs, GONE, At(Joins, Now(24500)), AGAIN, run);
    run := [At(Joins, Now(24500))] + run;
    Prepend(cs, ANNOUNCED, At(PilotGone, Now(24000)), GONE, run);
    run := [At(PilotGone, Now(24000))] + run;
    Prepend(cs, WAITING, At(Fire(FIRST_VERIFY), Now(24000)), ANNOUNCED, run);
    run := [At(Fire(FIRST_VERIFY), Now(24000))] + run;
    Prepend(cs, JOINED, At(Icao(false), Now(22500)), WAITING, run);
    run := [At(Icao(false), Now(22500))] + run;
    Prepend(cs, EMPTY, At(Joins, Now(0)), JOINED, run);
    run := [At(Joins, Now(0))] + run;
    assert Poll(w) in Polling(w, 14 < w).timers;
  }
}
