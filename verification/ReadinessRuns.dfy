/** What readiness polling guarantees over every run of packets, timers and range changes. */
module ReadinessRuns {
  import opened Basics
  import opened Readiness

  /** The event loop may take this step: only a due timer fires, and no pending timer is overdue
      by more than `slack`. */
  ghost predicate Punctual(e: Entry, t: Timed, slack: nat) {
    && (t.ev.Fire? ==> t.ev.timer in e.timers && t.ev.timer.due <= t.env.now)
    && (forall timer | timer in e.timers :: t.env.now <= timer.due + slack)
  }

  /** A run of the event loop from `e`: punctual, with a clock that does not go back. */
  ghost predicate Legal(cs: Callsign, e: Entry, run: seq<Timed>, slack: nat)
    decreases |run|
  {
    run != [] ==>
      && Punctual(e, run[0], slack)
      && (|run| > 1 ==> run[0].env.now <= run[1].env.now)
      && Legal(cs, Step(cs, e, run[0]).next, run[1..], slack)
  }

  /** The entry at the end of a run. */
  function Final(cs: Callsign, e: Entry, run: seq<Timed>): Entry
    decreases |run|
  {
    if run == [] then e else Final(cs, Step(cs, e, run[0]).next, run[1..])
  }

  /** Some step of the run announces the aircraft, at `time` or before. */
  predicate AnnouncedBy(cs: Callsign, e: Entry, run: seq<Timed>, time: int)
    decreases |run|
  {
    run != [] && (|| (Step(cs, e, run[0]).announced && run[0].env.now <= time)
                  || AnnouncedBy(cs, Step(cs, e, run[0]).next, run[1..], time))
  }

  /** The aircraft stays in range and the monitor connected. */
  predicate Steady(t: Timed) {
    t.env.connected && !t.ev.PilotGone? && !t.ev.OutOfRange? && !t.ev.Cleared?
  }

  predicate NotSent(e: Entry) {
    e.record.Some? ==> !e.record.value.sent
  }

  // ---------------------------------------------------------------------------
  // Bounded announcement
  // ---------------------------------------------------------------------------

  /** Not yet announced: the first verify timer of the aircraft is pending, or it has fired,
      has marked the record as verified, and the second one is pending. */
  ghost predicate Waiting(e: Entry, t0: int, slack: nat) {
    && e.inRange && NotSent(e)
    && (|| Verify(t0 + VERIFY_MS) in e.timers
        || (&& e.record.Some? && e.record.value.verified
            && exists d :: d <= t0 + 2 * VERIFY_MS + slack && Verify(d) in e.timers))
  }

  /** A call of `sendReadyForModelMatching` announces or keeps what was there. */
  lemma SendReadyWhileWaiting(cs: Callsign, e: Entry, rf: Flag, env: Env, waits: nat)
    requires IsValidAircraftCallsign(cs) && e.inRange && env.connected
    requires NotSent(e) && rf != ReadyForMatchingSent
    ensures var out := SendReady(cs, e, rf, env, waits);
            || out.announced
            || (&& rf != Verified
                && out.next.inRange && NotSent(out.next) && e.timers <= out.next.timers
                && (e.record.Some? && e.record.value.verified ==>
                      out.next.record.Some? && out.next.record.value.verified))
  {
  }

  lemma StepWhileWaiting(cs: Callsign, e: Entry, t: Timed, t0: int, slack: nat)
    requires IsValidAircraftCallsign(cs) && Waiting(e, t0, slack) && Steady(t) && Punctual(e, t, slack)
    ensures Step(cs, e, t).announced || Waiting(Step(cs, e, t).next, t0, slack)
  {
    match t.ev
    case Icao(_) =>
      SendReadyWhileWaiting(cs, e, ReceivedIcaoCodes, t.env, 0);
    case FsInn =>
      var r := RecordOf(e).AddFlag(ReceivedFsInnPacket, t.env.now);
      SendReadyWhileWaiting(cs, e.(record := Some(r)), ReceivedFsInnPacket, t.env, 0);
    case Fire(timer) =>
      if timer.Verify? {
        VerifyWhileWaiting(cs, e, timer, t, t0, slack);
      } else {
        RecheckWhileWaiting(cs, e, timer, t, t0, slack);
      }
    case _ =>
  }

  lemma RecheckWhileWaiting(cs: Callsign, e: Entry, timer: Timer, t: Timed, t0: int, slack: nat)
    requires IsValidAircraftCallsign(cs) && Waiting(e, t0, slack) && Steady(t)
    requires t.ev == Fire(timer) && timer.Recheck?
    ensures Step(cs, e, t).announced || Waiting(Step(cs, e, t).next, t0, slack)
  {
    var rest := e.(timers := e.timers - multiset{timer});
    assert forall other | other in e.timers && other != timer :: other in rest.timers;
    assert Waiting(rest, t0, slack);
    if rest.packet && timer.rf != ReceivedFsInnPacket {
      var r := RecordOf(rest).AddFlag(ReceivedFsInnPacket, t.env.now);
      SendReadyWhileWaiting(cs, rest.(packet := false, record := Some(r)), ReceivedFsInnPacket, t.env, timer.waits);
    } else {
      SendReadyWhileWaiting(cs, rest, RecursiveCall, t.env, timer.waits);
    }
  }

  lemma VerifyWhileWaiting(cs: Callsign, e: Entry, timer: Timer, t: Timed, t0: int, slack: nat)
    requires IsValidAircraftCallsign(cs) && Waiting(e, t0, slack) && Steady(t) && Punctual(e, t, slack)
    requires t.ev == Fire(timer) && timer.Verify?
    ensures Step(cs, e, t).announced || Waiting(Step(cs, e, t).next, t0, slack)
  {
    var rest := e.(timers := e.timers - multiset{timer});
    var v := RecordOf(e).AddFlag(Verified, t.env.now);
    if e.record.Some? && e.record.value.verified {
      SendReadyWhileWaiting(cs, rest, Verified, t.env, 0);
    } else if v.icao {
      SendReadyWhileWaiting(cs, rest.(record := Some(v)), Verified, t.env, 0);
    } else {
      assert t.env.now <= t0 + VERIFY_MS + slack;
      assert Verify(t.env.now + VERIFY_MS) in Step(cs, e, t).next.timers;
    }
  }

  ghost predicate Reaches(run: seq<Timed>, time: int) {
    run != [] && run[|run| - 1].env.now > time
  }

  ghost predicate AllSteady(run: seq<Timed>) {
    forall t | t in run :: Steady(t)
  }

  /** An aircraft with a valid callsign that joined at `t0` without a record already marked as
      sent, and stays, is announced within twice the verify interval, whatever packets arrive
      and in whatever order; each of the two timers may be late by `slack`. */
  lemma {:induction false} AnnouncedInTime(cs: Callsign, e: Entry, run: seq<Timed>, t0: int, slack: nat)
    requires IsValidAircraftCallsign(cs) && Waiting(e, t0, slack)
    requires Legal(cs, e, run, slack) && AllSteady(run)
    requires Reaches(run, t0 + 2 * VERIFY_MS + 2 * slack)
    ensures AnnouncedBy(cs, e, run, t0 + 2 * VERIFY_MS + 2 * slack)
    decreases |run|
  {
    var t, rest := run[0], run[1..];
    assert t in run && t.env.now <= t0 + 2 * VERIFY_MS + 2 * slack;
    StepWhileWaiting(cs, e, t, t0, slack);
    if !Step(cs, e, t).announced {
      assert rest != [] && rest[|rest| - 1] == run[|run| - 1];
      AnnouncedInTime(cs, Step(cs, e, t).next, rest, t0, slack);
    }
  }

  /** An aircraft as it stands when it has just joined at `t0`, with what is left of an earlier stay. */
  function Joined(record: Option<Record>, packet: bool, t0: int): Entry {
    Entry(true, false, record, packet, multiset{Verify(t0 + VERIFY_MS)})
  }

  /** With punctual timers, every run of the joined aircraft announces it within 48 s. */
  ghost predicate Guaranteed(cs: Callsign, e0: Entry, t0: int) {
    forall run | Legal(cs, e0, run, 0) && AllSteady(run) && Reaches(run, t0 + 2 * VERIFY_MS) ::
      AnnouncedBy(cs, e0, run, t0 + 2 * VERIFY_MS)
  }

  const QUIET := Env(0, true, false, false)

  /** Nothing but the verify timers fires. */
  function SilentRun(record: Option<Record>, t0: int): seq<Timed> {
    var last := At(AtcChanges(false), QUIET.(now := t0 + 2 * VERIFY_MS + 1));
    if record.Some? && (record.value.sent || record.value.verified || record.value.icao)
    then [FireVerify(t0 + VERIFY_MS), last]
    else [FireVerify(t0 + VERIFY_MS), FireVerify(t0 + 2 * VERIFY_MS), last]
  }

  function FireVerify(due: int): Timed {
    At(Fire(Verify(due)), QUIET.(now := due))
  }

  /** What the verify timers of an aircraft that cannot be announced do. */
  lemma VerifyIsSilent(cs: Callsign, e: Entry, due: int)
    requires cs.text != "" && e.inRange && e.timers == multiset{Verify(due)}
    requires IsValidAircraftCallsign(cs) ==> e.record.Some? && e.record.value.sent
    ensures var out := Step(cs, e, FireVerify(due)); var r := RecordOf(e);
            && !out.announced && out.next.inRange
            && out.next.timers ==
               (if r.sent || r.verified || r.icao then multiset{} else multiset{Verify(due + VERIFY_MS)})
            && (r.sent ==> out.next.record == e.record)
            && (!r.sent && !r.verified && !r.icao ==> out.next.record.Some? && out.next.record.value.verified)
  {
    assert multiset{Verify(due)} - multiset{Verify(due)} == multiset{};
  }

  lemma SilentRunIsLegal(cs: Callsign, record: Option<Record>, packet: bool, t0: int)
    requires cs.text != "" && (IsValidAircraftCallsign(cs) ==> record.Some? && record.value.sent)
    ensures var run, e0 := SilentRun(record, t0), Joined(record, packet, t0);
            && Legal(cs, e0, run, 0) && AllSteady(run) && Reaches(run, t0 + 2 * VERIFY_MS)
            && !AnnouncedBy(cs, e0, run, t0 + 2 * VERIFY_MS)
  {
    var run, e0 := SilentRun(record, t0), Joined(record, packet, t0);
    VerifyIsSilent(cs, e0, t0 + VERIFY_MS);
    var e1 := Step(cs, e0, run[0]).next;
    if |run| == 3 {
      VerifyIsSilent(cs, e1, t0 + 2 * VERIFY_MS);
      var e2 := Step(cs, e1, run[1]).next;
      EndIsSilent(cs, e2, run[2], t0 + 2 * VERIFY_MS);
      assert run[1..] == [run[1], run[2]] && run[1..][1..] == [run[2]];
    } else {
      EndIsSilent(cs, e1, run[1], t0 + 2 * VERIFY_MS);
      assert run[1..] == [run[1]];
    }
  }

  lemma EndIsSilent(cs: Callsign, e: Entry, t: Timed, time: int)
    requires t.ev.AtcChanges? && e.timers == multiset{}
    ensures Legal(cs, e, [t], 0) && !AnnouncedBy(cs, e, [t], time)
  {
    assert [t][1..] == [];
  }

  /** The announcement within 48 s is guaranteed exactly for a valid callsign without a left-over
      record that is marked as sent. */
  lemma GuaranteedIff(cs: Callsign, record: Option<Record>, packet: bool, t0: int)
    requires cs.text != ""
    ensures Guaranteed(cs, Joined(record, packet, t0), t0) <==>
            IsValidAircraftCallsign(cs) && (record.Some? ==> !record.value.sent)
  {
    var e0 := Joined(record, packet, t0);
    if IsValidAircraftCallsign(cs) && NotSent(e0) {
      forall run | Legal(cs, e0, run, 0) && AllSteady(run) && Reaches(run, t0 + 2 * VERIFY_MS)
        ensures AnnouncedBy(cs, e0, run, t0 + 2 * VERIFY_MS)
      {
        AnnouncedInTime(cs, e0, run, t0, 0);
      }
    } else {
      SilentRunIsLegal(cs, record, packet, t0);
    }
  }

  /** The aircraft leaves, in one of the three ways, and joins again at `t0`. */
  function Rejoined(cs: Callsign, e: Entry, leaving: Timed, t0: int): Entry {
    Step(cs, Step(cs, e, leaving).next, At(Joins, QUIET.(now := t0))).next
  }

  predicate IsLeaving(ev: Event) {
    ev.OutOfRange? || ev.PilotGone? || ev.Cleared?
  }

  /** Leaving and joining again: the new stay is announced in time unless the aircraft was announced
      before and left by the range test, which keeps the record. If no timer of the first stay is
      pending any more, that is the exact condition. */
  lemma LeftoverRecord(cs: Callsign, e: Entry, leaving: Timed, t0: int)
    requires cs.text != "" && e.inRange && IsLeaving(leaving.ev)
    ensures IsValidAircraftCallsign(cs) && (leaving.ev.OutOfRange? ==> NotSent(e)) ==>
              Guaranteed(cs, Rejoined(cs, e, leaving, t0), t0)
    ensures e.timers == multiset{} && !e.atcOnline ==>
              (Guaranteed(cs, Rejoined(cs, e, leaving, t0), t0) <==>
               IsValidAircraftCallsign(cs) && (leaving.ev.OutOfRange? ==> NotSent(e)))
  {
    var e0 := Rejoined(cs, e, leaving, t0);
    if IsValidAircraftCallsign(cs) && (leaving.ev.OutOfRange? ==> NotSent(e)) {
      forall run | Legal(cs, e0, run, 0) && AllSteady(run) && Reaches(run, t0 + 2 * VERIFY_MS)
        ensures AnnouncedBy(cs, e0, run, t0 + 2 * VERIFY_MS)
      {
        AnnouncedInTime(cs, e0, run, t0, 0);
      }
    } else if e.timers == multiset{} && !e.atcOnline {
      assert multiset{} + multiset{Verify(t0 + VERIFY_MS)} == multiset{Verify(t0 + VERIFY_MS)};
      assert e0 == Joined(e0.record, e0.packet, t0);
      GuaranteedIff(cs, e0.record, e0.packet, t0);
    }
  }

  // ---------------------------------------------------------------------------
  // No repetition
  // ---------------------------------------------------------------------------

  predicate KeepsRecord(t: Timed) {
    !t.ev.PilotGone? && !t.ev.Cleared?
  }

  ghost predicate AllKeepRecord(run: seq<Timed>) {
    forall t | t in run :: KeepsRecord(t)
  }

  /** A record that is marked as sent announces nothing while it is younger than 20 s, measured
      from its first flag, over every run that does not drop the record. */
  lemma {:induction false} SentRecordIsSilent(cs: Callsign, e: Entry, run: seq<Timed>)
    requires IsValidAircraftCallsign(cs)
    requires e.record.Some? && e.record.value.sent && 0 <= e.record.value.ts && AllKeepRecord(run)
    ensures !AnnouncedBy(cs, e, run, e.record.value.ts + MAX_AGE_THRESHOLD_MS - 1)
    decreases |run|
  {
    if run != [] {
      assert run[0] in run;
      SentStepKeepsTime(cs, e, run[0]);
      SentRecordIsSilent(cs, Step(cs, e, run[0]).next, run[1..]);
    }
  }

  lemma SentStepKeepsTime(cs: Callsign, e: Entry, t: Timed)
    requires IsValidAircraftCallsign(cs)
    requires e.record.Some? && e.record.value.sent && 0 <= e.record.value.ts && KeepsRecord(t)
    ensures var out, ts := Step(cs, e, t), e.record.value.ts;
            && out.next.record.Some? && out.next.record.value.sent && out.next.record.value.ts == ts
            && (out.announced ==> ts + MAX_AGE_THRESHOLD_MS <= t.env.now)
  {
    match t.ev
    case Icao(_) =>
      if e.inRange {
        SentSendReady(cs, e, ReceivedIcaoCodes, t.env, 0);
      }
    case FsInn =>
      SentFsInn(cs, e, t.env, 0);
    case Fire(timer) =>
      var rest := e.(timers := e.timers - multiset{timer});
      if timer.Recheck? && rest.inRange {
        SentFsInn(cs, rest.(packet := false), t.env, timer.waits);
        SentSendReady(cs, rest, RecursiveCall, t.env, timer.waits);
      }
    case _ =>
  }

  lemma SentSendReady(cs: Callsign, e: Entry, rf: Flag, env: Env, waits: nat)
    requires IsValidAircraftCallsign(cs) && e.inRange
    requires e.record.Some? && e.record.value.sent && 0 <= e.record.value.ts
    ensures var out, ts := SendReady(cs, e, rf, env, waits), e.record.value.ts;
            && out.next.record.Some? && out.next.record.value.sent && out.next.record.value.ts == ts
            && (out.announced ==> ts + MAX_AGE_THRESHOLD_MS <= env.now)
  {
  }

  lemma SentFsInn(cs: Callsign, e: Entry, env: Env, waits: nat)
    requires IsValidAircraftCallsign(cs)
    requires e.record.Some? && e.record.value.sent && 0 <= e.record.value.ts
    ensures var out, ts := FsInnReceived(cs, e, env, waits), e.record.value.ts;
            && out.next.record.Some? && out.next.record.value.sent && out.next.record.value.ts == ts
            && (out.announced ==> ts + MAX_AGE_THRESHOLD_MS <= env.now)
  {
    if e.inRange {
      var r := RecordOf(e).AddFlag(ReceivedFsInnPacket, env.now);
      SentSendReady(cs, e.(record := Some(r)), ReceivedFsInnPacket, env, waits);
    }
  }

  /** One record announces at most once in the 20 s from its first flag: after an announcement
      every further one comes at that age or later, as long as the record persists. */
  lemma AnnouncedOncePerRecord(cs: Callsign, e: Entry, t: Timed, run: seq<Timed>)
    requires IsValidAircraftCallsign(cs) && Step(cs, e, t).announced && 0 <= t.env.now && AllKeepRecord(run)
    ensures var next := Step(cs, e, t).next;
            && next.record.Some?
            && (e.record.Some? && 0 <= e.record.value.ts ==> next.record.value.ts == e.record.value.ts)
            && !AnnouncedBy(cs, next, run, next.record.value.ts + MAX_AGE_THRESHOLD_MS - 1)
  {
    AnnouncingMarksRecord(cs, e, t);
    SentRecordIsSilent(cs, Step(cs, e, t).next, run);
  }

  lemma SendReadyMarksRecord(cs: Callsign, e: Entry, rf: Flag, env: Env, waits: nat)
    requires 0 <= env.now
    ensures var out := SendReady(cs, e, rf, env, waits);
            out.announced ==>
              && out.next.record.Some? && out.next.record.value.sent && 0 <= out.next.record.value.ts
              && (e.record.Some? && 0 <= e.record.value.ts ==> out.next.record.value.ts == e.record.value.ts)
  {
  }

  lemma AnnouncingMarksRecord(cs: Callsign, e: Entry, t: Timed)
    requires Step(cs, e, t).announced && 0 <= t.env.now
    ensures var r := Step(cs, e, t).next.record;
            && r.Some? && r.value.sent && 0 <= r.value.ts
            && (e.record.Some? && 0 <= e.record.value.ts ==> r.value.ts == e.record.value.ts)
  {
    match t.ev
    case Icao(_) =>
      SendReadyMarksRecord(cs, e, ReceivedIcaoCodes, t.env, 0);
    case FsInn =>
      FsInnMarksRecord(cs, e, t.env, 0);
    case Fire(timer) =>
      var rest := e.(timers := e.timers - multiset{timer});
      if timer.Verify? {
        VerifyMarksRecord(cs, rest, t.env);
      } else {
        FsInnMarksRecord(cs, rest.(packet := false), t.env, timer.waits);
        SendReadyMarksRecord(cs, rest, RecursiveCall, t.env, timer.waits);
      }
    case _ =>
  }

  lemma FsInnMarksRecord(cs: Callsign, e: Entry, env: Env, waits: nat)
    requires 0 <= env.now
    ensures var out := FsInnReceived(cs, e, env, waits);
            out.announced ==>
              && out.next.record.Some? && out.next.record.value.sent && 0 <= out.next.record.value.ts
              && (e.record.Some? && 0 <= e.record.value.ts ==> out.next.record.value.ts == e.record.value.ts)
  {
    var r := RecordOf(e).AddFlag(ReceivedFsInnPacket, env.now);
    SendReadyMarksRecord(cs, e.(record := Some(r)), ReceivedFsInnPacket, env, waits);
  }

  lemma VerifyMarksRecord(cs: Callsign, e: Entry, env: Env)
    requires 0 <= env.now
    ensures var out := VerifyIcao(cs, e, env);
            out.announced ==>
              && out.next.record.Some? && out.next.record.value.sent && 0 <= out.next.record.value.ts
              && (e.record.Some? && 0 <= e.record.value.ts ==> out.next.record.value.ts == e.record.value.ts)
  {
    var r := RecordOf(e);
    SendReadyMarksRecord(cs, e.(record := Some(r)), Verified, env, 0);
    SendReadyMarksRecord(cs, e.(record := Some(r.AddFlag(Verified, env.now))), Verified, env, 0);
  }

  /** Because the age counts from the first flag and not from the last announcement, two
      announcements of one record can be one millisecond apart. */
  lemma ReannouncedAtOnce(cs: Callsign) returns (e: Entry, t: Timed, t': Timed)
    requires IsValidAircraftCallsign(cs)
    ensures Legal(cs, e, [t, t'], 0) && t'.env.now == t.env.now + 1
    ensures Step(cs, e, t).announced && Step(cs, Step(cs, e, t).next, t').announced
  {
    e := Entry(true, false, Some(Record(0, true, false, false, false)), false, multiset{});
    t, t' := At(FsInn, QUIET.(now := 19999)), At(Icao(false), QUIET.(now := 20000));
    assert [t, t'][1..] == [t'] && [t'][1..] == [];
  }

  // ---------------------------------------------------------------------------
  // Bounded polling
  // ---------------------------------------------------------------------------

  /** How far a polling chain can have got `ts` being the time of the first flag. */
  ghost predicate ChainsBounded(e: Entry, ts: int) {
    && e.record.Some? && e.record.value.ts == ts
    && forall t | t in e.timers && t.Recheck? ::
         ts + CHECK_AGAIN_MS * t.waits <= t.due <= ts + MAX_AGE_MS + CHECK_AGAIN_MS
  }

  lemma SendReadyKeepsBound(cs: Callsign, e: Entry, rf: Flag, env: Env, waits: nat, ts: int)
    requires IsValidAircraftCallsign(cs) && e.inRange && ChainsBounded(e, ts) && 0 <= ts
    requires ts + CHECK_AGAIN_MS * waits <= env.now
    ensures ChainsBounded(SendReady(cs, e, rf, env, waits).next, ts)
  {
  }

  lemma StepKeepsBound(cs: Callsign, e: Entry, t: Timed, slack: nat, ts: int)
    requires IsValidAircraftCallsign(cs) && ChainsBounded(e, ts) && 0 <= ts <= t.env.now
    requires KeepsRecord(t) && Punctual(e, t, slack)
    ensures ChainsBounded(Step(cs, e, t).next, ts)
  {
    match t.ev
    case Icao(_) =>
      if e.inRange {
        SendReadyKeepsBound(cs, e, ReceivedIcaoCodes, t.env, 0, ts);
      }
    case FsInn =>
      FsInnKeepsBound(cs, e, t.env, 0, ts);
    case Fire(timer) =>
      TimerKeepsBound(cs, e, timer, t.env, ts);
    case _ =>
  }

  lemma TimerKeepsBound(cs: Callsign, e: Entry, timer: Timer, env: Env, ts: int)
    requires IsValidAircraftCallsign(cs) && ChainsBounded(e, ts) && 0 <= ts <= env.now
    requires timer in e.timers && timer.due <= env.now
    ensures ChainsBounded(Step(cs, e, At(Fire(timer), env)).next, ts)
  {
    var rest := e.(timers := e.timers - multiset{timer});
    assert ChainsBounded(rest, ts);
    if rest.inRange {
      if timer.Recheck? {
        FsInnKeepsBound(cs, rest.(packet := false), env, timer.waits, ts);
        SendReadyKeepsBound(cs, rest, RecursiveCall, env, timer.waits, ts);
      } else {
        SendReadyKeepsBound(cs, rest, Verified, env, 0, ts);
        var v := RecordOf(rest).AddFlag(Verified, env.now);
        SendReadyKeepsBound(cs, rest.(record := Some(v)), Verified, env, 0, ts);
      }
    }
  }

  lemma FsInnKeepsBound(cs: Callsign, e: Entry, env: Env, waits: nat, ts: int)
    requires IsValidAircraftCallsign(cs) && ChainsBounded(e, ts) && 0 <= ts
    requires ts + CHECK_AGAIN_MS * waits <= env.now
    ensures ChainsBounded(FsInnReceived(cs, e, env, waits).next, ts)
  {
    if e.inRange {
      var r := RecordOf(e).AddFlag(ReceivedFsInnPacket, env.now);
      SendReadyKeepsBound(cs, e.(record := Some(r)), ReceivedFsInnPacket, env, waits, ts);
    }
  }

  lemma {:induction false} ChainsStayBounded(cs: Callsign, e: Entry, run: seq<Timed>, slack: nat, ts: int)
    requires IsValidAircraftCallsign(cs) && Legal(cs, e, run, slack)
    requires 0 <= ts && ChainsBounded(e, ts)
    requires AllKeepRecord(run) && forall t | t in run :: ts <= t.env.now
    ensures ChainsBounded(Final(cs, e, run), ts)
    decreases |run|
  {
    if run != [] {
      assert run[0] in run;
      StepKeepsBound(cs, e, run[0], slack, ts);
      ChainsStayBounded(cs, Step(cs, e, run[0]).next, run[1..], slack, ts);
    }
  }

  /** While a record with a set timestamp persists, no polling chain makes more than four waits,
      and none waits longer than until 8 s after the first flag. */
  lemma PollingIsBounded(cs: Callsign, e: Entry, run: seq<Timed>, slack: nat)
    requires IsValidAircraftCallsign(cs) && Legal(cs, e, run, slack)
    requires e.record.Some? && 0 <= e.record.value.ts && forall t | t in e.timers :: t.Verify?
    requires AllKeepRecord(run) && forall t | t in run :: e.record.value.ts <= t.env.now
    ensures forall t | t in Final(cs, e, run).timers && t.Recheck? ::
              t.waits <= 4 && t.due <= e.record.value.ts + 4 * CHECK_AGAIN_MS
  {
    ChainsStayBounded(cs, e, run, slack, e.record.value.ts);
  }
}
