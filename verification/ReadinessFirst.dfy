/** When exactly an aircraft is announced for the first time in a stay, told by the packets that have
    come and the timers that have fired. */
module ReadinessFirst {
  import opened Basics
  import opened Readiness
  import opened ReadinessRuns

  // ---------------------------------------------------------------------------
  // What has happened in a stay
  // ---------------------------------------------------------------------------

  predicate IsVerify(ev: Event) {
    ev.Fire? && ev.timer.Verify?
  }

  /** A polling timer that takes a kept FsInn packet, if there is one. */
  predicate MayRecall(ev: Event) {
    ev.Fire? && ev.timer.Recheck? && ev.timer.rf != ReceivedFsInnPacket
  }

  predicate HeardIcao(run: seq<Timed>) {
    exists t :: t in run && t.ev.Icao?
  }

  /** An FsInn packet has come, or the one `kept` from before the stay was recalled. */
  predicate HeardFsInn(run: seq<Timed>, kept: bool) {
    exists t :: t in run && (t.ev.FsInn? || (kept && MayRecall(t.ev)))
  }

  predicate VerifyFired(run: seq<Timed>) {
    exists t :: t in run && IsVerify(t.ev)
  }

  /** The time of the first packet heard or verify timer fired. */
  function FirstFlag(run: seq<Timed>, kept: bool): Option<int> {
    if run == [] then None
    else
      var before, t := FirstFlag(run[..|run| - 1], kept), run[|run| - 1];
      if before.Some? then before
      else if t.ev.Icao? || t.ev.FsInn? || IsVerify(t.ev) || (kept && MayRecall(t.ev)) then Some(t.env.now)
      else None
  }

  /** What a stay has come to know. */
  datatype Known = Known(first: Option<int>, icao: bool, fsInn: bool, verified: bool)

  ghost function KnownOf(run: seq<Timed>, kept: bool): Known {
    Known(FirstFlag(run, kept), HeardIcao(run), HeardFsInn(run, kept), VerifyFired(run))
  }

  function Learn(k: Known, t: Timed, kept: bool): Known {
    var icao, fsInn, verify := t.ev.Icao?, t.ev.FsInn? || (kept && MayRecall(t.ev)), IsVerify(t.ev);
    Known(if k.first.None? && (icao || fsInn || verify) then Some(t.env.now) else k.first,
          k.icao || icao, k.fsInn || fsInn, k.verified || verify)
  }

  lemma KnownSnoc(run: seq<Timed>, t: Timed, kept: bool)
    ensures KnownOf(run + [t], kept) == Learn(KnownOf(run, kept), t, kept)
  {
    assert forall u :: u in run + [t] <==> u in run || u == t;
    assert (run + [t])[..|run|] == run;
  }

  lemma {:induction false} FinalSnoc(cs: Callsign, e: Entry, run: seq<Timed>, t: Timed)
    ensures Final(cs, e, run + [t]) == Step(cs, Final(cs, e, run), t).next
    decreases |run|
  {
    if run == [] {
      assert [] + [t] == [t];
      assert [t][1..] == [];
    } else {
      FinalSnoc(cs, Step(cs, e, run[0]).next, run[1..], t);
      assert (run + [t])[1..] == run[1..] + [t];
    }
  }

  /** No step of the run announces. */
  predicate Silent(cs: Callsign, e: Entry, run: seq<Timed>) {
    forall i | 0 <= i < |run| :: !Step(cs, Final(cs, e, run[..i]), run[i]).announced
  }

  predicate Staying(run: seq<Timed>) {
    forall t | t in run :: Steady(t) && 0 <= t.env.now
  }

  // ---------------------------------------------------------------------------
  // The record tells what has happened
  // ---------------------------------------------------------------------------

  /** The record and the kept packet are what the events of the stay have made them. */
  predicate Tells(e: Entry, k: Known, kept: bool) {
    && e.inRange
    && RecordOf(e) == Record(if k.first.Some? then k.first.value else -1, k.icao, k.fsInn, false, k.verified)
    && (e.packet ==> kept) && (kept && !e.packet ==> k.fsInn)
    && (k.first.Some? <==> k.icao || k.fsInn || k.verified) && (k.first.Some? ==> 0 <= k.first.value)
  }

  /** Enough is known at an event, or the first flag is older than 6 s. */
  predicate Due(k: Known, env: Env) {
    || (k.first.Some? && env.now - k.first.value > 6000)
    || (env.minSituations && (env.hasModelString || (k.icao && k.fsInn)))
  }

  lemma SendReadyTells(cs: Callsign, e: Entry, rf: Flag, env: Env, waits: nat, k: Known, kept: bool)
    requires IsValidAircraftCallsign(cs) && e.inRange && env.connected && 0 <= env.now && rf != Verified
    requires Tells(e.(record := Some(RecordOf(e).AddFlag(rf, env.now))), k, kept)
    ensures var out := SendReady(cs, e, rf, env, waits);
            (out.announced <==> Due(k, env)) && (!out.announced ==> Tells(out.next, k, kept))
  {
  }

  lemma FsInnTells(cs: Callsign, e: Entry, env: Env, waits: nat, k: Known, kept: bool)
    requires IsValidAircraftCallsign(cs) && e.inRange && env.connected && 0 <= env.now
    requires Tells(e.(record := Some(RecordOf(e).AddFlag(ReceivedFsInnPacket, env.now))), k, kept)
    ensures var out := FsInnReceived(cs, e, env, waits);
            (out.announced <==> Due(k, env)) && (!out.announced ==> Tells(out.next, k, kept))
  {
    var r := RecordOf(e).AddFlag(ReceivedFsInnPacket, env.now);
    SendReadyTells(cs, e.(record := Some(r)), ReceivedFsInnPacket, env, waits, k, kept);
  }

  /** What a step that does not announce leaves, and when it announces. */
  lemma StepTells(cs: Callsign, e: Entry, k: Known, kept: bool, t: Timed)
    requires IsValidAircraftCallsign(cs) && Tells(e, k, kept) && Steady(t) && 0 <= t.env.now
    ensures var out, k' := Step(cs, e, t), Learn(k, t, kept);
            && (out.announced <==>
                if IsVerify(t.ev) then k.icao || k.verified
                else (t.ev.Icao? || t.ev.FsInn? || (t.ev.Fire? && t.ev.timer.Recheck?)) && Due(k', t.env))
            && (!out.announced ==> Tells(out.next, k', kept))
  {
    var k' := Learn(k, t, kept);
    match t.ev
    case Icao(_) => SendReadyTells(cs, e, ReceivedIcaoCodes, t.env, 0, k', kept);
    case FsInn => FsInnTells(cs, e, t.env, 0, k', kept);
    case Fire(timer) =>
      if timer.Recheck? {
        RecheckTells(cs, e, k, kept, t);
      }
    case _ =>
  }

  lemma RecheckTells(cs: Callsign, e: Entry, k: Known, kept: bool, t: Timed)
    requires IsValidAircraftCallsign(cs) && Tells(e, k, kept) && Steady(t) && 0 <= t.env.now
    requires t.ev.Fire? && t.ev.timer.Recheck?
    ensures var out, k' := Step(cs, e, t), Learn(k, t, kept);
            (out.announced <==> Due(k', t.env)) && (!out.announced ==> Tells(out.next, k', kept))
  {
    var rest, waits := e.(timers := e.timers - multiset{t.ev.timer}), t.ev.timer.waits;
    if MayRecall(t.ev) && e.packet {
      FsInnTells(cs, rest.(packet := false), t.env, waits, Learn(k, t, kept), kept);
    } else {
      SendReadyTells(cs, rest, RecursiveCall, t.env, waits, Learn(k, t, kept), kept);
    }
  }

  lemma {:induction false} StayTells(cs: Callsign, e0: Entry, run: seq<Timed>)
    requires IsValidAircraftCallsign(cs) && e0.inRange && e0.record.None?
    requires Staying(run) && Silent(cs, e0, run)
    ensures Tells(Final(cs, e0, run), KnownOf(run, e0.packet), e0.packet)
    decreases |run|
  {
    if run != [] {
      var front, t := run[..|run| - 1], run[|run| - 1];
      assert run == front + [t];
      assert t in run && forall u | u in front :: u in run;
      assert forall i | 0 <= i < |front| :: front[..i] == run[..i];
      StayTells(cs, e0, front);
      FinalSnoc(cs, e0, front, t);
      KnownSnoc(front, t, e0.packet);
      assert front == run[..|front|];
      StepTells(cs, Final(cs, e0, front), KnownOf(front, e0.packet), e0.packet, t);
    }
  }

  /** From a stay that starts without a record, whatever timers and packet are left of earlier ones,
      the first announcement comes exactly
      - with a packet or polling timer, when there is more than one situation and either a model
        string or both ICAO codes and FsInn packet, or when the first flag is older than 6 s;
      - with a verify timer, when ICAO codes have come or a verify timer has fired before. */
  lemma FirstAnnouncementIff(cs: Callsign, e0: Entry, run: seq<Timed>, t: Timed)
    requires IsValidAircraftCallsign(cs) && e0.inRange && e0.record.None?
    requires Staying(run + [t]) && Silent(cs, e0, run)
    ensures var kept, all := e0.packet, run + [t];
            Step(cs, Final(cs, e0, run), t).announced <==>
            if IsVerify(t.ev) then HeardIcao(run) || VerifyFired(run)
            else
              && (t.ev.Icao? || t.ev.FsInn? || (t.ev.Fire? && t.ev.timer.Recheck?))
              && (|| (FirstFlag(all, kept).Some? && t.env.now - FirstFlag(all, kept).value > 6000)
                  || (t.env.minSituations && (t.env.hasModelString || (HeardIcao(all) && HeardFsInn(all, kept)))))
  {
    assert t in run + [t] && forall u | u in run :: u in run + [t];
    StayTells(cs, e0, run);
    KnownSnoc(run, t, e0.packet);
    StepTells(cs, Final(cs, e0, run), KnownOf(run, e0.packet), e0.packet, t);
  }

  /** Once announced, the aircraft is announced again exactly by the next packet or polling timer at
      least 20 s after the first flag; a verify timer never announces it again. */
  lemma NextAnnouncementIff(cs: Callsign, e: Entry, t: Timed)
    requires IsValidAircraftCallsign(cs) && e.inRange && Steady(t)
    requires e.record.Some? && e.record.value.sent && 0 <= e.record.value.ts
    ensures Step(cs, e, t).announced <==>
            && (t.ev.Icao? || t.ev.FsInn? || (t.ev.Fire? && t.ev.timer.Recheck?))
            && t.env.now - e.record.value.ts >= 20000
  {
  }

  /** Only an aircraft in range with a valid callsign is ever announced, and only while connected. */
  lemma OnlyValidIsAnnounced(cs: Callsign, e: Entry, t: Timed)
    requires Step(cs, e, t).announced
    ensures IsValidAircraftCallsign(cs) && e.inRange && t.env.connected
    ensures t.ev.Icao? || t.ev.FsInn? || t.ev.Fire?
  {
  }

  /** An FsInn packet is kept exactly if it comes, while connected, for a callsign that is neither in
      range nor an ATC station; a kept one stays until a polling timer takes it or the session ends. A
      packet that comes while disconnected changes nothing. */
  lemma PacketIsKeptIff(cs: Callsign, e: Entry, t: Timed)
    ensures Step(cs, e, t).next.packet <==>
            || (e.packet && !t.ev.Cleared? && !(e.inRange && MayRecall(t.ev)))
            || (t.ev.FsInn? && t.env.connected && cs.text != "" && !e.inRange && !e.atcOnline)
    ensures !t.env.connected && (t.ev.Icao? || t.ev.FsInn?) ==> Step(cs, e, t) == Outcome(e, false)
  {
  }

  lemma AtcOnlineIff(cs: Callsign, e: Entry, t: Timed)
    ensures Step(cs, e, t).next.atcOnline <==> if t.ev.AtcChanges? then t.ev.online else !t.ev.Cleared? && e.atcOnline
  {
  }

  /** A callsign that does not look like an aircraft's: codes from simulation data, which are hinted as
      an aircraft's, change nothing; those of a packet drop its record, unless it is marked as sent. */
  lemma InvalidCallsign(cs: Callsign, e: Entry, env: Env)
    requires !IsValidAircraftCallsign(cs)
    ensures Step(cs, e, At(Icao(true), env)) == Outcome(e, false)
    ensures cs.text == "" ==> Step(cs, e, At(Icao(false), env)) == Step(cs, e, At(FsInn, env)) == Outcome(e, false)
    ensures cs.text != "" && e.inRange && env.connected && (e.record.Some? ==> !e.record.value.sent) ==>
              Step(cs, e, At(Icao(false), env)) == Outcome(e.(record := None), false)
  {
  }
}
