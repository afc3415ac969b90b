/** When `CAirspaceMonitor` announces an aircraft as ready for model matching: the readiness
    record of a callsign, its FsInn packet, and the single-shot timers that poll and verify. */
module Readiness {
  import opened Basics

  const CHECK_AGAIN_MS := 2000
  const MAX_AGE_MS := 3 * CHECK_AGAIN_MS
  const MAX_AGE_THRESHOLD_MS := 10 * CHECK_AGAIN_MS
  const VERIFY_MS := 12 * CHECK_AGAIN_MS

  datatype Flag = ReceivedIcaoCodes | ReceivedFsInnPacket | ReadyForMatchingSent | RecursiveCall | Verified

  /** The flags set so far with the time of the first one; -1 while no flag was ever added. */
  datatype Record = Record(ts: int, icao: bool, fsInn: bool, sent: bool, verified: bool) {
    function AddFlag(flag: Flag, now: int): Record {
      if flag == RecursiveCall then this
      else
        var timed := if ts < 0 then this.(ts := now) else this;
        match flag
        case ReceivedIcaoCodes => timed.(icao := true)
        case ReceivedFsInnPacket => timed.(fsInn := true)
        case ReadyForMatchingSent => timed.(sent := true)
        case _ => timed.(verified := true)
    }

    function SetFlag(flag: Flag, now: int): Record {
      if flag == RecursiveCall then this else Record(ts, false, false, false, false).AddFlag(flag, now)
    }

    predicate ReceivedAll() {
      icao && fsInn
    }

    function AgeMs(now: int): int {
      if ts < 0 then -1 else now - ts
    }
  }

  const UNTIMED := Record(-1, false, false, false, false)

  /** A pending single-shot timer of one callsign. `waits` counts the waits of the polling chain
      this recheck belongs to; it is bookkeeping of the model. */
  datatype Timer = Verify(due: int) | Recheck(due: int, rf: Flag, waits: nat)

  /** Everything the monitor holds about one callsign. */
  datatype Entry = Entry(inRange: bool, atcOnline: bool, record: Option<Record>, packet: bool, timers: multiset<Timer>)

  /** What a call reads from elsewhere: the clock, the connection, whether the aircraft has more
      than one situation and whether its model has a model string. */
  datatype Env = Env(now: int, connected: bool, minSituations: bool, hasModelString: bool)

  predicate IsValidAircraftCallsign(cs: Callsign) {
    && 2 <= |cs.text| <= 10
    && forall i | 0 <= i < |cs.text| :: 'A' <= cs.text[i] <= 'Z' || '0' <= cs.text[i] <= '9'
  }

  /** The state after a call, and whether it emitted `readyForModelMatching`. */
  datatype Outcome = Outcome(next: Entry, announced: bool)

  function RecordOf(e: Entry): Record {
    if e.record.Some? then e.record.value else UNTIMED
  }

  function SendReady(cs: Callsign, e: Entry, rf: Flag, env: Env, waits: nat): Outcome {
    if !env.connected then Outcome(e, false)
    else
      var r := RecordOf(e).AddFlag(rf, env.now);
      var age := r.AgeMs(env.now);
      if r.sent && age < MAX_AGE_THRESHOLD_MS then Outcome(e.(record := Some(r)), false)
      else
        var validRemote := e.inRange && IsValidAircraftCallsign(cs);
        var complete := validRemote && env.minSituations && (r.ReceivedAll() || env.hasModelString);
        if rf != Verified && validRemote && age <= MAX_AGE_MS && !complete then
          var recheck := Recheck(env.now + CHECK_AGAIN_MS, rf, waits + 1);
          Outcome(e.(record := Some(r), timers := e.timers + multiset{recheck}), false)
        else if validRemote then
          Outcome(e.(record := Some(r.SetFlag(ReadyForMatchingSent, env.now))), true)
        else
          Outcome(e.(record := None), false)
  }

  function VerifyIcao(cs: Callsign, e: Entry, env: Env): Outcome {
    if cs.text == "" || !e.inRange then Outcome(e, false)
    else
      var r := RecordOf(e);
      if r.sent then Outcome(e.(record := Some(r)), false)
      else if r.verified then SendReady(cs, e.(record := Some(r)), Verified, env, 0)
      else
        var v := r.AddFlag(Verified, env.now);
        if !v.icao then
          Outcome(e.(record := Some(v), timers := e.timers + multiset{Verify(env.now + VERIFY_MS)}), false)
        else SendReady(cs, e.(record := Some(v)), Verified, env, 0)
  }

  /** `CCallsign::isValid`: a callsign that is only known as the sender of a packet has no type
      hint and is valid unless it is empty; one hinted as an aircraft's must look like one. */
  predicate IsValid(cs: Callsign, hinted: bool) {
    if hinted then IsValidAircraftCallsign(cs) else cs.text != ""
  }

  function FsInnReceived(cs: Callsign, e: Entry, env: Env, waits: nat): Outcome {
    if !IsValid(cs, false) || !env.connected then Outcome(e, false)
    else if !e.inRange && !e.atcOnline then Outcome(e.(packet := true), false)
    else if e.inRange then
      var r := RecordOf(e).AddFlag(ReceivedFsInnPacket, env.now);
      SendReady(cs, e.(record := Some(r)), ReceivedFsInnPacket, env, waits)
    else Outcome(e, false)
  }

  function IcaoReceived(cs: Callsign, e: Entry, hinted: bool, env: Env): Outcome {
    if !env.connected || !IsValid(cs, hinted) || !e.inRange then Outcome(e, false)
    else SendReady(cs, e, ReceivedIcaoCodes, env, 0)
  }

  /** The body of the polling timer, `waits` waits into its chain. */
  function PollAgain(cs: Callsign, e: Entry, rf: Flag, env: Env, waits: nat): Outcome {
    if !e.inRange then Outcome(e, false)
    else if rf != ReceivedFsInnPacket && e.packet then FsInnReceived(cs, e.(packet := false), env, waits)
    else SendReady(cs, e, RecursiveCall, env, waits)
  }

  datatype Event =
    | Icao(hinted: bool)  // from a packet, or hinted as an aircraft's from simulation data
    | FsInn
    | Fire(timer: Timer)
    | Joins               // added to the aircraft in range
    | PilotGone           // removed by onPilotDisconnected, with its record
    | OutOfRange          // removed by the range test, which leaves the record
    | Cleared             // connection lost: records, packets and stations are dropped
    | AtcChanges(online: bool)

  datatype Timed = At(ev: Event, env: Env)

  function Step(cs: Callsign, e: Entry, t: Timed): Outcome {
    match t.ev
    case Icao(hinted) => IcaoReceived(cs, e, hinted, t.env)
    case FsInn => FsInnReceived(cs, e, t.env, 0)
    case Fire(timer) =>
      var rest := e.(timers := e.timers - multiset{timer});
      match timer {
        case Verify(_) => VerifyIcao(cs, rest, t.env)
        case Recheck(_, rf, waits) => PollAgain(cs, rest, rf, t.env, waits)
      }
    case Joins =>
      Outcome(if e.inRange then e
              else e.(inRange := true, timers := e.timers + multiset{Verify(t.env.now + VERIFY_MS)}), false)
    case PilotGone => Outcome(e.(inRange := false, record := None), false)
    case OutOfRange => Outcome(e.(inRange := false), false)
    case Cleared => Outcome(e.(inRange := false, atcOnline := false, record := None, packet := false), false)
    case AtcChanges(online) => Outcome(e.(atcOnline := online), false)
  }

  // ---------------------------------------------------------------------------
  // The monitor object
  // ---------------------------------------------------------------------------

  /** The part of the monitor that decides readiness. `timers` holds the pending single-shot
      timers by the callsign they captured; `announced` counts `readyForModelMatching`. */
  class ReadinessMonitor {
    var aircraftInRange: set<Callsign>
    var atcStationsOnline: set<Callsign>
    var readiness: map<Callsign, Record>
    var tempFsInnPackets: set<Callsign>
    var timers: map<Callsign, multiset<Timer>>

    constructor ()
      ensures forall cs :: Of(cs) == Entry(false, false, None, false, multiset{})
    {
      aircraftInRange, atcStationsOnline, readiness, tempFsInnPackets, timers := {}, {}, map[], {}, map[];
    }

    ghost function Of(cs: Callsign): Entry
      reads this
    {
      Entry(cs in aircraftInRange, cs in atcStationsOnline,
            if cs in readiness then Some(readiness[cs]) else None,
            cs in tempFsInnPackets,
            if cs in timers then timers[cs] else multiset{})
    }

    /** Nothing but the entry of `cs` has changed. */
    twostate predicate OthersUnchanged(cs: Callsign)
      reads this
    {
      && aircraftInRange - {cs} == old(aircraftInRange) - {cs}
      && atcStationsOnline == old(atcStationsOnline)
      && readiness - {cs} == old(readiness) - {cs}
      && tempFsInnPackets - {cs} == old(tempFsInnPackets) - {cs}
      && timers - {cs} == old(timers) - {cs}
    }

    twostate lemma OtherEntriesKept(cs: Callsign)
      requires OthersUnchanged(cs)
      ensures forall other | other != cs :: Of(other) == old(Of(other))
    {
      forall other | other != cs ensures Of(other) == old(Of(other)) {
        assert other in aircraftInRange - {cs} <==> other in old(aircraftInRange) - {cs};
        assert other in tempFsInnPackets - {cs} <==> other in old(tempFsInnPackets) - {cs};
        assert other in readiness - {cs} <==> other in old(readiness) - {cs};
        assert other in timers - {cs} <==> other in old(timers) - {cs};
        assert other in readiness ==> (readiness - {cs})[other] == readiness[other];
        assert other in timers ==> (timers - {cs})[other] == timers[other];
      }
    }

    method StartTimer(cs: Callsign, timer: Timer)
      modifies this`timers
      ensures Of(cs) == old(Of(cs)).(timers := old(Of(cs)).timers + multiset{timer})
      ensures OthersUnchanged(cs)
    {
      var pending := if cs in timers then timers[cs] else multiset{};
      timers := timers[cs := pending + multiset{timer}];
    }

    method AddMatchingReadinessFlag(cs: Callsign, flag: Flag, now: int) returns (r: Record)
      modifies this`readiness
      ensures r == RecordOf(old(Of(cs))).AddFlag(flag, now)
      ensures Of(cs) == old(Of(cs)).(record := Some(r)) && OthersUnchanged(cs)
    {
      r := if cs in readiness then readiness[cs] else UNTIMED;
      r := r.AddFlag(flag, now);
      readiness := readiness[cs := r];
    }

    /** A write through the reference into the hash, which also enters a missing record. */
    method SetRecord(cs: Callsign, r: Record)
      modifies this`readiness
      ensures Of(cs) == old(Of(cs)).(record := Some(r)) && OthersUnchanged(cs)
    {
      readiness := readiness[cs := r];
    }

    method SendReadyForModelMatching(cs: Callsign, rf: Flag, env: Env, waits: nat) returns (announced: bool)
      modifies this
      ensures Outcome(Of(cs), announced) == SendReady(cs, old(Of(cs)), rf, env, waits)
      ensures OthersUnchanged(cs)
    {
      if !env.connected { return false; }
      var r := AddMatchingReadinessFlag(cs, rf, env.now);
      var ageMs := r.AgeMs(env.now);
      if r.sent && r.AgeMs(env.now) < MAX_AGE_THRESHOLD_MS { return false; }
      var validRemoteCs := cs in aircraftInRange && IsValidAircraftCallsign(cs);
      var complete := validRemoteCs && env.minSituations && (r.ReceivedAll() || env.hasModelString);
      if rf != Verified && validRemoteCs && ageMs <= MAX_AGE_MS && !complete {
        StartTimer(cs, Recheck(env.now + CHECK_AGAIN_MS, rf, waits + 1));
        return false;
      }
      if validRemoteCs {
        readiness := readiness[cs := r.SetFlag(ReadyForMatchingSent, env.now)];
        return true;
      }
      readiness := readiness - {cs};
      return false;
    }

    method VerifyReceivedIcaoData(cs: Callsign, env: Env) returns (announced: bool)
      modifies this
      ensures Outcome(Of(cs), announced) == VerifyIcao(cs, old(Of(cs)), env)
      ensures OthersUnchanged(cs)
    {
      if cs.text == "" || cs !in aircraftInRange { return false; }
      var r := if cs in readiness then readiness[cs] else UNTIMED;
      SetRecord(cs, r);
      if r.sent { return false; }
      if r.verified {
        announced := SendReadyForModelMatching(cs, Verified, env, 0);
        return;
      }
      r := r.AddFlag(Verified, env.now);
      SetRecord(cs, r);
      if !r.icao {
        StartTimer(cs, Verify(env.now + VERIFY_MS));
        return false;
      }
      announced := SendReadyForModelMatching(cs, Verified, env, 0);
    }

    method OnCustomFSInnPacketReceived(cs: Callsign, env: Env, waits: nat) returns (announced: bool)
      modifies this
      ensures Outcome(Of(cs), announced) == FsInnReceived(cs, old(Of(cs)), env, waits)
      ensures OthersUnchanged(cs)
    {
      if !IsValid(cs, false) { return false; }
      if !env.connected { return false; }
      var isAircraft, isAtc := cs in aircraftInRange, cs in atcStationsOnline;
      if !isAircraft && !isAtc {
        tempFsInnPackets := tempFsInnPackets + {cs};
        return false;
      }
      if isAircraft {
        var _ := AddMatchingReadinessFlag(cs, ReceivedFsInnPacket, env.now);
        announced := SendReadyForModelMatching(cs, ReceivedFsInnPacket, env, waits);
        return;
      }
      return false;
    }

    method RecallFsInnPacket(cs: Callsign, env: Env, waits: nat) returns (recalled: bool, announced: bool)
      modifies this
      ensures recalled == old(Of(cs)).packet
      ensures Outcome(Of(cs), announced) ==
              if recalled then FsInnReceived(cs, old(Of(cs)).(packet := false), env, waits)
              else Outcome(old(Of(cs)), false)
      ensures OthersUnchanged(cs)
    {
      if cs !in tempFsInnPackets { return false, false; }
      tempFsInnPackets := tempFsInnPackets - {cs};
      announced := OnCustomFSInnPacketReceived(cs, env, waits);
      recalled := true;
    }

    method OnIcaoCodesReceived(cs: Callsign, hinted: bool, env: Env) returns (announced: bool)
      modifies this
      ensures Outcome(Of(cs), announced) == IcaoReceived(cs, old(Of(cs)), hinted, env)
      ensures OthersUnchanged(cs)
    {
      if !env.connected { return false; }
      if !IsValid(cs, hinted) { return false; }
      if cs !in aircraftInRange { return false; }
      announced := SendReadyForModelMatching(cs, ReceivedIcaoCodes, env, 0);
    }

    method TakeTimer(cs: Callsign, timer: Timer)
      modifies this`timers
      ensures Of(cs) == old(Of(cs)).(timers := old(Of(cs)).timers - multiset{timer})
      ensures OthersUnchanged(cs)
    {
      if cs in timers {
        timers := timers[cs := timers[cs] - multiset{timer}];
      } else {
        assert Of(cs).timers - multiset{timer} == multiset{};
      }
    }

    /** The closure of the polling timer. */
    method CheckAgain(cs: Callsign, rf: Flag, env: Env, waits: nat) returns (announced: bool)
      modifies this
      ensures Outcome(Of(cs), announced) == PollAgain(cs, old(Of(cs)), rf, env, waits)
      ensures OthersUnchanged(cs)
    {
      if cs !in aircraftInRange { return false; }
      if rf != ReceivedFsInnPacket {
        var recalled;
        recalled, announced := RecallFsInnPacket(cs, env, waits);
        if recalled { return; }
      }
      announced := SendReadyForModelMatching(cs, RecursiveCall, env, waits);
    }

    /** The event loop fires a pending timer. */
    method FireTimer(cs: Callsign, timer: Timer, env: Env) returns (announced: bool)
      modifies this
      ensures Outcome(Of(cs), announced) == Step(cs, old(Of(cs)), At(Fire(timer), env))
      ensures forall other | other != cs :: Of(other) == old(Of(other))
    {
      TakeTimer(cs, timer);
      if timer.Verify? {
        announced := VerifyReceivedIcaoData(cs, env);
      } else {
        announced := CheckAgain(cs, timer.rf, env, timer.waits);
      }
      OtherEntriesKept(cs);
    }

    method AddNewAircraftInRange(cs: Callsign, env: Env) returns (added: bool)
      modifies this
      ensures added == !old(Of(cs)).inRange
      ensures Outcome(Of(cs), false) == Step(cs, old(Of(cs)), At(Joins, env))
      ensures OthersUnchanged(cs)
    {
      added := cs !in aircraftInRange;
      if added {
        aircraftInRange := aircraftInRange + {cs};
        StartTimer(cs, Verify(env.now + VERIFY_MS));
      }
    }

    method OnPilotDisconnected(cs: Callsign, env: Env)
      modifies this
      ensures Outcome(Of(cs), false) == Step(cs, old(Of(cs)), At(PilotGone, env))
      ensures OthersUnchanged(cs)
    {
      readiness := readiness - {cs};
      aircraftInRange := aircraftInRange - {cs};
    }

    /** Removal by the range test. */
    method RemoveAircraft(cs: Callsign, env: Env)
      modifies this
      ensures Outcome(Of(cs), false) == Step(cs, old(Of(cs)), At(OutOfRange, env))
      ensures OthersUnchanged(cs)
    {
      aircraftInRange := aircraftInRange - {cs};
    }

    method Clear(env: Env)
      modifies this
      ensures forall cs :: Of(cs) == Step(cs, old(Of(cs)), At(Cleared, env)).next
    {
      readiness, tempFsInnPackets, aircraftInRange, atcStationsOnline := map[], {}, {}, {};
    }
  }
}
