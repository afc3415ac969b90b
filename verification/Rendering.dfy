/** Which remote aircraft the simulator renders: the restriction snapshots of the analyzer thread
    and their handling in `ISimulator`. */
module Rendering {
  import opened Basics

  const INFINITE_AIRCRAFT := 100

  /** `maxDistanceNM` is `None` for a null distance (no distance limit). */
  datatype Setup = Setup(maxAircraft: int, maxDistanceNM: Option<int>) {
    predicate RenderingEnabled() {
      1 <= maxAircraft && (maxDistanceNM.Some? ==> 0 < maxDistanceNM.value)
    }

    predicate RenderingRestricted() {
      RenderingEnabled() && (maxAircraft < INFINITE_AIRCRAFT || maxDistanceNM.Some?)
    }
  }

  datatype Aircraft = Aircraft(cs: Callsign, enabled: bool, validModel: bool, distanceNM: int)

  type Provider = p: map<Callsign, Aircraft> | forall cs | cs in p :: p[cs].cs == cs witness map[]

  function EnabledInRange(p: Provider): set<Callsign> {
    set cs | cs in p && p[cs].enabled
  }

  // ---------------------------------------------------------------------------
  // Snapshots
  // ---------------------------------------------------------------------------

  /** A valid snapshot; `enabled` are the callsigns to be rendered, nearest first. */
  datatype Snapshot = Snapshot(restricted: bool, renderingEnabled: bool, restrictionChanged: bool,
                               enabled: seq<Callsign>)

  predicate Nearest(aircraft: seq<Aircraft>) {
    forall i, j | 0 <= i < j < |aircraft| :: aircraft[i].distanceNM <= aircraft[j].distanceNM
  }

  predicate Qualifies(a: Aircraft, setup: Setup) {
    a.enabled && (setup.RenderingRestricted() && setup.maxDistanceNM.Some? ==> a.distanceNM < setup.maxDistanceNM.value)
  }

  /** The aircraft a setup lets through, in the order of the list. */
  function Qualified(aircraft: seq<Aircraft>, setup: Setup): (q: seq<Aircraft>)
    ensures forall a :: a in q <==> a in aircraft && Qualifies(a, setup)
    ensures Nearest(aircraft) ==> Nearest(q)
  {
    if aircraft == [] then []
    else
      var n := |aircraft| - 1;
      var front := Qualified(aircraft[..n], setup);
      assert aircraft == aircraft[..n] + [aircraft[n]];
      assert Nearest(aircraft) ==> forall a | a in aircraft[..n] :: a.distanceNM <= aircraft[n].distanceNM;
      if Qualifies(aircraft[n], setup) then front + [aircraft[n]] else front
  }

  function Callsigns(aircraft: seq<Aircraft>): (r: seq<Callsign>)
    ensures |r| == |aircraft| && forall i | 0 <= i < |r| :: r[i] == aircraft[i].cs
  {
    seq(|aircraft|, i requires 0 <= i < |aircraft| => aircraft[i].cs)
  }

  /** How many of `n` qualified aircraft a setup renders. */
  function Rendered(n: nat, setup: Setup): nat {
    if setup.RenderingRestricted() && setup.maxAircraft < n then setup.maxAircraft else n
  }

  /** Builds the lists of the snapshot, `aircraft` being sorted by distance. */
  method TakeSnapshot(aircraft: seq<Aircraft>, setup: Setup) returns (snapshot: Snapshot, disabled: seq<Callsign>)
    ensures snapshot.restricted == setup.RenderingRestricted()
    ensures snapshot.renderingEnabled == setup.RenderingEnabled() && !snapshot.restrictionChanged
    ensures var q := Qualified(aircraft, setup);
            snapshot.enabled == Callsigns(q[..Rendered(|q|, setup)])
    ensures |snapshot.enabled| + |disabled| == |aircraft|
    ensures forall a | a in aircraft :: a.cs in snapshot.enabled || a.cs in disabled
  {
    var enabled: seq<Callsign> := [];
    disabled := [];
    var restricted := setup.RenderingRestricted();
    ghost var q: seq<Aircraft> := [];
    for i := 0 to |aircraft|
      invariant q == Qualified(aircraft[..i], setup)
      invariant enabled == Callsigns(q[..Rendered(|q|, setup)])
      invariant |enabled| + |disabled| == i
      invariant forall k | 0 <= k < i :: aircraft[k].cs in enabled || aircraft[k].cs in disabled
    {
      var a := aircraft[i];
      assert aircraft[..i + 1][..i] == aircraft[..i];
      ghost var was := q;
      q := Qualified(aircraft[..i + 1], setup);
      if !a.enabled {
        disabled := disabled + [a.cs];
      } else if restricted && (|enabled| >= setup.maxAircraft
                               || (setup.maxDistanceNM.Some? && a.distanceNM >= setup.maxDistanceNM.value)) {
        disabled := disabled + [a.cs];
        assert q[..Rendered(|q|, setup)] == was[..Rendered(|was|, setup)];
      } else {
        assert q == was + [a];
        assert q[..Rendered(|q|, setup)] == was[..Rendered(|was|, setup)] + [a];
        enabled := enabled + [a.cs];
      }
    }
    assert aircraft[..|aircraft|] == aircraft;
    snapshot := Snapshot(restricted, setup.RenderingEnabled(), false, enabled);
  }

  /** The snapshot of a sorted list; the flag compares with the snapshot before it, if any. */
  function MakeSnapshot(aircraft: seq<Aircraft>, setup: Setup, latest: Option<Snapshot>): Snapshot {
    var q := Qualified(aircraft, setup);
    var restricted, enabled := setup.RenderingRestricted(), setup.RenderingEnabled();
    Snapshot(restricted, enabled,
             latest.Some? && (latest.value.restricted != restricted || latest.value.renderingEnabled != enabled),
             Callsigns(q[..Rendered(|q|, setup)]))
  }

  /** `order` lists the aircraft in range, nearest first. */
  ghost predicate Sorted(order: seq<Aircraft>, p: Provider) {
    Nearest(order) && (forall a :: a in order <==> a.cs in p && p[a.cs] == a)
  }

  lemma NamedFromFront(order: seq<Aircraft>, p: Provider, setup: Setup)
    requires Sorted(order, p)
    ensures var q := Qualified(order, setup);
            var enabled := Callsigns(q[..Rendered(|q|, setup)]);
            && (forall i | 0 <= i < |enabled| :: enabled[i] in p && p[enabled[i]] == q[i] && q[i] in order)
            && (forall cs | cs in p && Qualifies(p[cs], setup) && cs !in enabled ::
                  |enabled| < |q| && forall i | 0 <= i < |enabled| :: q[i].distanceNM <= p[cs].distanceNM)
  {
    var q := Qualified(order, setup);
    var enabled := Callsigns(q[..Rendered(|q|, setup)]);
    forall i | 0 <= i < |enabled| ensures enabled[i] in p && p[enabled[i]] == q[i] && q[i] in order {
      assert q[i] in q;
    }
    forall cs | cs in p && Qualifies(p[cs], setup) && cs !in enabled
      ensures |enabled| < |q| && forall i | 0 <= i < |enabled| :: q[i].distanceNM <= p[cs].distanceNM
    {
      assert p[cs].cs == cs && p[cs] in order;
      assert p[cs] in q;
      var j :| 0 <= j < |q| && q[j] == p[cs];
      assert forall i | 0 <= i < |enabled| :: q[i].cs == enabled[i] != cs;
    }
  }

  /** Which aircraft a snapshot names, nearest first. With a restriction of number or distance: only
      enabled aircraft, nearer than the limit, at most the allowed number; and one that is left
      out although it is enabled and near enough is no nearer than any named, while the number is
      used up. Without: exactly the enabled aircraft. */
  lemma SnapshotNamesNearest(order: seq<Aircraft>, p: Provider, setup: Setup, latest: Option<Snapshot>)
    requires Sorted(order, p)
    ensures var enabled, limit := MakeSnapshot(order, setup, latest).enabled, setup.maxDistanceNM;
            && (forall cs | cs in enabled :: cs in p && p[cs].enabled)
            && (forall i, j | 0 <= i < j < |enabled| :: p[enabled[i]].distanceNM <= p[enabled[j]].distanceNM)
            && if setup.maxAircraft < 1 || (if limit.Some? then limit.value <= 0 else setup.maxAircraft >= 100)
               then forall cs | cs in p && p[cs].enabled :: cs in enabled
               else
                 && |enabled| <= setup.maxAircraft
                 && (limit.Some? ==> forall cs | cs in enabled :: p[cs].distanceNM < limit.value)
                 && forall cs | cs in p && p[cs].enabled && (limit.Some? ==> p[cs].distanceNM < limit.value)
                                && cs !in enabled ::
                      |enabled| == setup.maxAircraft
                      && forall near | near in enabled :: p[near].distanceNM <= p[cs].distanceNM
  {
    var q := Qualified(order, setup);
    var enabled := MakeSnapshot(order, setup, latest).enabled;
    NamedFromFront(order, p, setup);
    forall cs | cs in enabled ensures cs in p && Qualifies(p[cs], setup) {
      var i :| 0 <= i < |enabled| && enabled[i] == cs;
      assert q[i] in q;
    }
  }

  /** The analyzer side: the restrictions as last set and the latest snapshot. */
  class SnapshotSource {
    var restrictions: Setup
    var latest: Option<Snapshot>

    constructor (setup: Setup)
      ensures restrictions == setup && latest == None
    {
      restrictions, latest := setup, None;
    }

    method SetSimulatorRenderRestrictionsChanged(setup: Setup)
      modifies this`restrictions
      ensures restrictions == setup
    {
      restrictions := setup;
    }

    method Clear()
      modifies this`latest
      ensures latest == None
    {
      latest := None;
    }

    /** Emits the new snapshot, except the first one after construction or `clear`. */
    method AnalyzeAirspace(aircraft: seq<Aircraft>) returns (emitted: Option<Snapshot>)
      modifies this`latest
      ensures latest == Some(MakeSnapshot(aircraft, restrictions, old(latest)))
      ensures emitted == if old(latest).Some? then latest else None
    {
      var snapshot, _ := TakeSnapshot(aircraft, restrictions);
      if latest.None? {
        latest := Some(snapshot);
        return None;
      }
      var changed := latest.value.restricted != snapshot.restricted
                     || latest.value.renderingEnabled != snapshot.renderingEnabled;
      latest := Some(snapshot.(restrictionChanged := changed));
      return latest;
    }
  }

  // ---------------------------------------------------------------------------
  // The simulator driver
  // ---------------------------------------------------------------------------

  /** `lastSent` are the callsigns with remembered last sent values; the two counters are those of
      the driver statistics. */
  datatype Sim = Sim(rendered: set<Callsign>, lastSent: set<Callsign>, statsAdded: int, statsRemoved: int)

  function RemoveAll(s: Sim, css: set<Callsign>): Sim {
    Sim(s.rendered - css, s.lastSent - css, s.statsAdded, s.statsRemoved + |css|)
  }

  function AddAll(s: Sim, css: set<Callsign>): Sim {
    s.(rendered := s.rendered + css, statsAdded := s.statsAdded + |css|)
  }

  function LogicallyAdd(s: Sim, setup: Setup, a: Aircraft): Sim {
    if !a.validModel || !a.enabled || setup.RenderingRestricted() then s else AddAll(s, {a.cs})
  }

  /** Line 68 counts the removal among the added aircraft, too. */
  function LogicallyRemove(s: Sim, setup: Setup, cs: Callsign): Sim {
    if setup.RenderingRestricted() then s else RemoveAll(s.(statsAdded := s.statsAdded + 1), {cs})
  }

  predicate Ignored(snapshot: Snapshot) {
    !snapshot.restricted && !snapshot.restrictionChanged
  }

  function Wanted(snapshot: Snapshot, p: Provider): set<Callsign> {
    set cs | cs in snapshot.enabled && cs in p
  }

  function HandleSnapshot(s: Sim, snapshot: Snapshot, p: Provider): Sim {
    if Ignored(snapshot) then s
    else if snapshot.renderingEnabled then
      var wanted := Wanted(snapshot, p);
      Sim(wanted, s.lastSent - (s.rendered - wanted),
          s.statsAdded + |wanted - s.rendered|, s.statsRemoved + |s.rendered - wanted|)
    else
      // the default implementation removes the aircraft in range and resets all statistics
      Sim(s.rendered - p.Keys, {}, 0, 0)
  }

  class Simulator {
    var rendered: set<Callsign>
    var lastSent: set<Callsign>
    var statsPhysicallyAddedAircraft: int
    var statsPhysicallyRemovedAircraft: int
    var setup: Setup

    ghost function View(): Sim
      reads this
    {
      Sim(rendered, lastSent, statsPhysicallyAddedAircraft, statsPhysicallyRemovedAircraft)
    }

    constructor (setup: Setup)
      ensures this.setup == setup && View() == Sim({}, {}, 0, 0)
    {
      this.setup := setup;
      rendered, lastSent, statsPhysicallyAddedAircraft, statsPhysicallyRemovedAircraft := {}, {}, 0, 0;
    }

    /** The driver is taken to add the aircraft at once. */
    method CallPhysicallyAddRemoteAircraft(cs: Callsign)
      modifies this`rendered, this`statsPhysicallyAddedAircraft
      ensures View() == AddAll(old(View()), {cs})
    {
      statsPhysicallyAddedAircraft := statsPhysicallyAddedAircraft + 1;
      rendered := rendered + {cs};
    }

    method CallPhysicallyRemoveRemoteAircraft(cs: Callsign)
      modifies this`rendered, this`lastSent, this`statsPhysicallyRemovedAircraft
      ensures View() == RemoveAll(old(View()), {cs})
    {
      statsPhysicallyRemovedAircraft := statsPhysicallyRemovedAircraft + 1;
      lastSent := lastSent - {cs};
      rendered := rendered - {cs};
    }

    method LogicallyAddRemoteAircraft(a: Aircraft) returns (added: bool)
      modifies this`rendered, this`statsPhysicallyAddedAircraft
      ensures View() == LogicallyAdd(old(View()), setup, a)
      ensures added <==> a.validModel && a.enabled && !setup.RenderingRestricted()
    {
      if !a.validModel { return false; }
      if !a.enabled { return false; }
      if !setup.RenderingRestricted() {
        CallPhysicallyAddRemoteAircraft(a.cs);
        return true;
      }
      return false;
    }

    method LogicallyRemoveRemoteAircraft(cs: Callsign) returns (removed: bool)
      modifies this`rendered, this`lastSent, this`statsPhysicallyAddedAircraft, this`statsPhysicallyRemovedAircraft
      ensures View() == LogicallyRemove(old(View()), setup, cs) && removed == !setup.RenderingRestricted()
    {
      if !setup.RenderingRestricted() {
        statsPhysicallyAddedAircraft := statsPhysicallyAddedAircraft + 1;
        CallPhysicallyRemoveRemoteAircraft(cs);
        return true;
      }
      return false;
    }

    method PhysicallyRemoveMultipleRemoteAircraft(callsigns: set<Callsign>) returns (removed: nat)
      modifies this`rendered, this`lastSent, this`statsPhysicallyRemovedAircraft
      ensures View() == RemoveAll(old(View()), callsigns) && removed == |callsigns|
    {
      removed := 0;
      var rest := callsigns;
      while rest != {}
        invariant rest <= callsigns && removed == |callsigns| - |rest|
        invariant rendered - rest == old(rendered) - callsigns
        invariant lastSent - rest == old(lastSent) - callsigns
        invariant statsPhysicallyRemovedAircraft == old(statsPhysicallyRemovedAircraft) + removed
        decreases rest
      {
        var cs :| cs in rest;
        rest := rest - {cs};
        CallPhysicallyRemoveRemoteAircraft(cs);
        removed := removed + 1;
      }
    }

    method PhysicallyAddMultipleRemoteAircraft(callsigns: set<Callsign>)
      modifies this`rendered, this`statsPhysicallyAddedAircraft
      ensures View() == AddAll(old(View()), callsigns)
    {
      var rest := callsigns;
      while rest != {}
        invariant rest <= callsigns
        invariant rendered + rest == old(rendered) + callsigns
        invariant statsPhysicallyAddedAircraft == old(statsPhysicallyAddedAircraft) + |callsigns| - |rest|
        decreases rest
      {
        var cs :| cs in rest;
        rest := rest - {cs};
        CallPhysicallyAddRemoteAircraft(cs);
      }
    }

    method PhysicallyRemoveAllRemoteAircraft(p: Provider) returns (removed: nat)
      modifies this
      ensures setup == old(setup)
      ensures View() == Sim(old(rendered) - p.Keys, {}, 0, 0) && removed == |p|
    {
      removed := PhysicallyRemoveMultipleRemoteAircraft(p.Keys);
      lastSent, statsPhysicallyAddedAircraft, statsPhysicallyRemovedAircraft := {}, 0, 0;
    }

    /** Handles a valid snapshot against the aircraft in range now; `handled` is whether
        `airspaceSnapshotHandled` is emitted. */
    method OnRecalculatedRenderedAircraft(snapshot: Snapshot, p: Provider) returns (handled: bool)
      modifies this
      ensures setup == old(setup)
      ensures View() == HandleSnapshot(old(View()), snapshot, p)
      ensures handled <==> !Ignored(snapshot) &&
                           if snapshot.renderingEnabled then rendered != old(rendered) else p != map[]
    {
      handled := false;
      if !snapshot.restricted && !snapshot.restrictionChanged { return; }
      if snapshot.renderingEnabled {
        var enabledAndStillInRange := set cs | cs in snapshot.enabled && cs in p;
        handled := RenderExactly(enabledAndStillInRange);
      } else {
        var r := PhysicallyRemoveAllRemoteAircraft(p);
        handled := r > 0;
      }
    }

    method RenderExactly(wanted: set<Callsign>) returns (changed: bool)
      modifies this`rendered, this`lastSent, this`statsPhysicallyAddedAircraft, this`statsPhysicallyRemovedAircraft
      ensures rendered == wanted && lastSent == old(lastSent) - (old(rendered) - wanted)
      ensures statsPhysicallyAddedAircraft == old(statsPhysicallyAddedAircraft) + |wanted - old(rendered)|
      ensures statsPhysicallyRemovedAircraft == old(statsPhysicallyRemovedAircraft) + |old(rendered) - wanted|
      ensures changed <==> rendered != old(rendered)
    {
      changed := false;
      var toBeRemoved := rendered - wanted;
      var toBeAdded := wanted - rendered;
      assert rendered - toBeRemoved == rendered * wanted;
      if toBeRemoved != {} {
        var r := PhysicallyRemoveMultipleRemoteAircraft(toBeRemoved);
        changed := r > 0;
      } else {
        assert rendered - {} == rendered;
      }
      assert lastSent == old(lastSent) - toBeRemoved;
      if toBeAdded != {} {
        PhysicallyAddMultipleRemoteAircraft(toBeAdded);
        changed := true;
      }
      assert old(rendered) * wanted + toBeAdded == wanted;
      assert old(rendered) == wanted <==> toBeRemoved == {} && toBeAdded == {};
    }
  }
}
