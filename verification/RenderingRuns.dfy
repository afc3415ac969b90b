/** Rendering over runs: the main thread changes aircraft and settings while snapshots of the
    analyzer thread wait in its queue and may be stale when they are handled. */
module RenderingRuns {
  import opened Basics
  import opened Rendering

  /** `seen` are the restrictions as the analyzer has them. */
  datatype System = System(provider: Provider, setup: Setup, sim: Sim,
                           seen: Setup, latest: Option<Snapshot>, queue: seq<Snapshot>)

  datatype Action =
    | Join(a: Aircraft)                     // in range, matched and logically added
    | Leave(cs: Callsign)                   // onPilotDisconnected, with its signal
    | LeaveSilently(cs: Callsign)           // removed by the range test, which signals nothing
    | Enable(cs: Callsign, enabled: bool)
    | SetSetup(setup: Setup)
    | Propagate                             // the restrictions reach the analyzer
    | Produce(order: seq<Aircraft>)
    | Handle

  ghost predicate Enabled(s: System, act: Action) {
    match act
    case Join(a) => a.cs !in s.provider && a.enabled && a.validModel
    case Leave(cs) => cs in s.provider
    case LeaveSilently(cs) => cs in s.provider
    case Enable(cs, _) => cs in s.provider
    case SetSetup(_) => true
    case Propagate => true
    case Produce(order) => Sorted(order, s.provider)
    case Handle => s.queue != []
  }

  /** The driver adds or removes an aircraft that is enabled or disabled, restricted or not. */
  function ChangeEnabled(sim: Sim, cs: Callsign, enabled: bool): Sim {
    if enabled then sim.(rendered := sim.rendered + {cs})
    else sim.(rendered := sim.rendered - {cs}, lastSent := sim.lastSent - {cs})
  }

  function Apply(s: System, act: Action): System {
    match act
    case Join(a) => s.(provider := s.provider[a.cs := a], sim := LogicallyAdd(s.sim, s.setup, a))
    case Leave(cs) => s.(provider := s.provider - {cs}, sim := LogicallyRemove(s.sim, s.setup, cs))
    case LeaveSilently(cs) => s.(provider := s.provider - {cs})
    case Enable(cs, enabled) =>
      if cs in s.provider
      then s.(provider := s.provider[cs := s.provider[cs].(enabled := enabled)],
              sim := ChangeEnabled(s.sim, cs, enabled))
      else s
    case SetSetup(setup) => s.(setup := setup)
    case Propagate => s.(seen := s.setup)
    case Produce(order) =>
      var snapshot := MakeSnapshot(order, s.seen, s.latest);
      s.(latest := Some(snapshot), queue := if s.latest.Some? then s.queue + [snapshot] else s.queue)
    case Handle =>
      if s.queue == [] then s
      else s.(sim := HandleSnapshot(s.sim, s.queue[0], s.provider), queue := s.queue[1..])
  }

  ghost predicate Path(s: System, acts: seq<Action>, s': System)
    decreases |acts|
  {
    if acts == [] then s == s'
    else Enabled(s, acts[0]) && Path(Apply(s, acts[0]), acts[1..], s')
  }

  /** Helper for the runs below: whatever was rendered before, handling a snapshot with rendering on
      leaves exactly the aircraft it names that are still in range. */
  lemma HandlingIsExact(s: System)
    requires s.queue != [] && !Ignored(s.queue[0]) && s.queue[0].renderingEnabled
    ensures var s' := Apply(s, Handle);
            && s'.sim.rendered == Wanted(s.queue[0], s.provider)
            && s'.sim.rendered <= s.provider.Keys
            && |s'.sim.rendered| <= |s.queue[0].enabled|
  {
    RenderedAtMost(s.queue[0].enabled, Wanted(s.queue[0], s.provider));
  }

  lemma {:induction false} RenderedAtMost(named: seq<Callsign>, wanted: set<Callsign>)
    requires forall cs | cs in wanted :: cs in named
    ensures |wanted| <= |named|
  {
    if named != [] {
      RenderedAtMost(named[1..], wanted - {named[0]});
    }
  }

  /** By how much the statistics say that more aircraft are rendered than there are. */
  function Excess(sim: Sim): int {
    sim.statsAdded - sim.statsRemoved - |sim.rendered|
  }

  lemma CardinalityOfDifference(a: set<Callsign>, b: set<Callsign>)
    ensures |a| + |b - a| == |b| + |a - b|
  {
    assert a == (a * b) + (a - b) && b == (a * b) + (b - a);
  }

  /** A snapshot with rendering on keeps the statistics in step with what is rendered. A direct removal,
      which is counted among the added aircraft as well, puts them one ahead for each aircraft that was
      rendered; so does adding one that is still rendered. */
  lemma StatisticsDrift(s: System, act: Action)
    requires Enabled(s, act) && (act.Join? || act.Leave? || act.Handle?)
    requires act.Handle? ==> Ignored(s.queue[0]) || s.queue[0].renderingEnabled
    ensures Excess(Apply(s, act).sim) - Excess(s.sim) ==
            match act
            case Join(a) => if !s.setup.RenderingRestricted() && a.cs in s.sim.rendered then 1 else 0
            case Leave(cs) => if !s.setup.RenderingRestricted() && cs in s.sim.rendered then 1 else 0
            case _ => 0
    ensures act.Handle? ==>
              var before, after := s.sim, Apply(s, act).sim;
              && after.statsAdded - before.statsAdded == |after.rendered - before.rendered|
              && after.statsRemoved - before.statsRemoved == |before.rendered - after.rendered|
  {
    var before, after := s.sim.rendered, Apply(s, act).sim.rendered;
    CardinalityOfDifference(before, after);
    match act
    case Join(a) =>
      assert a.cs in before ==> before + {a.cs} == before;
    case Leave(cs) =>
      assert cs !in before ==> before - {cs} == before;
    case _ =>
  }

  /** Exactly the values last sent to aircraft that are taken off the rendering are forgotten, and all
      of them when rendering is switched off. */
  lemma RemovedIsForgotten(s: System, act: Action, cs: Callsign)
    requires Enabled(s, act) && s.sim.lastSent <= s.sim.rendered
    ensures Apply(s, act).sim.lastSent <= Apply(s, act).sim.rendered
    ensures cs in Apply(s, act).sim.lastSent <==>
            && cs in s.sim.lastSent && cs in Apply(s, act).sim.rendered
            && !(act.Handle? && !Ignored(s.queue[0]) && !s.queue[0].renderingEnabled)
  {
  }

  /** With rendering off, the default driver removes the aircraft in range only: nothing stays
      exactly when nothing rendered had left the range before. */
  lemma SwitchingOffClearsIff(s: System)
    requires s.queue != [] && !Ignored(s.queue[0]) && !s.queue[0].renderingEnabled
    ensures Apply(s, Handle).sim.rendered == {} <==> s.sim.rendered <= s.provider.Keys
  {
    var s' := Apply(s, Handle);
    if cs :| cs in s.sim.rendered && cs !in s.provider {
      assert cs in s'.sim.rendered;
    }
  }

  // ---------------------------------------------------------------------------
  // Without restrictions
  // ---------------------------------------------------------------------------

  predicate Free(setup: Setup) {
    setup.RenderingEnabled() && !setup.RenderingRestricted()
  }

  /** No restriction is set or known to the analyzer, and no snapshot waiting will be acted on. */
  ghost predicate Unrestricted(s: System) {
    && Free(s.setup) && Free(s.seen)
    && (s.latest.Some? ==> !s.latest.value.restricted && s.latest.value.renderingEnabled)
    && (forall snapshot | snapshot in s.queue :: Ignored(snapshot))
  }

  /** The simulator shows exactly the enabled aircraft in range. */
  ghost predicate Exact(s: System) {
    s.sim.rendered == EnabledInRange(s.provider)
  }

  predicate Orderly(act: Action) {
    !act.LeaveSilently? && !act.SetSetup?
  }

  lemma StepUnrestricted(s: System, act: Action)
    requires Unrestricted(s) && Enabled(s, act) && !act.SetSetup?
    ensures Unrestricted(Apply(s, act))
    ensures act.Produce? || act.Handle? || act.Propagate? ==>
              Apply(s, act).sim == s.sim && Apply(s, act).provider == s.provider
  {
  }

  lemma StepKeepsExact(s: System, act: Action)
    requires Unrestricted(s) && Exact(s) && Enabled(s, act) && Orderly(act)
    ensures Unrestricted(Apply(s, act)) && Exact(Apply(s, act))
  {
    StepUnrestricted(s, act);
  }

  /** Without restrictions the direct adds and removals keep the rendering exact for ever. */
  lemma {:induction false} StaysExact(s: System, acts: seq<Action>, s': System)
    requires Unrestricted(s) && Exact(s) && Path(s, acts, s') && forall act | act in acts :: Orderly(act)
    ensures Unrestricted(s') && Exact(s')
    decreases |acts|
  {
    if acts != [] {
      assert acts[0] in acts;
      StepKeepsExact(s, acts[0]);
      StaysExact(Apply(s, acts[0]), acts[1..], s');
    }
  }

  /** Leaving by the range test breaks it: the aircraft stays in the simulator whatever happens to
      the other aircraft, until it joins again or the settings change. */
  lemma {:induction false} SilentLeaverLingers(s: System, acts: seq<Action>, s': System, cs: Callsign)
    requires Unrestricted(s) && cs in s.sim.rendered && cs !in s.provider && Path(s, acts, s')
    requires forall act | act in acts :: !act.SetSetup? && (act.Join? ==> act.a.cs != cs)
    ensures cs in s'.sim.rendered && cs !in s'.provider
    decreases |acts|
  {
    if acts != [] {
      assert acts[0] in acts;
      StepUnrestricted(s, acts[0]);
      SilentLeaverLingers(Apply(s, acts[0]), acts[1..], s', cs);
    }
  }

  // ---------------------------------------------------------------------------
  // Lifting a restriction
  // ---------------------------------------------------------------------------

  /** The snapshot taken without restrictions names exactly the enabled aircraft in range. */
  lemma FreeSnapshotNamesEnabled(order: seq<Aircraft>, p: Provider, setup: Setup, latest: Option<Snapshot>)
    requires Sorted(order, p) && Free(setup)
    ensures forall cs :: cs in MakeSnapshot(order, setup, latest).enabled <==> cs in EnabledInRange(p)
  {
    var q := Qualified(order, setup);
    var snapshot := MakeSnapshot(order, setup, latest);
    assert q[..|q|] == q;
    forall cs ensures cs in snapshot.enabled <==> cs in EnabledInRange(p) {
      if cs in snapshot.enabled {
        var i :| 0 <= i < |q| && q[i].cs == cs;
        assert q[i] in q;
      }
      if cs in EnabledInRange(p) {
        assert p[cs] in order && p[cs] in q;
        var i :| 0 <= i < |q| && q[i] == p[cs];
        assert snapshot.enabled[i] == cs;
      }
    }
  }

  /** The analyzer knows that the last restriction, of number, distance or all rendering, is lifted:
      the next snapshot it takes is the one-time update. */
  ghost predicate Lifted(s: System) {
    && Free(s.setup) && Free(s.seen)
    && s.latest.Some? && (s.latest.value.restricted || !s.latest.value.renderingEnabled)
  }

  /** The one-time update waits behind `i` older snapshots, and none behind it will be acted on. */
  ghost predicate Waits(s: System, update: Snapshot, i: nat) {
    && Free(s.setup) && Free(s.seen)
    && s.latest.Some? && !s.latest.value.restricted && s.latest.value.renderingEnabled
    && i < |s.queue| && s.queue[i] == update
    && (forall k | i < k < |s.queue| :: Ignored(s.queue[k]))
  }

  function Handlings(acts: seq<Action>): nat {
    if acts == [] then 0 else (if acts[0].Handle? then 1 else 0) + Handlings(acts[1..])
  }

  function SetBy(before: Option<bool>, act: Action, cs: Callsign): Option<bool> {
    match act
    case Join(a) => if a.cs == cs then Some(true) else before
    case Enable(changed, enabled) => if changed == cs then Some(enabled) else before
    case Leave(gone) => if gone == cs then None else before
    case LeaveSilently(gone) => if gone == cs then None else before
    case _ => before
  }

  /** What the last join or enabling of a callsign in a run has set, `None` if there was none or if
      the aircraft has left since. */
  function LastSet(before: Option<bool>, acts: seq<Action>, cs: Callsign): Option<bool>
    decreases |acts|
  {
    if acts == [] then before else LastSet(SetBy(before, acts[0], cs), acts[1..], cs)
  }

  /** Snapshots taken without restriction, after one without, are not acted on. */
  lemma WaitsOneStep(s: System, act: Action, update: Snapshot, i: nat)
    requires Waits(s, update, i) && Enabled(s, act) && !act.SetSetup? && (act.Handle? ==> i > 0)
    ensures Waits(Apply(s, act), update, if act.Handle? then i - 1 else i)
  {
  }

  lemma {:induction false} UpdateComesUp(s: System, acts: seq<Action>, s': System, update: Snapshot, i: nat)
    requires Waits(s, update, i) && Path(s, acts, s') && Handlings(acts) == i
    requires forall act | act in acts :: !act.SetSetup?
    ensures Waits(s', update, 0)
    decreases |acts|
  {
    if acts != [] {
      assert acts[0] in acts;
      WaitsOneStep(s, acts[0], update, i);
      UpdateComesUp(Apply(s, acts[0]), acts[1..], s', update, if acts[0].Handle? then i - 1 else i);
    }
  }

  /** How the provider knows an aircraft at the end of a run. */
  lemma {:induction false} ProviderFollows(s: System, acts: seq<Action>, s': System, at: Provider,
                                           before: Option<bool>, cs: Callsign)
    requires Path(s, acts, s')
    requires before.Some? ==> cs in s.provider && s.provider[cs].enabled == before.value
    requires before.None? && cs in s.provider ==> cs in at && at[cs] == s.provider[cs]
    ensures var last := LastSet(before, acts, cs);
            && (last.Some? ==> cs in s'.provider && s'.provider[cs].enabled == last.value)
            && (last.None? && cs in s'.provider ==> cs in at && at[cs] == s'.provider[cs])
    decreases |acts|
  {
    if acts != [] {
      ProviderFollows(Apply(s, acts[0]), acts[1..], s', at, SetBy(before, acts[0], cs), cs);
    }
  }

  /** The whole lifting: the update is taken at `s` and handled after everything older in the queue.
      Whatever happens in between but a change of the settings, the rendering is then exact if and
      only if no join or enabling since has set an aircraft to what it was not at `s`. */
  lemma LiftingIsExactIff(s: System, order: seq<Aircraft>, acts: seq<Action>, s1: System)
    requires Lifted(s) && Enabled(s, Produce(order))
    requires Path(Apply(s, Produce(order)), acts, s1) && Handlings(acts) == |s.queue|
    requires forall act | act in acts :: !act.SetSetup?
    ensures s1.queue != [] && Unrestricted(Apply(s1, Handle))
    ensures Exact(Apply(s1, Handle)) <==>
            forall cs ::
              var last := LastSet(None, acts, cs);
              last.Some? ==> (last.value <==> cs in EnabledInRange(s.provider))
  {
    var s0, update, s2 := Apply(s, Produce(order)), MakeSnapshot(order, s.seen, s.latest), Apply(s1, Handle);
    UpdateComesUp(s0, acts, s1, update, |s.queue|);
    FreeSnapshotNamesEnabled(order, s.provider, s.seen, s.latest);
    forall cs
      ensures (cs in s2.sim.rendered <==> cs in EnabledInRange(s2.provider)) <==>
              (var last := LastSet(None, acts, cs); last.Some? ==> (last.value <==> cs in EnabledInRange(s.provider)))
    {
      ProviderFollows(s0, acts, s1, s.provider, None, cs);
      RenderedByUpdate(s1, update, s.provider, cs);
    }
    SameMembers(s2.sim.rendered, EnabledInRange(s2.provider));
  }

  lemma RenderedByUpdate(s: System, update: Snapshot, at: Provider, cs: Callsign)
    requires Waits(s, update, 0) && !Ignored(update) && update.renderingEnabled
    requires forall cs :: cs in update.enabled <==> cs in EnabledInRange(at)
    ensures var s' := Apply(s, Handle);
            s'.provider == s.provider && (cs in s'.sim.rendered <==> cs in EnabledInRange(at) && cs in s.provider)
  {
    HandlingIsExact(s);
  }

  lemma SameMembers(a: set<Callsign>, b: set<Callsign>)
    ensures a == b <==> forall cs :: cs in a <==> cs in b
  {
  }

  lemma {:induction false} NothingSet(acts: seq<Action>, cs: Callsign)
    requires forall act | act in acts :: !act.Join? && !act.Enable?
    ensures LastSet(None, acts, cs) == None
    decreases |acts|
  {
    if acts != [] {
      assert acts[0] in acts;
      NothingSet(acts[1..], cs);
    }
  }

  /** From the generation of the one-time update, over any actions without a join, an enabling or a
      change of the settings, over its handling and on through any orderly run, the rendering
      ends up exact: the lifted restriction settles. */
  lemma LiftedRestrictionSettles(s: System, order: seq<Aircraft>, acts: seq<Action>, s1: System, rest: seq<Action>,
                                 s2: System)
    requires Lifted(s) && Enabled(s, Produce(order))
    requires Path(Apply(s, Produce(order)), acts, s1) && Handlings(acts) == |s.queue|
    requires forall act | act in acts :: !act.Join? && !act.Enable? && !act.SetSetup?
    requires Path(Apply(s1, Handle), rest, s2)
    requires forall act | act in rest :: Orderly(act)
    ensures Exact(s2)
  {
    LiftingIsExactIff(s, order, acts, s1);
    forall cs ensures LastSet(None, acts, cs) == None {
      NothingSet(acts, cs);
    }
    StaysExact(Apply(s1, Handle), rest, s2);
  }

  const FREE := Setup(INFINITE_AIRCRAFT, None)
  const ONE_ONLY := Setup(1, None)

  /** Only `a` is in range; the limit of one aircraft has been lifted and the one-time update of
      the analyzer waits to be handled. */
  function UpdateWaits(a: Aircraft): System {
    var update := Snapshot(false, true, true, [a.cs]);
    System(map[a.cs := a], FREE, Sim({a.cs}, {}, 1, 0), FREE, Some(update), [update])
  }

  function OneRendered(a: Aircraft): System {
    System(map[a.cs := a], ONE_ONLY, Sim({a.cs}, {}, 1, 0), ONE_ONLY, Some(Snapshot(true, true, false, [a.cs])), [])
  }

  lemma LimitIsLifted(a: Aircraft) returns (acts: seq<Action>)
    requires a.enabled
    ensures acts == [SetSetup(FREE), Propagate, Produce([a])]
    ensures Path(OneRendered(a), acts, UpdateWaits(a))
  {
    var s, s' := OneRendered(a), UpdateWaits(a);
    assert Qualified([], FREE) == [] && [a][..0] == [];
    assert Qualified([a], FREE) == [a];
    assert MakeSnapshot([a], FREE, s.latest) == Snapshot(false, true, true, [a.cs]);
    assert Path(s', [], s');
    Prepend(s.(setup := FREE, seen := FREE), Produce([a]), [], s');
    Prepend(s.(setup := FREE), Propagate, [Produce([a])], s');
    Prepend(s, SetSetup(FREE), [Propagate, Produce([a])], s');
    acts := [SetSetup(FREE)] + [Propagate, Produce([a])];
  }

  /** The losing run: `b` joins after the one-time update was generated, is added directly, and is
      removed again when the update is handled. */
  lemma JoinerIsLost(a: Aircraft, b: Aircraft) returns (lifting: seq<Action>, s': System)
    requires a.cs != b.cs && a.enabled && a.validModel && b.enabled && b.validModel
    ensures Exact(OneRendered(a)) && Path(OneRendered(a), lifting, UpdateWaits(a))
    ensures Path(UpdateWaits(a), [Join(b), Handle], s')
    ensures Unrestricted(s') && b.cs in EnabledInRange(s'.provider) && b.cs !in s'.sim.rendered
  {
    lifting := LimitIsLifted(a);
    var joined := Apply(UpdateWaits(a), Join(b));
    s' := Apply(joined, Handle);
    assert Path(s', [], s');
    Prepend(joined, Handle, [], s');
    Prepend(UpdateWaits(a), Join(b), [Handle], s');
    assert [Join(b)] + [Handle] == [Join(b), Handle];
    assert s'.queue == [];
  }

  lemma Prepend(s: System, act: Action, acts: seq<Action>, s': System)
    requires Enabled(s, act) && Path(Apply(s, act), acts, s')
    ensures Path(s, [act] + acts, s')
  {
    assert ([act] + acts)[1..] == acts;
  }

  // ---------------------------------------------------------------------------
  // Rendering switched off
  // ---------------------------------------------------------------------------

  /** Switching rendering off is not a restriction for the driver: a joining aircraft is added
      exactly when it is usable and no restriction is set, so also while rendering is off. */
  lemma JoinerIsAddedIff(s: System, a: Aircraft)
    requires a.cs !in s.sim.rendered
    ensures a.cs in LogicallyAdd(s.sim, s.setup, a).rendered <==>
            a.validModel && a.enabled && (!s.setup.RenderingEnabled() || Free(s.setup))
  {
  }
}
