/** The hotkey engine over runs: press/release discipline, the device merge against its simple
    specification, and capture sessions. */
module InputManagerRuns {
  import opened Basics
  import opened InputManager

  datatype Event =
    | Keys(keys: set<Key>)
    | Buttons(buttons: set<Button>)
    | Capture
    | Reload(hotkeys: seq<Hotkey>)
    | Trigger(combination: Combination)

  function Step(s: State, e: Event): Outcome {
    match e
    case Keys(keys) => ProcessKeys(s, keys)
    case Buttons(buttons) => ProcessButtons(s, buttons)
    case Capture => Outcome(StartCapture(s), {}, {}, Nothing)
    case Reload(hotkeys) => Outcome(s.(configured := Configured(hotkeys)), {}, {}, Nothing)
    case Trigger(combination) => Outcome(s.(last := combination), {}, {}, Nothing)
  }

  function Run(s: State, es: seq<Event>): State
    decreases |es|
  {
    if es == [] then s else Run(Step(s, es[0]).next, es[1..])
  }

  /** A device reports, a settings reload or a capture; not the key triggered from outside. */
  predicate Untriggered(es: seq<Event>) {
    forall e | e in es :: !e.Trigger?
  }

  const INITIAL := State(map[], {}, NOTHING, false, NOTHING, NOTHING)

  // ---------------------------------------------------------------------------
  // Press and release
  // ---------------------------------------------------------------------------

  /** The calls one event makes for an action: true for a press, false for a release. */
  function CallsAt(s: State, e: Event, action: string): seq<bool> {
    if action == "" then []
    else if e.Trigger? then
      (if ActionOf(s.configured, s.last) == action then [false] else [])
      + (if ActionOf(s.configured, e.combination) == action then [true] else [])
    else
      (if action in Step(s, e).pressed then [true] else [])
      + (if action in Step(s, e).released then [false] else [])
  }

  function Calls(s: State, es: seq<Event>, action: string): seq<bool>
    decreases |es|
  {
    if es == [] then [] else CallsAt(s, es[0], action) + Calls(Step(s, es[0]).next, es[1..], action)
  }

  predicate Alternating(calls: seq<bool>, first: bool) {
    forall i | 0 <= i < |calls| :: calls[i] == ((i % 2 == 0) == first)
  }

  lemma AlternatingPrepend(call: bool, calls: seq<bool>)
    requires Alternating(calls, !call)
    ensures Alternating([call] + calls, call)
  {
    forall i | 0 <= i < |[call] + calls| ensures ([call] + calls)[i] == ((i % 2 == 0) == call) {
      if i > 0 {
        assert ([call] + calls)[i] == calls[i - 1];
      }
    }
  }

  lemma CallsAtOneEvent(s: State, e: Event, action: string)
    requires !e.Trigger? && action != ""
    ensures var calls, next := CallsAt(s, e, action), Step(s, e).next;
            || (calls == [] && (action in next.active <==> action in s.active))
            || (calls == [action in next.active] && (action in next.active <==> action !in s.active))
  {
  }

  /** Over every run of device reports, captures and settings reloads the calls of an action
      alternate, and the action is active exactly when its last call was a press. */
  lemma {:induction false} CallsAlternate(s: State, es: seq<Event>, action: string)
    requires Untriggered(es) && action != ""
    ensures Alternating(Calls(s, es, action), action !in s.active)
    ensures var calls := Calls(s, es, action);
            action in Run(s, es).active <==> if calls == [] then action in s.active else calls[|calls| - 1]
    decreases |es|
  {
    if es != [] {
      var next, now := Step(s, es[0]).next, CallsAt(s, es[0], action);
      CallsAlternate(next, es[1..], action);
      CallsAtOneEvent(s, es[0], action);
      var calls := Calls(next, es[1..], action);
      assert Calls(s, es, action) == now + calls;
      if now == [] {
        assert now + calls == calls;
      } else {
        AlternatingPrepend(now[0], calls);
      }
    }
  }

  /** From the start every press comes first and is followed by its release: what was pressed and
      not released is active. */
  lemma PressesAreReleased(es: seq<Event>, action: string)
    requires Untriggered(es) && action != ""
    ensures Alternating(Calls(INITIAL, es, action), true)
    ensures action in Run(INITIAL, es).active <==> |Calls(INITIAL, es, action)| % 2 == 1
  {
    CallsAlternate(INITIAL, es, action);
  }

  lemma {:induction false} CallsSnoc(s: State, es: seq<Event>, e: Event, action: string)
    ensures Calls(s, es + [e], action) == Calls(s, es, action) + CallsAt(Run(s, es), e, action)
    decreases |es|
  {
    if es == [] {
      assert [] + [e] == [e];
      assert [e][1..] == [];
    } else {
      var next := Step(s, es[0]).next;
      CallsSnoc(next, es[1..], e, action);
      assert (es + [e])[1..] == es[1..] + [e];
      var now, calls, more := CallsAt(s, es[0], action), Calls(next, es[1..], action), CallsAt(Run(s, es), e, action);
      assert now + (calls + more) == (now + calls) + more;
    }
  }

  lemma AlternatingAppend(calls: seq<bool>, more: seq<bool>, first: bool)
    requires Alternating(calls, first)
    ensures Alternating(calls + more, first) <==> Alternating(more, (|calls| % 2 == 0) == first)
  {
    var all := calls + more;
    assert forall i | 0 <= i < |more| :: all[|calls| + i] == more[i];
    if Alternating(all, first) {
      forall i | 0 <= i < |more| ensures more[i] == ((i % 2 == 0) == ((|calls| % 2 == 0) == first)) {
        assert all[|calls| + i] == (((|calls| + i) % 2 == 0) == first);
      }
    }
    if Alternating(more, (|calls| % 2 == 0) == first) {
      forall i | 0 <= i < |all| ensures all[i] == ((i % 2 == 0) == first) {
        if i >= |calls| {
          assert all[i] == more[i - |calls|];
        }
      }
    }
  }

  /** When does an event keep the alternation of an action's calls? `down`: the last was a press. */
  predicate KeepsAlternation(s: State, e: Event, action: string, down: bool) {
    if e.Trigger? then
      && (ActionOf(s.configured, s.last) == action ==> down)
      && (ActionOf(s.configured, e.combination) == action ==> ActionOf(s.configured, s.last) == action || !down)
    else
      (action in Step(s, e).next.active <==> action in s.active) || (down <==> action in s.active)
  }

  lemma EventAlternatesIff(s: State, e: Event, action: string, down: bool)
    requires action != ""
    ensures Alternating(CallsAt(s, e, action), !down) <==> KeepsAlternation(s, e, action, down)
  {
    var calls := CallsAt(s, e, action);
    assert |calls| <= 2;
    assert Alternating(calls, !down) <==> (|calls| > 0 ==> calls[0] != down) && (|calls| > 1 ==> calls[1] == down);
    if !e.Trigger? {
      CallsAtOneEvent(s, e, action);
    }
  }

  /** With triggered keys: a trigger repeats a release exactly if the action of the last combination
      is not down, and a press exactly if the triggered action is down and not released by it; any
      other event repeats a call exactly if it switches an action whose calls triggers have upset. */
  lemma AlternatesIff(es: seq<Event>, e: Event, action: string)
    requires action != "" && Alternating(Calls(INITIAL, es, action), true)
    ensures Alternating(Calls(INITIAL, es + [e], action), true) <==>
            KeepsAlternation(Run(INITIAL, es), e, action, |Calls(INITIAL, es, action)| % 2 == 1)
  {
    var s, calls := Run(INITIAL, es), Calls(INITIAL, es, action);
    CallsSnoc(INITIAL, es, e, action);
    AlternatingAppend(calls, CallsAt(s, e, action), true);
    EventAlternatesIff(s, e, action, |calls| % 2 == 1);
  }

  /** The first trigger after a report: it never repeats a release, and it repeats a press exactly
      if the triggered action is active without being the one of the combination held. */
  lemma FirstTriggerAlternatesIff(es: seq<Event>, report: Event, combination: Combination, action: string)
    requires Untriggered(es + [report]) && IsReport(report) && !Run(INITIAL, es).capturing && action != ""
    ensures var s := Run(INITIAL, es + [report]);
            Alternating(Calls(INITIAL, es + [report] + [Trigger(combination)], action), true) <==>
            (ActionOf(s.configured, combination) == action && action in s.active ==>
               ActionOf(s.configured, s.last) == action)
  {
    var all := es + [report];
    var s := Run(INITIAL, all);
    RunSnoc(INITIAL, es, report);
    PressesAreReleased(all, action);
    AlternatesIff(all, Trigger(combination), action);
    assert s.active == Matching(s.configured, s.last);
    assert ActionOf(s.configured, s.last) == action ==> action in s.active by {
      assert s.last.IsSubsetOf(s.last);
    }
  }

  function Keyboard(code: int): Combination {
    Combination({Key(code)}, {})
  }

  /** A triggered key goes past the active actions: the action of a key that is held and
      triggered is pressed twice in a row. */
  lemma TriggerBreaksAlternation()
    ensures exists es: seq<Event> :: Calls(INITIAL, es, "ptt") == [true, true]
  {
    var space, talk := SPACE, TALK;
    TalkConfigured();
    var s1 := INITIAL.(configured := Configured([talk]));
    var s2 := Step(s1, Trigger(space)).next;
    var es3 := [Keys({Key(32)})];
    assert space in s2.configured && space.IsSubsetOf(space) && Matching(s2.configured, space) == {"ptt"};
    assert Calls(Step(s2, es3[0]).next, es3[1..], "ptt") == [];
    assert Calls(s2, es3, "ptt") == [true];
    var es2 := [Trigger(space)] + es3;
    assert es2[1..] == es3;
    assert NOTHING !in s1.configured;
    assert CallsAt(s1, Trigger(space), "ptt") == [true];
    assert Calls(s1, es2, "ptt") == [true, true];
    var es1 := [Reload([talk])] + es2;
    assert es1[1..] == es2;
    assert Calls(INITIAL, es1, "ptt") == [true, true];
  }

  // ---------------------------------------------------------------------------
  // From actions to bound functions
  // ---------------------------------------------------------------------------

  /** The calls of the function bound with an index. */
  function CallsTo(index: int, invoked: seq<(int, bool)>): seq<bool> {
    if invoked == [] then []
    else
      var n := |invoked| - 1;
      CallsTo(index, invoked[..n]) + (if invoked[n].0 == index then [invoked[n].1] else [])
  }

  lemma {:induction false} CallsToAppend(index: int, a: seq<(int, bool)>, b: seq<(int, bool)>)
    ensures CallsTo(index, a + b) == CallsTo(index, a) + CallsTo(index, b)
  {
    if b == [] {
      assert a + b == a;
    } else {
      var n := |b| - 1;
      CallsToAppend(index, a, b[..n]);
      assert (a + b)[..|a + b| - 1] == a + b[..n];
    }
  }

  lemma {:induction false} CallToNone(bound: seq<BindInfo>, index: int, action: string, down: bool)
    requires forall b | b in bound :: b.index != index
    ensures CallsTo(index, Invoked(bound, action, down)) == []
  {
    if bound != [] {
      var n := |bound| - 1;
      CallToNone(bound[..n], index, action, down);
      CallsToAppend(index, Invoked(bound[..n], action, down),
                    if bound[n].action == action then [(bound[n].index, down)] else []);
    }
  }

  lemma {:induction false} CallToOne(bound: seq<BindInfo>, nextIndex: int, b: BindInfo, action: string, down: bool)
    requires FreshIndices(bound, nextIndex) && b in bound
    ensures CallsTo(b.index, Invoked(bound, action, down)) == if b.action == action then [down] else []
  {
    var init, top := bound[..|bound| - 1], bound[|bound| - 1];
    assert bound == init + [top];
    CallsToAppend(b.index, Invoked(init, action, down), if top.action == action then [(top.index, down)] else []);
    if b == top {
      CallToNone(init, b.index, action, down);
    } else {
      CallToOne(init, nextIndex, b, action, down);
    }
  }

  lemma {:induction false} CallsOfAll(bound: seq<BindInfo>, nextIndex: int, b: BindInfo, relaying: bool,
                                      actions: seq<string>, down: bool)
    requires FreshIndices(bound, nextIndex) && b in bound && b.action != ""
    requires forall i, j | 0 <= i < j < |actions| :: actions[i] != actions[j]
    ensures CallsTo(b.index, AllEffects(bound, relaying, actions, down).invoked) ==
            if b.action in actions then [down] else []
  {
    if actions != [] {
      var init, action := actions[..|actions| - 1], actions[|actions| - 1];
      assert actions == init + [action];
      CallsOfAll(bound, nextIndex, b, relaying, init, down);
      var before := AllEffects(bound, relaying, init, down).invoked;
      var called := CallEffects(bound, relaying, action, down).invoked;
      assert CallsTo(b.index, called) == if b.action == action then [down] else [] by {
        CallToOne(bound, nextIndex, b, action, down);
      }
      CallsToAppend(b.index, before, called);
      assert AllEffects(bound, relaying, actions, down).invoked == before + called;
    }
  }

  /** In whatever order an event calls the actions, a bound function is invoked exactly by the
      calls of its action, so the discipline above is what every receiver sees. */
  lemma ReceiverSeesCalls(s: State, e: Event, bound: seq<BindInfo>, nextIndex: int, b: BindInfo, relaying: bool,
                          pressed: seq<string>, released: seq<string>)
    requires FreshIndices(bound, nextIndex) && b in bound && b.action != "" && !e.Trigger?
    requires Lists(pressed, Step(s, e).pressed) && Lists(released, Step(s, e).released)
    ensures CallsTo(b.index, AllEffects(bound, relaying, pressed, true)
                             .Then(AllEffects(bound, relaying, released, false)).invoked) == CallsAt(s, e, b.action)
  {
    CallsOfAll(bound, nextIndex, b, relaying, pressed, true);
    CallsOfAll(bound, nextIndex, b, relaying, released, false);
    CallsToAppend(b.index, AllEffects(bound, relaying, pressed, true).invoked,
                  AllEffects(bound, relaying, released, false).invoked);
  }

  /** The same for a triggered key. */
  lemma ReceiverSeesTrigger(s: State, c: Combination, bound: seq<BindInfo>, nextIndex: int, b: BindInfo, relaying: bool)
    requires FreshIndices(bound, nextIndex) && b in bound && b.action != ""
    ensures CallsTo(b.index, TriggerEffects(s, c, bound, relaying).invoked) == CallsAt(s, Trigger(c), b.action)
  {
    var previous, action := ActionOf(s.configured, s.last), ActionOf(s.configured, c);
    CallToOne(bound, nextIndex, b, previous, false);
    CallToOne(bound, nextIndex, b, action, true);
    CallsToAppend(b.index, CallEffects(bound, relaying, previous, false).invoked,
                  CallEffects(bound, relaying, action, true).invoked);
  }

  function TriggerEffects(s: State, c: Combination, bound: seq<BindInfo>, relaying: bool): Effects {
    CallEffects(bound, relaying, ActionOf(s.configured, s.last), false)
    .Then(CallEffects(bound, relaying, ActionOf(s.configured, c), true))
  }

  /** The calls of an action that are relayed. */
  function RelayedTo(action: string, relayed: seq<(string, bool)>): seq<bool> {
    if relayed == [] then []
    else
      var n := |relayed| - 1;
      RelayedTo(action, relayed[..n]) + (if relayed[n].0 == action then [relayed[n].1] else [])
  }

  lemma {:induction false} RelayedToAppend(action: string, a: seq<(string, bool)>, b: seq<(string, bool)>)
    ensures RelayedTo(action, a + b) == RelayedTo(action, a) + RelayedTo(action, b)
  {
    if b == [] {
      assert a + b == a;
    } else {
      var n := |b| - 1;
      RelayedToAppend(action, a, b[..n]);
      assert (a + b)[..|a + b| - 1] == a + b[..n];
    }
  }

  lemma RelayedOne(bound: seq<BindInfo>, relaying: bool, called: string, down: bool, action: string)
    requires action != ""
    ensures RelayedTo(action, CallEffects(bound, relaying, called, down).relayed) ==
            if relaying && called == action then [down] else []
  {
    assert [(called, down)][..0] == [];
  }

  lemma {:induction false} RelayedOfAll(bound: seq<BindInfo>, relaying: bool, actions: seq<string>, down: bool,
                                        action: string)
    requires action != "" && forall i, j | 0 <= i < j < |actions| :: actions[i] != actions[j]
    ensures RelayedTo(action, AllEffects(bound, relaying, actions, down).relayed) ==
            if relaying && action in actions then [down] else []
  {
    if actions != [] {
      var init, last := actions[..|actions| - 1], actions[|actions| - 1];
      assert actions == init + [last];
      RelayedOfAll(bound, relaying, init, down, action);
      var before := AllEffects(bound, relaying, init, down).relayed;
      var now := CallEffects(bound, relaying, last, down).relayed;
      assert RelayedTo(action, now) == if relaying && last == action then [down] else [] by {
        RelayedOne(bound, relaying, last, down, action);
      }
      RelayedToAppend(action, before, now);
      assert AllEffects(bound, relaying, actions, down).relayed == before + now;
    }
  }

  /** With relaying on, the other machine hears exactly the calls of every action, those of a triggered
      key included; with relaying off it hears nothing. */
  lemma RelaySeesCalls(s: State, e: Event, bound: seq<BindInfo>, relaying: bool, pressed: seq<string>,
                       released: seq<string>, action: string)
    requires action != ""
    requires Lists(pressed, Step(s, e).pressed) && Lists(released, Step(s, e).released)
    ensures var effects := if e.Trigger? then TriggerEffects(s, e.combination, bound, relaying)
                           else AllEffects(bound, relaying, pressed, true)
                                .Then(AllEffects(bound, relaying, released, false));
            RelayedTo(action, effects.relayed) == if relaying then CallsAt(s, e, action) else []
  {
    if e.Trigger? {
      RelayedToAppend(action, CallEffects(bound, relaying, ActionOf(s.configured, s.last), false).relayed,
                      CallEffects(bound, relaying, ActionOf(s.configured, e.combination), true).relayed);
      RelayedOne(bound, relaying, ActionOf(s.configured, s.last), false, action);
      RelayedOne(bound, relaying, ActionOf(s.configured, e.combination), true, action);
    } else {
      RelayedOfAll(bound, relaying, pressed, true, action);
      RelayedOfAll(bound, relaying, released, false, action);
      RelayedToAppend(action, AllEffects(bound, relaying, pressed, true).relayed,
                      AllEffects(bound, relaying, released, false).relayed);
    }
  }

  // ---------------------------------------------------------------------------
  // Two devices, one combination
  // ---------------------------------------------------------------------------

  /** What the two devices reported last. */
  function Hear(held: Combination, e: Event): Combination {
    match e
    case Keys(keys) => held.(keys := keys)
    case Buttons(buttons) => held.(buttons := buttons)
    case _ => held
  }

  function Held(held: Combination, es: seq<Event>): Combination
    decreases |es|
  {
    if es == [] then held else Held(Hear(held, es[0]), es[1..])
  }

  predicate IsReport(e: Event) {
    e.Keys? || e.Buttons?
  }

  predicate Uncaptured(es: seq<Event>) {
    Untriggered(es) && forall e | e in es :: !e.Capture?
  }

  /** What the engine takes over: a triggered combination, and reports outside captures. */
  function TakeOver(s: State, taken: Combination, e: Event): Combination {
    if e.Trigger? then e.combination else if s.capturing then taken else Hear(taken, e)
  }

  function Taken(s: State, taken: Combination, es: seq<Event>): Combination
    decreases |es|
  {
    if es == [] then taken else Taken(Step(s, es[0]).next, TakeOver(s, taken, es[0]), es[1..])
  }

  lemma {:induction false} MergeIsTaken(s: State, es: seq<Event>)
    ensures Run(s, es).last == Taken(s, s.last, es)
    decreases |es|
  {
    if es != [] {
      MergeIsTaken(Step(s, es[0]).next, es[1..]);
    }
  }

  /** Over every run, a report outside a capture leaves exactly the actions active that match what
      was taken over last from the two devices. */
  lemma ActsOnTaken(es: seq<Event>, e: Event)
    requires IsReport(e) && !Run(INITIAL, es).capturing
    ensures var s := Run(INITIAL, es + [e]);
            s.active == Matching(s.configured, Hear(Taken(INITIAL, NOTHING, es), e))
  {
    MergeIsTaken(INITIAL, es);
    RunSnoc(INITIAL, es, e);
  }

  lemma {:induction false} UncapturedTakesAll(s: State, es: seq<Event>, held: Combination)
    requires Uncaptured(es) && !s.capturing
    ensures !Run(s, es).capturing && Taken(s, held, es) == Held(held, es)
    decreases |es|
  {
    if es != [] {
      UncapturedTakesAll(Step(s, es[0]).next, es[1..], Hear(held, es[0]));
    }
  }

  /** Without captures, after each report of a device the active actions are those whose
      combination is held on the two devices together. */
  lemma MergeRefinesMatching(es: seq<Event>, e: Event)
    requires Uncaptured(es + [e]) && IsReport(e)
    ensures var s := Run(INITIAL, es + [e]);
            s.active == Matching(s.configured, Held(NOTHING, es + [e]))
  {
    assert forall x | x in es :: x in es + [e];
    UncapturedTakesAll(INITIAL, es, NOTHING);
    ActsOnTaken(es, e);
    HeldSnoc(NOTHING, es, e);
  }

  predicate Usable(hotkey: Hotkey, c: Combination) {
    hotkey.local && hotkey.combination == c && (c.keys != {} || c.buttons != {})
  }

  /** The configured combinations are those of local hotkeys that have one, each with the action of the
      last such hotkey. */
  lemma {:induction false} ConfiguredIff(hotkeys: seq<Hotkey>, c: Combination)
    ensures c in Configured(hotkeys) <==> exists i :: 0 <= i < |hotkeys| && Usable(hotkeys[i], c)
    ensures forall i | 0 <= i < |hotkeys| && Usable(hotkeys[i], c) ::
              (forall j | i < j < |hotkeys| :: !Usable(hotkeys[j], c)) ==> Configured(hotkeys)[c] == hotkeys[i].action
  {
    if hotkeys != [] {
      var n := |hotkeys| - 1;
      ConfiguredIff(hotkeys[..n], c);
      if Usable(hotkeys[n], c) {
        assert hotkeys[n].combination in Configured(hotkeys);
      } else {
        assert forall i | 0 <= i < n :: hotkeys[..n][i] == hotkeys[i];
        if i :| 0 <= i < |hotkeys| && Usable(hotkeys[i], c) {
          assert Usable(hotkeys[..n][i], c);
        }
      }
    }
  }

  lemma {:induction false} NoEmptyCombination(hotkeys: seq<Hotkey>)
    ensures forall c :: c in Configured(hotkeys) ==> !c.IsEmpty()
  {
    if hotkeys != [] {
      NoEmptyCombination(hotkeys[..|hotkeys| - 1]);
    }
  }

  lemma {:induction false} NeverConfiguresEmpty(s: State, es: seq<Event>)
    requires NOTHING !in s.configured
    ensures NOTHING !in Run(s, es).configured
    decreases |es|
  {
    if es != [] {
      if es[0].Reload? {
        NoEmptyCombination(es[0].hotkeys);
      }
      NeverConfiguresEmpty(Step(s, es[0]).next, es[1..]);
    }
  }

  /** When nothing is held any more, no action stays active: every press has met its release. */
  lemma ReleasingAllReleases(es: seq<Event>, e: Event, action: string)
    requires Uncaptured(es + [e]) && IsReport(e) && Held(NOTHING, es + [e]) == NOTHING && action != ""
    ensures Run(INITIAL, es + [e]).active == {}
    ensures |Calls(INITIAL, es + [e], action)| % 2 == 0
  {
    MergeRefinesMatching(es, e);
    NeverConfiguresEmpty(INITIAL, es + [e]);
    PressesAreReleased(es + [e], action);
    assert forall c: Combination :: c.IsSubsetOf(NOTHING) ==> c == NOTHING;
  }

  /** The engine acts on its merged combination, and on nothing else would it always act right:
      the merge is right for every set of hotkeys if and only if it is what is held. */
  lemma RightForAllHotkeysIff(merged: Combination, held: Combination)
    ensures (forall hotkeys :: Matching(Configured(hotkeys), merged) == Matching(Configured(hotkeys), held)) <==>
            merged == held
  {
    if merged != held {
      var c: Combination :| !c.IsEmpty() && c.IsSubsetOf(merged) != c.IsSubsetOf(held) by {
        Telling(merged, held);
      }
      var hotkeys := [Hotkey(true, c, "ptt")];
      assert hotkeys[..0] == [];
      assert Configured(hotkeys) == map[c := "ptt"];
      assert c in Configured(hotkeys);
      assert ("ptt" in Matching(Configured(hotkeys), merged)) == c.IsSubsetOf(merged);
      assert ("ptt" in Matching(Configured(hotkeys), held)) == c.IsSubsetOf(held);
    }
  }

  /** Are exactly those actions active whose combination is held on the two devices together? */
  predicate ActsRight(es: seq<Event>) {
    var s := Run(INITIAL, es);
    s.active == Matching(s.configured, Held(NOTHING, es))
  }

  /** Captures, triggers or not: a report outside a capture acts right for every set of hotkeys if
      and only if what the engine took over last from the other device is what that device
      reported last; then it acts right for the hotkeys of the run, too. */
  lemma MergeExactIff(es: seq<Event>, e: Event)
    requires IsReport(e) && !Run(INITIAL, es).capturing
    ensures var taken, held := Taken(INITIAL, NOTHING, es), Held(NOTHING, es);
            var agree := if e.Keys? then taken.buttons == held.buttons else taken.keys == held.keys;
            && ((forall hotkeys :: ActsRight(es + [Reload(hotkeys)] + [e])) <==> agree)
            && (agree ==> ActsRight(es + [e]))
  {
    var merged, held := Hear(Taken(INITIAL, NOTHING, es), e), Hear(Held(NOTHING, es), e);
    forall hotkeys
      ensures ActsRight(es + [Reload(hotkeys)] + [e]) <==>
              Matching(Configured(hotkeys), merged) == Matching(Configured(hotkeys), held)
    {
      ReloadThenReport(es, hotkeys, e);
    }
    RightForAllHotkeysIff(merged, held);
    ActsOnTaken(es, e);
    HeldSnoc(NOTHING, es, e);
  }

  lemma ReloadThenReport(es: seq<Event>, hotkeys: seq<Hotkey>, e: Event)
    requires IsReport(e) && !Run(INITIAL, es).capturing
    ensures var merged, held := Hear(Taken(INITIAL, NOTHING, es), e), Hear(Held(NOTHING, es), e);
            ActsRight(es + [Reload(hotkeys)] + [e]) <==>
            Matching(Configured(hotkeys), merged) == Matching(Configured(hotkeys), held)
  {
    var all := es + [Reload(hotkeys)];
    MergeIsTaken(INITIAL, es);
    RunSnoc(INITIAL, es, Reload(hotkeys));
    RunSnoc(INITIAL, all, e);
    HeldSnoc(NOTHING, es, Reload(hotkeys));
    HeldSnoc(NOTHING, all, e);
  }

  lemma Telling(a: Combination, b: Combination)
    requires a != b
    ensures exists c: Combination :: !c.IsEmpty() && c.IsSubsetOf(a) != c.IsSubsetOf(b)
  {
    if k :| k in a.keys && k !in b.keys {
      assert Combination({k}, {}).IsSubsetOf(a) != Combination({k}, {}).IsSubsetOf(b);
    } else if k :| k in b.keys && k !in a.keys {
      assert Combination({k}, {}).IsSubsetOf(a) != Combination({k}, {}).IsSubsetOf(b);
    } else if j :| j in a.buttons && j !in b.buttons {
      assert Combination({}, {j}).IsSubsetOf(a) != Combination({}, {j}).IsSubsetOf(b);
    } else {
      assert a.keys == b.keys;
      var j :| j in b.buttons && j !in a.buttons;
      assert Combination({}, {j}).IsSubsetOf(a) != Combination({}, {j}).IsSubsetOf(b);
    }
  }

  lemma {:induction false} RunSnoc(s: State, es: seq<Event>, e: Event)
    ensures Run(s, es + [e]) == Step(Run(s, es), e).next
    decreases |es|
  {
    if es == [] {
      assert [] + [e] == [e];
      assert [e][1..] == [];
    } else {
      RunSnoc(Step(s, es[0]).next, es[1..], e);
      assert (es + [e])[1..] == es[1..] + [e];
    }
  }

  lemma {:induction false} HeldSnoc(held: Combination, es: seq<Event>, e: Event)
    ensures Held(held, es + [e]) == Hear(Held(held, es), e)
    decreases |es|
  {
    if es == [] {
      assert [] + [e] == [e];
      assert [e][1..] == [];
    } else {
      HeldSnoc(Hear(held, es[0]), es[1..], e);
      assert (es + [e])[1..] == es[1..] + [e];
    }
  }

  const SPACE := Keyboard(32)
  const STICK := Button("stick", 1)
  const TALK := Hotkey(true, SPACE, "ptt")

  lemma TalkConfigured()
    ensures Configured([TALK]) == map[SPACE := "ptt"]
    ensures forall held: Combination ::
              Matching(Configured([TALK]), held) == if Key(32) in held.keys then {"ptt"} else {}
  {
    assert [TALK][..0] == [];
    assert Configured([TALK]) == map[SPACE := "ptt"];
    forall held: Combination
      ensures Matching(Configured([TALK]), held) == if Key(32) in held.keys then {"ptt"} else {}
    {
      assert SPACE in Configured([TALK]);
      assert SPACE.IsSubsetOf(held) <==> Key(32) in held.keys;
    }
  }

  /** While space is held a capture picks the button; letting go of space ends it. */
  lemma CaptureMissesRelease(s: State)
    requires !s.capturing && s.last == SPACE
    ensures Run(s, [Capture, Buttons({STICK}), Keys({})]) == s.(captured := Combination({}, {STICK}), before := SPACE)
  {
    var s1 := StartCapture(s);
    var picked := Combination({}, {STICK});
    assert Combination({Key(32)}, {STICK}).DeltaComparedTo(SPACE) == picked && picked.Size() == 1;
    assert Step(s1, Buttons({STICK})).next == s1.(captured := picked);
    assert NOTHING.DeltaComparedTo(SPACE) == NOTHING;
    RunSnoc(s, [Capture, Buttons({STICK})], Keys({}));
    RunSnoc(s, [Capture], Buttons({STICK}));
    RunSnoc(s, [], Capture);
    assert [Capture, Buttons({STICK})] == [Capture] + [Buttons({STICK})] && [Capture] == [] + [Capture];
    assert [Capture, Buttons({STICK}), Keys({})] == [Capture, Buttons({STICK})] + [Keys({})];
  }

  lemma {:induction false} RunAppend(s: State, a: seq<Event>, b: seq<Event>)
    ensures Run(s, a + b) == Run(Run(s, a), b)
    decreases |a|
  {
    if a == [] {
      assert a + b == b;
    } else {
      RunAppend(Step(s, a[0]).next, a[1..], b);
      assert (a + b)[1..] == a[1..] + b;
    }
  }

  lemma SpaceIsHeld()
    ensures Run(INITIAL, [Reload([TALK]), Keys({Key(32)})]) ==
            State(Configured([TALK]), {"ptt"}, SPACE, false, NOTHING, NOTHING)
  {
    TalkConfigured();
    var s1 := INITIAL.(configured := Configured([TALK]));
    RunSnoc(INITIAL, [Reload([TALK])], Keys({Key(32)}));
    RunSnoc(INITIAL, [], Reload([TALK]));
    assert [Reload([TALK])] == [] + [Reload([TALK])];
    assert [Reload([TALK]), Keys({Key(32)})] == [Reload([TALK])] + [Keys({Key(32)})];
    assert Run(INITIAL, [Reload([TALK])]) == s1;
  }

  /** A key let go while a capture listens stays held for the engine until the keyboard reports
      again: a joystick report then keeps the action of the released key active. */
  lemma CaptureLeavesKeyBehind() returns (es: seq<Event>, e: Event)
    ensures Untriggered(es + [e]) && IsReport(e) && !Run(INITIAL, es).capturing
    ensures "ptt" in Run(INITIAL, es + [e]).active
    ensures "ptt" !in Matching(Run(INITIAL, es + [e]).configured, Held(NOTHING, es + [e]))
  {
    var first, second := [Reload([TALK]), Keys({Key(32)})], [Capture, Buttons({STICK}), Keys({})];
    es, e := first + second, Buttons({STICK});
    var s := Run(INITIAL, first);
    SpaceIsHeld();
    CaptureMissesRelease(s);
    var s' := s.(captured := Combination({}, {STICK}), before := SPACE);
    assert Run(INITIAL, es) == s' by {
      RunAppend(INITIAL, first, second);
    }
    ButtonAfterCapture(s');
    assert Run(INITIAL, es + [e]) == Step(s', e).next by {
      RunSnoc(INITIAL, es, e);
    }
    assert Held(NOTHING, es + [e]) == Combination({}, {STICK}) by {
      NothingHeldAfter(first, second[..2]);
      assert es + [e] == (first + second[..2] + [Keys({})]) + [Buttons({STICK})];
    }
    TalkConfigured();
  }

  lemma ButtonAfterCapture(s: State)
    requires !s.capturing && s.last == SPACE && s.configured == Configured([TALK])
    ensures var s' := Step(s, Buttons({STICK})).next; s'.active == {"ptt"} && s'.configured == Configured([TALK])
  {
    TalkConfigured();
  }

  lemma NothingHeldAfter(a: seq<Event>, b: seq<Event>)
    ensures Held(NOTHING, (a + b + [Keys({})]) + [Buttons({STICK})]) == Combination({}, {STICK})
  {
    HeldSnoc(NOTHING, a + b + [Keys({})], Buttons({STICK}));
    HeldSnoc(NOTHING, a + b, Keys({}));
  }

  // ---------------------------------------------------------------------------
  // Capture sessions
  // ---------------------------------------------------------------------------

  function Selections(s: State, es: seq<Event>): seq<Selection>
    decreases |es|
  {
    if es == [] then []
    else
      var o := Step(s, es[0]);
      (if o.selection == Nothing then [] else [o.selection]) + Selections(o.next, es[1..])
  }

  /** The difference to the combination before the capture that a report shows. */
  function DeltasAt(s: State, e: Event): seq<Combination> {
    if !s.capturing then []
    else
      match e
      case Keys(keys) => [Combination(keys, s.last.buttons).DeltaComparedTo(s.before)]
      case Buttons(buttons) => [Combination(s.last.keys, buttons).DeltaComparedTo(s.before)]
      case _ => []
  }

  /** The differences that captures have seen. */
  function Deltas(s: State, es: seq<Event>): seq<Combination>
    decreases |es|
  {
    if es == [] then [] else DeltasAt(s, es[0]) + Deltas(Step(s, es[0]).next, es[1..])
  }

  function Finishes(sels: seq<Selection>): nat {
    if sels == [] then 0 else (if sels[0].Finished? then 1 else 0) + Finishes(sels[1..])
  }

  function Captures(es: seq<Event>): nat {
    if es == [] then 0 else (if es[0].Capture? then 1 else 0) + Captures(es[1..])
  }

  /** Each start of a capture yields at most one finish, over every run. */
  lemma {:induction false} OneFinishPerCapture(s: State, es: seq<Event>)
    ensures Finishes(Selections(s, es)) <= Captures(es) + (if s.capturing then 1 else 0)
    decreases |es|
  {
    if es != [] {
      var o := Step(s, es[0]);
      OneFinishPerCapture(o.next, es[1..]);
      var rest := Selections(o.next, es[1..]);
      if o.selection == Nothing {
        assert [] + rest == rest;
      } else {
        assert ([o.selection] + rest)[1..] == rest;
      }
    }
  }

  /** Announced selections only grow from `least` on; a finish repeats the last and ends the session. */
  predicate Growing(sels: seq<Selection>, least: Combination)
    decreases |sels|
  {
    sels != [] ==>
      && !sels[0].Nothing? && !sels[0].combination.IsEmpty()
      && (sels[0].Changed? ==> least.Size() <= sels[0].combination.Size() && Growing(sels[1..], sels[0].combination))
      && (sels[0].Finished? ==> sels[0].combination == least && |sels| == 1)
  }

  lemma {:induction false} SilentOutsideCapture(s: State, es: seq<Event>)
    requires Uncaptured(es) && !s.capturing
    ensures Selections(s, es) == [] && Deltas(s, es) == []
    decreases |es|
  {
    if es != [] {
      SilentOutsideCapture(Step(s, es[0]).next, es[1..]);
    }
  }

  lemma SizeZero(c: Combination)
    ensures c.Size() == 0 <==> c.IsEmpty()
  {
    assert |c.keys| == 0 <==> c.keys == {};
    assert |c.buttons| == 0 <==> c.buttons == {};
  }

  lemma ReportWhileCapturing(s: State, e: Event)
    requires s.capturing && !e.Capture? && !e.Trigger?
    ensures var o, ds := Step(s, e), DeltasAt(s, e);
            match o.selection
            case Nothing => o.next.capturing && o.next.captured == s.captured && forall d | d in ds :: d.Size() == 0
            case Changed(c) =>
              o.next.capturing && o.next.captured == c && !c.IsEmpty() && s.captured.Size() <= c.Size() && ds == [c]
            case Finished(c) =>
              !o.next.capturing && c == s.captured && !c.IsEmpty() && forall d | d in ds :: d.Size() < c.Size()
  {
    SizeZero(s.captured);
    if IsReport(e) {
      SizeZero(DeltasAt(s, e)[0]);
    }
  }

  lemma {:induction false} SelectionsGrow(s: State, es: seq<Event>)
    requires Uncaptured(es) && s.capturing
    ensures Growing(Selections(s, es), s.captured)
    decreases |es|
  {
    if es != [] {
      var o := Step(s, es[0]);
      ReportWhileCapturing(s, es[0]);
      var rest := Selections(o.next, es[1..]);
      if o.next.capturing {
        SelectionsGrow(o.next, es[1..]);
      } else {
        SilentOutsideCapture(o.next, es[1..]);
      }
      if o.selection == Nothing {
        assert Selections(s, es) == [] + rest == rest;
      } else {
        assert Selections(s, es) == [o.selection] + rest;
        assert ([o.selection] + rest)[1..] == rest;
      }
    }
  }

  lemma {:induction false} GrowingMeans(sels: seq<Selection>, least: Combination, i: nat)
    requires Growing(sels, least) && i < |sels|
    ensures !sels[i].Nothing? && !sels[i].combination.IsEmpty() && least.Size() <= sels[i].combination.Size()
    ensures i > 0 ==> sels[i - 1].Changed?
    ensures sels[i].Finished? ==>
              i == |sels| - 1 && sels[i].combination == if i == 0 then least else sels[i - 1].combination
    ensures forall j | 0 <= j < i :: !sels[j].Nothing? && sels[j].combination.Size() <= sels[i].combination.Size()
  {
    if i > 0 {
      GrowingMeans(sels[1..], sels[0].combination, i - 1);
      forall j | 0 <= j < i ensures !sels[j].Nothing? && sels[j].combination.Size() <= sels[i].combination.Size() {
        if j > 0 { assert sels[j] == sels[1..][j - 1]; }
      }
    }
  }

  lemma {:induction false} DeltasWithin(s: State, es: seq<Event>, d: Combination, c: Combination)
    requires Uncaptured(es) && s.capturing && d in Deltas(s, es) && Finished(c) in Selections(s, es)
    ensures d.Size() <= c.Size()
    decreases |es|
  {
    var o, rest := Step(s, es[0]), es[1..];
    ReportWhileCapturing(s, es[0]);
    assert d in DeltasAt(s, es[0]) || d in Deltas(o.next, rest);
    assert o.selection == Finished(c) || Finished(c) in Selections(o.next, rest);
    if !o.next.capturing {
      SilentOutsideCapture(o.next, rest);
    } else if d in Deltas(o.next, rest) {
      DeltasWithin(o.next, rest, d, c);
    } else {
      SelectionsGrow(o.next, rest);
      var sels := Selections(o.next, rest);
      var i :| 0 <= i < |sels| && sels[i] == Finished(c);
      GrowingMeans(sels, o.next.captured, i);
    }
  }

  /** One capture session: at most one finish, as its last announcement; what it finishes with is
      not empty, was the selection announced last, and is at least as large as every difference
      the session has seen. */
  lemma SessionFinishesWithLargest(s: State, es: seq<Event>, i: nat)
    requires Uncaptured(es)
    requires var sels := Selections(StartCapture(s), es); i < |sels| && sels[i].Finished?
    ensures var sels := Selections(StartCapture(s), es);
            && 0 < i == |sels| - 1
            && !sels[i].combination.IsEmpty() && sels[i - 1] == Changed(sels[i].combination)
            && forall d | d in Deltas(StartCapture(s), es) :: d.Size() <= sels[i].combination.Size()
  {
    var sels := Selections(StartCapture(s), es);
    SelectionsGrow(StartCapture(s), es);
    GrowingMeans(sels, NOTHING, i);
    forall d | d in Deltas(StartCapture(s), es) ensures d.Size() <= sels[i].combination.Size() {
      DeltasWithin(StartCapture(s), es, d, sels[i].combination);
    }
  }

  predicate OneDevice(c: Combination) {
    c.keys == {} || c.buttons == {}
  }

  predicate Frozen(s: State) {
    (s.capturing ==> s.last == s.before) && OneDevice(s.captured)
  }

  /** The merged combination stands still during a capture, so over every run no difference and
      no selection mixes keys with buttons, against the comments at the merge. */
  lemma {:induction false} NoMixedSelection(s: State, es: seq<Event>)
    requires Untriggered(es) && Frozen(s)
    ensures forall d | d in Deltas(s, es) :: OneDevice(d)
    ensures forall sel | sel in Selections(s, es) :: !sel.Nothing? && OneDevice(sel.combination)
    decreases |es|
  {
    if es != [] {
      NoMixedSelection(Step(s, es[0]).next, es[1..]);
    }
  }

  /** A key pressed together with a button is captured as the key alone if it comes second. */
  lemma MixIsNotCaptured()
    ensures exists es: seq<Event> :: Untriggered(es) && Held(NOTHING, es) == Combination({Key(32)}, {STICK}) &&
              Selections(StartCapture(INITIAL), es) == [Changed(Combination({}, {STICK})), Changed(Keyboard(32))]
  {
    var button, key := Combination({}, {STICK}), SPACE;
    var s0 := StartCapture(INITIAL);
    var s1 := s0.(captured := button);
    assert button.Size() == 1 && key.Size() == 1;
    assert button.DeltaComparedTo(NOTHING) == button && key.DeltaComparedTo(NOTHING) == key;
    var es2 := [Keys({Key(32)})];
    assert es2[1..] == [];
    assert Step(s1, es2[0]).selection == Changed(key);
    assert Selections(s1, es2) == [Changed(key)];
    var es := [Buttons({STICK})] + es2;
    assert es[1..] == es2;
    assert Held(button, es2) == Combination({Key(32)}, {STICK});
    assert Held(NOTHING, es) == Combination({Key(32)}, {STICK});
    assert Step(s0, es[0]).next == s1;
    assert Selections(s0, es) == [Changed(button), Changed(key)];
  }
}
