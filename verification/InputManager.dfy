/** The hotkey engine `CInputManager`: two devices merged into one combination, actions pressed
    and released by the difference of the active sets, and a capture mode. */
module InputManager {
  import opened Basics

  datatype Key = Key(code: int)
  datatype Button = Button(device: string, index: int)

  /** A combination of keyboard keys and joystick buttons; the lists of the source hold no
      element twice and are sorted, so sets say the same. */
  datatype Combination = Combination(keys: set<Key>, buttons: set<Button>) {
    predicate IsEmpty() {
      keys == {} && buttons == {}
    }

    function Size(): nat {
      |keys| + |buttons|
    }

    predicate IsSubsetOf(other: Combination) {
      keys <= other.keys && buttons <= other.buttons
    }

    function DeltaComparedTo(other: Combination): Combination {
      Combination(keys - other.keys, buttons - other.buttons)
    }
  }

  const NOTHING := Combination({}, {})

  datatype Hotkey = Hotkey(local: bool, combination: Combination, action: string)

  type Configuration = map<Combination, string>

  /** The usable hotkeys; of two with the same combination the later one counts. */
  function Configured(hotkeys: seq<Hotkey>): Configuration {
    if hotkeys == [] then map[]
    else
      var n := |hotkeys| - 1;
      var hotkey := hotkeys[n];
      if !hotkey.local || hotkey.combination.IsEmpty() then Configured(hotkeys[..n])
      else Configured(hotkeys[..n])[hotkey.combination := hotkey.action]
  }

  /** The simple specification: actions whose combination is held down. */
  function Matching(configured: Configuration, held: Combination): set<string> {
    set c | c in configured && c.IsSubsetOf(held) :: configured[c]
  }

  datatype State = State(configured: Configuration, active: set<string>, last: Combination,
                         capturing: bool, captured: Combination, before: Combination)

  datatype Selection = Nothing | Changed(combination: Combination) | Finished(combination: Combination)

  /** `pressed` and `released` are the actions called with true and with false. */
  datatype Outcome = Outcome(next: State, pressed: set<string>, released: set<string>, selection: Selection)

  function Process(s: State, current: Combination): Outcome {
    if s.capturing then
      var delta := current.DeltaComparedTo(s.before);
      if s.captured.IsEmpty() && delta.IsEmpty() then Outcome(s, {}, {}, Nothing)
      else if delta.Size() < s.captured.Size() then Outcome(s.(capturing := false), {}, {}, Finished(s.captured))
      else Outcome(s.(captured := delta), {}, {}, Changed(delta))
    else
      var now := Matching(s.configured, current);
      Outcome(s.(active := now, last := current), now - s.active, s.active - now, Nothing)
  }

  function ProcessKeys(s: State, keys: set<Key>): Outcome {
    Process(s, Combination(keys, s.last.buttons))
  }

  function ProcessButtons(s: State, buttons: set<Button>): Outcome {
    Process(s, Combination(s.last.keys, buttons))
  }

  function StartCapture(s: State): State {
    s.(capturing := true, captured := NOTHING, before := s.last)
  }

  // ---------------------------------------------------------------------------
  // Calls of bound functions
  // ---------------------------------------------------------------------------

  datatype BindInfo = BindInfo(index: int, action: string)

  /** What a call of `callFunctionsBy` does outside: relayed actions and invoked functions. */
  datatype Effects = Effects(relayed: seq<(string, bool)>, invoked: seq<(int, bool)>) {
    function Then(other: Effects): Effects {
      Effects(relayed + other.relayed, invoked + other.invoked)
    }
  }

  const NO_EFFECTS := Effects([], [])

  function Invoked(bound: seq<BindInfo>, action: string, down: bool): seq<(int, bool)> {
    if bound == [] then []
    else
      var n := |bound| - 1;
      Invoked(bound[..n], action, down) + (if bound[n].action == action then [(bound[n].index, down)] else [])
  }

  function CallEffects(bound: seq<BindInfo>, relaying: bool, action: string, down: bool): Effects {
    if action == "" then NO_EFFECTS
    else Effects(if relaying then [(action, down)] else [], Invoked(bound, action, down))
  }

  function AllEffects(bound: seq<BindInfo>, relaying: bool, actions: seq<string>, down: bool): Effects {
    if actions == [] then NO_EFFECTS
    else
      var n := |actions| - 1;
      AllEffects(bound, relaying, actions[..n], down).Then(CallEffects(bound, relaying, actions[n], down))
  }

  function Unbound(bound: seq<BindInfo>, index: int): seq<BindInfo> {
    if bound == [] then []
    else if bound[0].index == index then bound[1..]
    else [bound[0]] + Unbound(bound[1..], index)
  }

  function WithoutIndex(calls: seq<(int, bool)>, index: int): seq<(int, bool)> {
    if calls == [] then []
    else
      var n := |calls| - 1;
      WithoutIndex(calls[..n], index) + (if calls[n].0 == index then [] else [calls[n]])
  }

  ghost function Indices(bound: seq<BindInfo>): set<int> {
    set i | 0 <= i < |bound| :: bound[i].index
  }

  /** The indices in use are below the next one, so a binding can be told from all others. */
  ghost predicate FreshIndices(bound: seq<BindInfo>, nextIndex: int) {
    && (forall i | 0 <= i < |bound| :: bound[i].index < nextIndex)
    && (forall i, j | 0 <= i < j < |bound| :: bound[i].index != bound[j].index)
  }

  lemma {:induction false} UnboundCuts(bound: seq<BindInfo>, index: int, i: nat)
    requires i <= |bound| && index !in Indices(bound[..i])
    requires i < |bound| ==> bound[i].index == index
    ensures Unbound(bound, index) == if i < |bound| then bound[..i] + bound[i + 1..] else bound
  {
    if i > 0 {
      assert bound[..i][0].index in Indices(bound[..i]);
      assert bound[1..][..i - 1] == bound[..i][1..];
      UnboundCuts(bound[1..], index, i - 1);
      assert bound == [bound[0]] + bound[1..];
      if i < |bound| {
        assert bound[1..][..i - 1] == bound[1..i] && bound[1..][i..] == bound[i + 1..];
      }
    }
  }

  lemma {:induction false} UnboundSnoc(bound: seq<BindInfo>, b: BindInfo, index: int)
    ensures Unbound(bound + [b], index) ==
            if index in Indices(bound) then Unbound(bound, index) + [b]
            else if b.index == index then bound
            else bound + [b]
  {
    if bound == [] {
      assert bound + [b] == [b];
    } else {
      UnboundSnoc(bound[1..], b, index);
      assert (bound + [b])[1..] == bound[1..] + [b];
      assert bound == [bound[0]] + bound[1..];
    }
  }

  lemma {:induction false} UnboundAbsent(bound: seq<BindInfo>, index: int)
    requires index !in Indices(bound)
    ensures Unbound(bound, index) == bound
  {
    UnboundCuts(bound, index, |bound|);
  }

  lemma InvokedSnoc(bound: seq<BindInfo>, b: BindInfo, action: string, down: bool)
    ensures Invoked(bound + [b], action, down) ==
            Invoked(bound, action, down) + (if b.action == action then [(b.index, down)] else [])
  {
    assert (bound + [b])[..|bound|] == bound;
  }

  lemma WithoutIndexSnoc(calls: seq<(int, bool)>, call: (int, bool), index: int)
    ensures WithoutIndex(calls + [call], index) == WithoutIndex(calls, index) + (if call.0 == index then [] else [call])
  {
    assert (calls + [call])[..|calls|] == calls;
  }

  /** With distinct indices exactly the one binding goes, and the indices stay distinct. */
  lemma {:induction false} UnboundKeepsOthers(bound: seq<BindInfo>, nextIndex: int, index: int)
    requires FreshIndices(bound, nextIndex)
    ensures forall b :: b in Unbound(bound, index) <==> b in bound && b.index != index
    ensures FreshIndices(Unbound(bound, index), nextIndex)
  {
    if bound != [] {
      var b, rest := bound[0], bound[1..];
      assert bound == [b] + rest;
      UnboundKeepsOthers(rest, nextIndex, index);
    }
  }

  lemma InvokedSnocUnbound(init: seq<BindInfo>, b: BindInfo, index: int, action: string, down: bool)
    requires b.index == index ==> index !in Indices(init)
    requires Invoked(Unbound(init, index), action, down) == WithoutIndex(Invoked(init, action, down), index)
    ensures Invoked(Unbound(init + [b], index), action, down) == WithoutIndex(Invoked(init + [b], action, down), index)
  {
    var all := init + [b];
    var calls := Invoked(init, action, down);
    assert Unbound(all, index) == if b.index == index then init else Unbound(init, index) + [b] by {
      UnboundSnoc(init, b, index);
      if index !in Indices(init) { UnboundAbsent(init, index); }
    }
    assert b.index == index ==> WithoutIndex(calls, index) == calls by {
      if b.index == index { UnboundAbsent(init, index); }
    }
    var kept := WithoutIndex(calls, index);
    assert kept + [] == kept && calls + [] == calls;
    var more := calls + [(b.index, down)];
    assert WithoutIndex(more, index) == if b.index == index then kept else kept + [(b.index, down)] by {
      WithoutIndexSnoc(calls, (b.index, down), index);
    }
    InvokedSnoc(init, b, action, down);
    InvokedSnoc(Unbound(init, index), b, action, down);
  }

  /** Unbinding silences the one binding: every call invokes the other functions as before, in
      the same order. */
  lemma {:induction false} UnboundIsNotInvoked(bound: seq<BindInfo>, nextIndex: int, index: int, action: string,
                                               down: bool)
    requires FreshIndices(bound, nextIndex)
    ensures Invoked(Unbound(bound, index), action, down) == WithoutIndex(Invoked(bound, action, down), index)
  {
    if bound != [] {
      var init, b := bound[..|bound| - 1], bound[|bound| - 1];
      assert bound == init + [b];
      UnboundIsNotInvoked(init, nextIndex, index, action, down);
      assert b.index == index ==> index !in Indices(init);
      InvokedSnocUnbound(init, b, index, action, down);
    }
  }

  class HotkeyManager {
    var configuredActions: Configuration
    var activeActions: set<string>
    var boundActions: seq<BindInfo>
    var nextIndex: int
    var actionRelayingEnabled: bool
    var captureActive: bool
    var lastCombination: Combination
    var capturedCombination: Combination
    var combinationBeforeCapture: Combination

    constructor (hotkeys: seq<Hotkey>)
      ensures View() == State(Configured(hotkeys), {}, NOTHING, false, NOTHING, NOTHING)
      ensures boundActions == [] && !actionRelayingEnabled && nextIndex == 0
    {
      configuredActions, activeActions, boundActions, nextIndex := map[], {}, [], 0;
      actionRelayingEnabled, captureActive := false, false;
      lastCombination, capturedCombination, combinationBeforeCapture := NOTHING, NOTHING, NOTHING;
      new;
      ReloadHotkeySettings(hotkeys);
    }

    ghost function View(): State
      reads this
    {
      State(configuredActions, activeActions, lastCombination,
            captureActive, capturedCombination, combinationBeforeCapture)
    }

    method ReloadHotkeySettings(hotkeys: seq<Hotkey>)
      modifies this`configuredActions
      ensures configuredActions == Configured(hotkeys)
    {
      configuredActions := map[];
      for i := 0 to |hotkeys|
        invariant configuredActions == Configured(hotkeys[..i])
      {
        var hotkey := hotkeys[i];
        assert hotkeys[..i + 1][..i] == hotkeys[..i];
        if !hotkey.local { continue; }
        if hotkey.combination.IsEmpty() { continue; }
        configuredActions := configuredActions[hotkey.combination := hotkey.action];
      }
      assert hotkeys[..|hotkeys|] == hotkeys;
    }

    method Bind(action: string) returns (index: int)
      requires FreshIndices(boundActions, nextIndex)
      modifies this`boundActions, this`nextIndex
      ensures FreshIndices(boundActions, nextIndex)
      ensures boundActions == old(boundActions) + [BindInfo(index, action)]
    {
      index := nextIndex;
      nextIndex := nextIndex + 1;
      boundActions := boundActions + [BindInfo(index, action)];
    }

    /** Erases the first binding with the index, if there is one. */
    method Unbind(index: int)
      modifies this`boundActions
      ensures boundActions == Unbound(old(boundActions), index)
    {
      var i := 0;
      while i < |boundActions| && boundActions[i].index != index
        invariant 0 <= i <= |boundActions|
        invariant index !in Indices(boundActions[..i])
      {
        i := i + 1;
      }
      UnboundCuts(boundActions, index, i);
      if i < |boundActions| {
        boundActions := boundActions[..i] + boundActions[i + 1..];
      }
    }

    method CallFunctionsBy(action: string, isKeyDown: bool) returns (effects: Effects)
      ensures effects == CallEffects(boundActions, actionRelayingEnabled, action, isKeyDown)
    {
      if action == "" { return NO_EFFECTS; }
      var relayed := if actionRelayingEnabled then [(action, isKeyDown)] else [];
      var invoked: seq<(int, bool)> := [];
      for i := 0 to |boundActions|
        invariant invoked == Invoked(boundActions[..i], action, isKeyDown)
      {
        assert boundActions[..i + 1][..i] == boundActions[..i];
        if boundActions[i].action == action {
          invoked := invoked + [(boundActions[i].index, isKeyDown)];
        }
      }
      assert boundActions[..|boundActions|] == boundActions;
      effects := Effects(relayed, invoked);
    }

    method CallAll(actions: seq<string>, isKeyDown: bool) returns (effects: Effects)
      ensures effects == AllEffects(boundActions, actionRelayingEnabled, actions, isKeyDown)
    {
      effects := NO_EFFECTS;
      for i := 0 to |actions|
        invariant effects == AllEffects(boundActions, actionRelayingEnabled, actions[..i], isKeyDown)
      {
        assert actions[..i + 1][..i] == actions[..i];
        var called := CallFunctionsBy(actions[i], isKeyDown);
        effects := effects.Then(called);
      }
      assert actions[..|actions|] == actions;
    }

    method MatchingActions(current: Combination) returns (actions: set<string>)
      ensures actions == Matching(configuredActions, current)
    {
      actions := {};
      var combinations := ListOf(configuredActions.Keys);
      for i := 0 to |combinations|
        invariant forall action :: action in actions <==>
                    exists k :: 0 <= k < i && combinations[k].IsSubsetOf(current)
                                && configuredActions[combinations[k]] == action
      {
        if combinations[i].IsSubsetOf(current) {
          actions := actions + {configuredActions[combinations[i]]};
        }
      }
      forall action | action in Matching(configuredActions, current) ensures action in actions {
        var c :| c in configuredActions && c.IsSubsetOf(current) && configuredActions[c] == action;
        assert c in combinations;
      }
    }

    /** Calls the pressed actions with true, then the released ones with false, each group in an
        order that depends on the hash. */
    method ProcessCombination(current: Combination)
      returns (effects: Effects, selection: Selection, ghost pressed: seq<string>, ghost released: seq<string>)
      modifies this`captureActive, this`capturedCombination, this`activeActions, this`lastCombination
      ensures View() == Process(old(View()), current).next
      ensures selection == Process(old(View()), current).selection
      ensures Lists(pressed, Process(old(View()), current).pressed)
      ensures Lists(released, Process(old(View()), current).released)
      ensures effects == AllEffects(boundActions, actionRelayingEnabled, pressed, true)
                         .Then(AllEffects(boundActions, actionRelayingEnabled, released, false))
    {
      effects, selection, pressed, released := NO_EFFECTS, Nothing, [], [];
      if captureActive {
        var delta := current.DeltaComparedTo(combinationBeforeCapture);
        if capturedCombination.IsEmpty() && delta.IsEmpty() { return; }
        if delta.Size() < capturedCombination.Size() {
          selection := Finished(capturedCombination);
          captureActive := false;
        } else {
          selection := Changed(delta);
          capturedCombination := delta;
        }
        return;
      }
      var newActiveActions := MatchingActions(current);
      var pressedActions := ListOf(newActiveActions - activeActions);
      var releasedActions := ListOf(activeActions - newActiveActions);
      activeActions := newActiveActions;
      var ups, downs;
      downs := CallAll(pressedActions, true);
      ups := CallAll(releasedActions, false);
      effects, pressed, released := downs.Then(ups), pressedActions, releasedActions;
      lastCombination := current;
    }

    method ProcessKeyCombinationChanged(keys: set<Key>)
      returns (effects: Effects, selection: Selection, ghost pressed: seq<string>, ghost released: seq<string>)
      modifies this`captureActive, this`capturedCombination, this`activeActions, this`lastCombination
      ensures View() == ProcessKeys(old(View()), keys).next
      ensures selection == ProcessKeys(old(View()), keys).selection
      ensures Lists(pressed, ProcessKeys(old(View()), keys).pressed)
      ensures Lists(released, ProcessKeys(old(View()), keys).released)
      ensures effects == AllEffects(boundActions, actionRelayingEnabled, pressed, true)
                         .Then(AllEffects(boundActions, actionRelayingEnabled, released, false))
    {
      effects, selection, pressed, released := ProcessCombination(Combination(keys, lastCombination.buttons));
    }

    method ProcessButtonCombinationChanged(buttons: set<Button>)
      returns (effects: Effects, selection: Selection, ghost pressed: seq<string>, ghost released: seq<string>)
      modifies this`captureActive, this`capturedCombination, this`activeActions, this`lastCombination
      ensures View() == ProcessButtons(old(View()), buttons).next
      ensures selection == ProcessButtons(old(View()), buttons).selection
      ensures Lists(pressed, ProcessButtons(old(View()), buttons).pressed)
      ensures Lists(released, ProcessButtons(old(View()), buttons).released)
      ensures effects == AllEffects(boundActions, actionRelayingEnabled, pressed, true)
                         .Then(AllEffects(boundActions, actionRelayingEnabled, released, false))
    {
      effects, selection, pressed, released := ProcessCombination(Combination(lastCombination.keys, buttons));
    }

    method BeginCapture()
      modifies this`captureActive, this`capturedCombination, this`combinationBeforeCapture
      ensures View() == StartCapture(old(View()))
    {
      captureActive := true;
      capturedCombination := NOTHING;
      combinationBeforeCapture := lastCombination;
    }

    /** Calls the action of the last combination with false and the new one with true, past the
        set of active actions. */
    method TriggerKey(combination: Combination) returns (effects: Effects)
      modifies this`lastCombination
      ensures View() == old(View()).(last := combination)
      ensures var previous := ActionOf(configuredActions, old(lastCombination));
              var action := ActionOf(configuredActions, combination);
              effects == CallEffects(boundActions, actionRelayingEnabled, previous, false)
                         .Then(CallEffects(boundActions, actionRelayingEnabled, action, true))
    {
      var previous := ActionOf(configuredActions, lastCombination);
      var action := ActionOf(configuredActions, combination);
      var up := CallFunctionsBy(previous, false);
      var down := CallFunctionsBy(action, true);
      effects := up.Then(down);
      lastCombination := combination;
    }
  }

  /** `QHash::value`: the empty action if there is none. */
  function ActionOf(configured: Configuration, c: Combination): string {
    if c in configured then configured[c] else ""
  }
}
