/** The model set of `CAircraftMatcher` with the models disabled for matching. */
module ModelSet {
  import opened Basics
  import opened ModelMatcher
  import opened ModelMatching

  datatype State = State(active: Models, disabled: Models)

  function Restored(s: State): State {
    s.(active := ReplaceOrAdd(s.active, s.disabled))
  }

  function Disabled(s: State, removed: Models, incremental: bool): State {
    if incremental then State(RemoveKeys(s.active, Keys(removed)), s.disabled + removed)
    else State(RemoveKeys(Restored(s).active, Keys(removed)), removed)
  }

  function Cleaned(models: Models): Models {
    Find(models, (m: Model) => m.key != "" && !m.excluded)
  }

  /** `simulator` is the simulator of the set, none for more than one. */
  class AircraftMatcher {
    var modelSet: Models
    var disabledModels: Models
    var simulator: Option<string>
    var removeFromSetIfFailed: bool

    constructor (removeFromSetIfFailed: bool)
      ensures View() == State([], []) && simulator == None
      ensures this.removeFromSetIfFailed == removeFromSetIfFailed
    {
      modelSet, disabledModels, simulator := [], [], None;
      this.removeFromSetIfFailed := removeFromSetIfFailed;
    }

    ghost function View(): State
      reads this
    {
      State(modelSet, disabledModels)
    }

    /** A set for the same simulator with as many models is taken for the same set; the disabled
        models stay as they are. */
    method SetModelSet(models: Models, newSimulator: Option<string>, forced: bool) returns (count: nat)
      modifies this`modelSet, this`simulator
      ensures var same := !forced && old(simulator) == newSimulator && |old(modelSet)| == |Cleaned(models)|;
              if newSimulator.None? || same then modelSet == old(modelSet) && simulator == old(simulator)
              else modelSet == Cleaned(models) && simulator == newSimulator
      ensures count == if newSimulator.None? then 0
                       else if !forced && old(simulator) == newSimulator && |old(modelSet)| == |Cleaned(models)|
                       then |old(modelSet)|
                       else |models|
    {
      if newSimulator.None? { return 0; }
      var withString := Find(models, (m: Model) => m.key != "");
      var cleaned := Find(withString, (m: Model) => !m.excluded);
      FindTwice(models, (m: Model) => m.key != "", (m: Model) => !m.excluded, (m: Model) => m.key != "" && !m.excluded);
      if !forced && simulator == newSimulator && |modelSet| == |cleaned| { return |modelSet|; }
      modelSet := cleaned;
      simulator := newSimulator;
      count := |models|;
    }

    method DisableModelsForMatching(removedModels: Models, incremental: bool)
      modifies this`modelSet, this`disabledModels
      ensures View() == Disabled(old(View()), removedModels, incremental)
    {
      if incremental {
        modelSet := RemoveKeys(modelSet, Keys(removedModels));
        disabledModels := disabledModels + removedModels;
      } else {
        RestoreDisabledModels();
        disabledModels := removedModels;
        modelSet := RemoveKeys(modelSet, Keys(removedModels));
      }
    }

    method RestoreDisabledModels()
      modifies this`modelSet
      ensures View() == Restored(old(View()))
    {
      modelSet := ReplaceOrAdd(modelSet, disabledModels);
    }

    /** The model of an aircraft that could not be added is disabled on top of the others. */
    method AddingRemoteModelFailed(hasCallsign: bool, model: Model)
      modifies this`modelSet, this`disabledModels
      ensures View() == if removeFromSetIfFailed && hasCallsign && model.key != ""
                        then Disabled(old(View()), [model], true) else old(View())
    {
      if !removeFromSetIfFailed { return; }
      if hasCallsign && model.key != "" {
        DisableModelsForMatching([model], true);
      }
    }
  }

  /** A new set consists of the given models with a string that are not excluded, in their order. */
  lemma CleanedMembers(models: Models, more: Models)
    ensures forall m :: m in Cleaned(models) <==> m in models && m.key != "" && !m.excluded
    ensures Cleaned(models + more) == Cleaned(models) + Cleaned(more)
  {
    FindMembers(models, (m: Model) => m.key != "" && !m.excluded);
    FindAppend(models, more, (m: Model) => m.key != "" && !m.excluded);
  }

  lemma {:induction false} FindTwice(models: Models, p: Model -> bool, q: Model -> bool, both: Model -> bool)
    requires forall m :: both(m) <==> p(m) && q(m)
    ensures Find(Find(models, p), q) == Find(models, both)
  {
    if models != [] {
      var m, rest := models[0], models[1..];
      var inner := Find(rest, p);
      FindTwice(rest, p, q, both);
      if p(m) {
        FindCons(m, inner, q);
      } else {
        assert [] + inner == inner && [] + Find(rest, both) == Find(rest, both);
      }
    }
  }

  lemma FindCons(m: Model, rest: Models, p: Model -> bool)
    ensures Find([m] + rest, p) == (if p(m) then [m] else []) + Find(rest, p)
  {
    assert ([m] + rest)[1..] == rest;
  }

  // ---------------------------------------------------------------------------
  // Runs, seen as sets of model strings
  // ---------------------------------------------------------------------------

  datatype Action = Disable(models: Models, incremental: bool) | Restore

  function Step(s: State, action: Action): State {
    match action
    case Disable(models, incremental) => Disabled(s, models, incremental)
    case Restore => Restored(s)
  }

  function Run(s: State, actions: seq<Action>): State {
    if actions == [] then s else Step(Run(s, actions[..|actions| - 1]), actions[|actions| - 1])
  }

  /** All strings seen, those on the disabled list, and those of them that are active again. */
  datatype History = History(all: set<string>, disabled: set<string>, again: set<string>)

  function Told(h: History, action: Action): History {
    match action
    case Disable(models, true) => History(h.all + Keys(models), h.disabled + Keys(models), h.again - Keys(models))
    case Disable(models, false) => History(h.all + Keys(models), Keys(models), {})
    case Restore => h.(again := h.disabled)
  }

  function Story(all: set<string>, actions: seq<Action>): History {
    if actions == [] then History(all, {}, {}) else Told(Story(all, actions[..|actions| - 1]), actions[|actions| - 1])
  }

  lemma KeysAppend(a: Models, b: Models)
    ensures Keys(a + b) == Keys(a) + Keys(b)
  {
    forall k | k in Keys(a) + Keys(b) ensures k in Keys(a + b) {
      if k in Keys(a) {
        var m :| m in a && m.key == k && m.key != "";
        assert m in a + b;
      } else {
        var m :| m in b && m.key == k && m.key != "";
        assert m in a + b;
      }
    }
  }

  lemma KeysRemoved(models: Models, keys: set<string>)
    ensures Keys(RemoveKeys(models, keys)) == Keys(models) - keys
  {
    RemoveKeysMembers(models, keys);
  }

  lemma KeysReplaced(models: Models, added: Models)
    ensures Keys(ReplaceOrAdd(models, added)) == Keys(models) + Keys(added)
  {
    assert Keys([]) == {};
    KeysRemoved(models, Keys(added));
    KeysAppend(RemoveKeys(models, Keys(added)), added);
  }

  /** The lists refine the sets: over every run of disable and restore calls, whatever models they
      name, the active strings are all that were seen less the disabled ones not restored. */
  lemma {:induction false} ListsFollowStory(models: Models, actions: seq<Action>)
    ensures var s, h := Run(State(models, []), actions), Story(Keys(models), actions);
            && Keys(s.disabled) == h.disabled && Keys(s.active) == h.all - (h.disabled - h.again)
            && h.again <= h.disabled <= h.all
  {
    if actions == [] {
      assert Keys([]) == {};
    } else {
      var before, action := actions[..|actions| - 1], actions[|actions| - 1];
      var s, h := Run(State(models, []), before), Story(Keys(models), before);
      ListsFollowStory(models, before);
      StepFollowsStory(s, h, action);
    }
  }

  lemma StepFollowsStory(s: State, h: History, action: Action)
    requires Keys(s.disabled) == h.disabled && Keys(s.active) == h.all - (h.disabled - h.again)
    requires h.again <= h.disabled <= h.all
    ensures var s', h' := Step(s, action), Told(h, action);
            && Keys(s'.disabled) == h'.disabled && Keys(s'.active) == h'.all - (h'.disabled - h'.again)
            && h'.again <= h'.disabled <= h'.all
  {
    KeysReplaced(s.active, s.disabled);
    if action.Disable? {
      KeysRemoved(s.active, Keys(action.models));
      KeysRemoved(Restored(s).active, Keys(action.models));
      KeysAppend(s.disabled, action.models);
    }
  }

  /** The strings that the disable calls of a run name. */
  function Asked(actions: seq<Action>): set<string> {
    if actions == [] then {}
    else
      var last := actions[|actions| - 1];
      Asked(actions[..|actions| - 1]) + (if last.Disable? then Keys(last.models) else {})
  }

  lemma {:induction false} AllAreKnown(all: set<string>, actions: seq<Action>)
    ensures Story(all, actions).all == all + Asked(actions)
  {
    if actions != [] {
      AllAreKnown(all, actions[..|actions| - 1]);
    }
  }

  lemma {:induction false} NothingAgain(all: set<string>, actions: seq<Action>)
    requires forall action | action in actions :: action.Disable?
    ensures Story(all, actions).again == {}
  {
    if actions != [] {
      NothingAgain(all, actions[..|actions| - 1]);
    }
  }

  /** Over every run of incremental and full disable calls the active and the disabled strings are
      disjoint; together they are the original ones exactly if only such models were disabled. */
  lemma DisablingConservesIff(models: Models, actions: seq<Action>)
    requires forall action | action in actions :: action.Disable?
    ensures var s := Run(State(models, []), actions);
            && Keys(s.active) !! Keys(s.disabled)
            && (Keys(s.active) + Keys(s.disabled) == Keys(models) <==> Asked(actions) <= Keys(models))
  {
    ListsFollowStory(models, actions);
    AllAreKnown(Keys(models), actions);
    NothingAgain(Keys(models), actions);
  }

  /** A final restore gives back exactly the original strings, whatever happened before, restores
      included, if and only if nothing but models of the set was disabled. */
  lemma FinalRestoreIff(models: Models, actions: seq<Action>)
    ensures var s := Run(State(models, []), actions + [Restore]);
            Keys(s.active) == Keys(models) <==> Asked(actions) <= Keys(models)
  {
    ListsFollowStory(models, actions + [Restore]);
    AllAreKnown(Keys(models), actions);
    assert (actions + [Restore])[..|actions|] == actions;
  }

  /** A restore does not empty the disabled list, so after it the two overlap unless that was empty. */
  lemma RestoreOverlapsIff(models: Models, actions: seq<Action>)
    ensures var s := Run(State(models, []), actions + [Restore]);
            Keys(s.active) !! Keys(s.disabled) <==> Keys(s.disabled) == {}
  {
    ListsFollowStory(models, actions + [Restore]);
    assert (actions + [Restore])[..|actions|] == actions;
  }

  /** A new model set keeps the disabled models of the old one: the next restore, or the next full
      disabling, brings those strings into it that it does not have. */
  lemma NewSetIsPollutedIff(s: State, models: Models)
    ensures Keys(Restored(State(models, s.disabled)).active) == Keys(models) <==> Keys(s.disabled) <= Keys(models)
    ensures Keys(Disabled(State(models, s.disabled), [], false).active) == Keys(models) <==>
            Keys(s.disabled) <= Keys(models)
  {
    KeysReplaced(models, s.disabled);
    assert Keys([]) == {};
    KeysRemoved(Restored(State(models, s.disabled)).active, {});
  }

  // ---------------------------------------------------------------------------
  // Runs, seen as models
  // ---------------------------------------------------------------------------

  lemma CleanParts(a: Models, b: Models)
    requires Clean(a + b)
    ensures Clean(a) && Clean(b)
  {
    assert forall i | 0 <= i < |a| :: (a + b)[i] == a[i];
    assert forall i | 0 <= i < |b| :: (a + b)[|a| + i] == b[i];
    forall m | m in a ensures m.key != "" { assert m in a + b; }
    forall m | m in b ensures m.key != "" { assert m in a + b; }
  }

  /** Restoring gives a set without duplicates exactly if the disabled list has none. */
  lemma RestoreIsCleanIff(s: State)
    requires Clean(s.active)
    ensures Clean(Restored(s).active) <==> Clean(s.disabled)
  {
    var rest := RemoveKeys(s.active, Keys(s.disabled));
    if s.active == [] {
    } else if s.disabled != [] {
      if Clean(s.disabled) {
        KeysRemoved(s.active, Keys(s.disabled));
        RemoveKeysMembers(s.active, Keys(s.disabled));
        CleanAppend(rest, s.disabled);
      }
      if Clean(rest + s.disabled) {
        CleanParts(rest, s.disabled);
      }
    }
  }

  /** A model that fails twice is on the disabled list twice, and so in the set after a restore. */
  lemma FailingTwiceDuplicates(s: State, model: Model)
    requires Clean(s.active) && model.key != ""
    ensures !Clean(Restored(Disabled(Disabled(s, [model], true), [model], true)).active)
  {
    var once := Disabled(s, [model], true);
    var twice := Disabled(once, [model], true);
    RemoveKeysMembers(s.active, Keys([model]));
    RemoveKeysMembers(once.active, Keys([model]));
    RestoreIsCleanIff(twice);
    var n := |s.disabled|;
    assert twice.disabled[n] == twice.disabled[n + 1] == model;
  }

  ghost predicate Sound(s: State) {
    Clean(s.active) && Clean(s.disabled) && Keys(s.active) !! Keys(s.disabled)
  }

  function Members(s: State): set<Model> {
    (set m | m in s.active) + (set m | m in s.disabled)
  }

  /** Models to disable on top are active ones; models to disable instead are of the whole set. */
  ghost predicate Drawn(s: State, action: Action) {
    match action
    case Disable(models, true) => Clean(models) && forall m | m in models :: m in s.active
    case Disable(models, false) => Clean(models) && forall m | m in models :: m in Members(s)
    case Restore => false
  }

  ghost predicate AllDrawn(s: State, actions: seq<Action>) {
    actions == [] ||
    var n := |actions| - 1;
    AllDrawn(s, actions[..n]) && Drawn(Run(s, actions[..n]), actions[n])
  }

  lemma RestoredMembers(s: State)
    requires Sound(s)
    ensures Clean(Restored(s).active) && (set m | m in Restored(s).active) == Members(s)
  {
    RestoreIsCleanIff(s);
    RemoveKeysMembers(s.active, Keys(s.disabled));
    forall m | m in s.active ensures m.key in Keys(s.active) {}
    assert forall m | m in s.active :: m in RemoveKeys(s.active, Keys(s.disabled));
  }

  /** Cutting drawn models out by their strings cuts out those models and no others. */
  lemma CutIsExact(models: Models, removed: Models)
    requires Clean(models) && forall m | m in removed :: m in models
    ensures var left := RemoveKeys(models, Keys(removed));
            && Clean(left) && (forall m :: m in left <==> m in models && m !in removed)
  {
    RemoveKeysMembers(models, Keys(removed));
    forall m | m in models && m.key in Keys(removed) ensures m in removed {
      var m' :| m' in removed && m'.key == m.key;
      KeyDecides(models, m, m');
    }
    forall m | m in removed ensures m.key in Keys(removed) {}
  }

  lemma DrawnKeepsSound(s: State, action: Action)
    requires Sound(s) && Drawn(s, action)
    ensures Sound(Step(s, action)) && Members(Step(s, action)) == Members(s)
  {
    var removed, s' := action.models, Step(s, action);
    RestoredMembers(s);
    if action.incremental {
      CutIsExact(s.active, removed);
      assert Keys(removed) <= Keys(s.active);
      CleanAppend(s.disabled, removed);
      KeysAppend(s.disabled, removed);
      KeysRemoved(s.active, Keys(removed));
    } else {
      CutIsExact(Restored(s).active, removed);
      KeysRemoved(Restored(s).active, Keys(removed));
    }
    assert forall m :: m in Members(s') <==> m in Members(s);
  }

  /** Models are conserved: over every run of disable calls with models drawn from the set, active
      and disabled models are disjoint, without duplicates, and together the original models; a
      final restore gives back exactly these. */
  lemma {:induction false} ModelsAreConserved(models: Models, actions: seq<Action>)
    requires Clean(models) && AllDrawn(State(models, []), actions)
    ensures var s := Run(State(models, []), actions);
            && Sound(s) && Members(s) == set m | m in models
            && Clean(Restored(s).active) && (set m | m in Restored(s).active) == set m | m in models
  {
    var s0 := State(models, []);
    assert Keys([]) == {};
    if actions != [] {
      var n := |actions| - 1;
      ModelsAreConserved(models, actions[..n]);
      DrawnKeepsSound(Run(s0, actions[..n]), actions[n]);
    }
    RestoredMembers(Run(s0, actions));
  }
}
