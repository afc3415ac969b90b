/** What the matcher's reductions keep: never all candidates lost, none twice, none from outside
    the set; what the `reduced` flag tells and where it does not. */
module ModelMatching {
  import opened Basics
  import opened ModelMatcher

  // ---------------------------------------------------------------------------
  // Lists
  // ---------------------------------------------------------------------------

  lemma {:induction false} FindMembers(models: Models, p: Model -> bool)
    ensures forall m :: m in Find(models, p) <==> m in models && p(m)
  {
    if models != [] {
      FindMembers(models[1..], p);
      assert models == [models[0]] + models[1..];
    }
  }

  /** Searching keeps the order of the list. */
  lemma {:induction false} FindAppend(a: Models, b: Models, p: Model -> bool)
    ensures Find(a + b, p) == Find(a, p) + Find(b, p)
  {
    if a == [] {
      assert a + b == b;
    } else {
      var head, rest := if p(a[0]) then [a[0]] else [], Find(a[1..], p);
      FindAppend(a[1..], b, p);
      assert (a + b)[1..] == a[1..] + b;
      assert head + (rest + Find(b, p)) == (head + rest) + Find(b, p);
    }
  }

  lemma CleanRest(models: Models)
    requires Clean(models) && models != []
    ensures Clean(models[1..]) && forall m | m in models[1..] :: m.key != models[0].key
  {
  }

  lemma {:induction false} FindClean(models: Models, p: Model -> bool)
    requires Clean(models)
    ensures Clean(Find(models, p))
  {
    if models != [] {
      CleanRest(models);
      FindClean(models[1..], p);
      FindMembers(models[1..], p);
    }
  }

  lemma {:induction false} FindLength(models: Models, p: Model -> bool)
    ensures |Find(models, p)| <= |models|
    ensures |Find(models, p)| == |models| <==> forall m | m in models :: p(m)
    ensures |Find(models, p)| == |models| ==> Find(models, p) == models
  {
    if models != [] {
      FindLength(models[1..], p);
      assert models == [models[0]] + models[1..];
    }
  }

  lemma CleanAppend(a: Models, b: Models)
    requires Clean(a) && Clean(b) && Keys(a) !! Keys(b)
    ensures Clean(a + b)
  {
    forall i, j | 0 <= i < j < |a + b| ensures (a + b)[i].key != (a + b)[j].key {
      if i < |a| && |a| <= j {
        assert a[i].key in Keys(a) && b[j - |a|].key in Keys(b);
      }
    }
  }

  lemma KeyDecides(models: Models, m: Model, m': Model)
    requires Clean(models) && m in models && m' in models && m.key == m'.key
    ensures m == m'
  {
  }

  /** What every reduction must keep: something is left, of the list, nothing twice. */
  ghost predicate Within(found: Models, models: Models) {
    && (models != [] ==> found != [])
    && (forall m | m in found :: m in models)
    && (Clean(models) ==> Clean(found))
  }

  /** Keeps the candidates, and leaves the list as it is unless it says so. */
  ghost predicate Keeps(r: Reduction, models: Models) {
    Within(r.models, models) && (!r.reduced ==> r.models == models)
  }

  lemma FoundIsWithin(models: Models, p: Model -> bool)
    ensures Keeps(IfAny(Find(models, p), models), models)
    ensures IfAny(Find(models, p), models).reduced <==> exists m :: m in models && p(m)
  {
    FindMembers(models, p);
    if Clean(models) {
      FindClean(models, p);
    }
    var found := Find(models, p);
    if found != [] {
      assert found[0] in found;
    }
  }

  // ---------------------------------------------------------------------------
  // Reductions that tell when they reduce
  // ---------------------------------------------------------------------------

  lemma ByLiveryKeeps(a: Model, models: Models)
    ensures Keeps(ByLiveryAndAircraft(a, models), models)
  {
    FoundIsWithin(models, (m: Model) => m.icao.designator == a.livery && a.icao.designator != ""
                                        && m.livery == a.icao.designator);
  }

  lemma ByManufacturerKeeps(a: Model, models: Models)
    ensures Keeps(ByManufacturer(a, models), models)
  {
    FoundIsWithin(models, (m: Model) => m.icao.manufacturer == a.icao.manufacturer);
  }

  lemma ByAircraftKeeps(a: Model, models: Models)
    ensures Keeps(ByAircraft(a, models), models)
  {
    FoundIsWithin(models, (m: Model) => m.icao.designator == a.icao.designator);
  }

  /** Is the model of the type and the manufacturer, as far as the remote aircraft has them? */
  predicate PseudoFamily(a: Model, m: Model) {
    if a.icao.manufacturer == "" then MatchesCombinedType(m.icao, a.icao.combinedType)
    else m.icao.manufacturer == a.icao.manufacturer
         && (a.icao.combinedType == "" || MatchesCombinedType(m.icao, a.icao.combinedType))
  }

  lemma FindByPseudoFamily(a: Model, models: Models)
    ensures forall m :: m in FindByCombinedAndManufacturer(models, a.icao) <==> m in models && PseudoFamily(a, m)
    ensures Clean(models) ==> Clean(FindByCombinedAndManufacturer(models, a.icao))
  {
    var p := if a.icao.manufacturer == "" then (m: Model) => MatchesCombinedType(m.icao, a.icao.combinedType)
             else if a.icao.combinedType == "" then (m: Model) => m.icao.manufacturer == a.icao.manufacturer
             else (m: Model) => MatchesCombinedType(m.icao, a.icao.combinedType)
                                && m.icao.manufacturer == a.icao.manufacturer;
    FindMembers(models, p);
    if Clean(models) {
      FindClean(models, p);
    }
  }

  lemma FindByFamilyMembers(family: string, models: Models)
    ensures forall m :: m in FindByFamily(models, family) <==> m in models && family != "" && m.icao.family == family
    ensures Clean(models) ==> Clean(FindByFamily(models, family))
  {
    FindMembers(models, (m: Model) => m.icao.family == family);
    if Clean(models) {
      FindClean(models, (m: Model) => m.icao.family == family);
    }
  }

  lemma RemoveKeysMembers(models: Models, keys: set<string>)
    ensures forall m :: m in RemoveKeys(models, keys) <==> m in models && m.key !in keys
    ensures Clean(models) ==> Clean(RemoveKeys(models, keys))
  {
    FindMembers(models, (m: Model) => m.key !in keys);
    if Clean(models) {
      FindClean(models, (m: Model) => m.key !in keys);
    }
  }

  /** First one part of a list, then what another part adds by key: their union, nothing twice. */
  lemma AddedByKey(models: Models, first: Models, second: Models)
    requires forall m | m in first :: m in models
    requires forall m | m in second :: m in models
    requires Clean(models) ==> Clean(first) && Clean(second)
    ensures var all := first + RemoveKeys(second, Keys(first));
            && (forall m | m in all :: m in first || m in second)
            && (all == [] <==> first == [] && second == [])
            && (Clean(models) ==> Clean(all) && forall m | m in first || m in second :: m in all)
  {
    RemoveKeysMembers(second, Keys(first));
    var rest := RemoveKeys(second, Keys(first));
    if first == [] && second != [] {
      assert second[0] in rest;
    }
    if rest != [] {
      assert rest[0] in rest;
    }
    if Clean(models) {
      assert Keys(first) !! Keys(rest);
      CleanAppend(first, rest);
      forall m | m in first || m in second ensures m in first + rest {
        if m in second && m !in rest {
          assert m.key in Keys(first);
          var m' :| m' in first && m'.key == m.key;
          KeyDecides(models, m, m');
        }
      }
    }
  }

  lemma ByFamilyNamedKeeps(a: Model, family: string, pseudo: bool, models: Models)
    ensures Keeps(ByFamilyNamed(a, family, pseudo, models), models)
  {
    FindByFamilyMembers(family, models);
    FindByPseudoFamily(a, models);
    var found := FindByFamily(models, family);
    AddedByKey(models, found, if pseudo then FindByCombinedAndManufacturer(models, a.icao) else []);
  }

  /** What a family reduction finds: all models of the family or, with pseudo families, of the
      type and manufacturer. */
  lemma ByFamilyNamedFinds(a: Model, family: string, pseudo: bool, models: Models, m: Model)
    requires Clean(models) && ByFamilyNamed(a, family, pseudo, models).reduced
    ensures m in ByFamilyNamed(a, family, pseudo, models).models <==>
            m in models && ((family != "" && m.icao.family == family) || (pseudo && PseudoFamily(a, m)))
  {
    FindByFamilyMembers(family, models);
    FindByPseudoFamily(a, models);
    var found := FindByFamily(models, family);
    AddedByKey(models, found, if pseudo then FindByCombinedAndManufacturer(models, a.icao) else []);
  }

  lemma ByFamilyKeeps(a: Model, pseudo: bool, models: Models)
    ensures Keeps(ByFamily(a, pseudo, models), models)
  {
    ByFamilyNamedKeeps(a, a.icao.family, pseudo, models);
    ByFamilyNamedKeeps(a, a.icao.designator, pseudo, models);
  }

  lemma ByAircraftOrFamilyKeeps(a: Model, models: Models, setup: Setup)
    ensures Keeps(ByAircraftOrFamily(a, models, setup), models)
  {
    ByAircraftKeeps(a, models);
    ByFamilyKeeps(a, true, models);
  }

  lemma ReplaceOrAddUnites(models: Models, p: Model -> bool, q: Model -> bool)
    ensures var all := ReplaceOrAdd(Find(models, p), Find(models, q));
            && (forall m | m in all :: m in models && (p(m) || q(m)))
            && (Clean(models) ==> Clean(all) && forall m | m in models && (p(m) || q(m)) :: m in all)
  {
    FindMembers(models, p);
    FindMembers(models, q);
    if Clean(models) {
      FindClean(models, p);
      FindClean(models, q);
    }
    var first, second := Find(models, p), Find(models, q);
    var rest := RemoveKeys(first, Keys(second));
    RemoveKeysMembers(first, Keys(second));
    if Clean(models) {
      assert Keys(rest) !! Keys(second);
      CleanAppend(rest, second);
      forall m | m in first ensures m in rest + second {
        if m !in rest {
          assert m.key in Keys(second);
          var m' :| m' in second && m'.key == m.key;
          KeyDecides(models, m, m');
        }
      }
    }
  }

  /** Does a search for the airline take in the airline's group? */
  predicate WithGroup(a: Model, models: Models, setup: Setup) {
    && a.airline.group >= 0 && a.airline.groupDesignator != ""
    && (setup.AsksForGroup() || FindByAirline(models, a.airline.designator) == [])
  }

  lemma ByAirlineKeeps(a: Model, models: Models, setup: Setup)
    ensures Keeps(ByAirline(a, models, setup), models)
  {
    var p := (m: Model) => m.airline.designator == a.airline.designator;
    var q := (m: Model) => m.airline.group == a.airline.group;
    FoundIsWithin(models, p);
    ReplaceOrAddUnites(models, p, q);
    var all := ReplaceOrAdd(Find(models, p), Find(models, q));
    assert Keeps(IfAny(all, models), models) by {
      if all != [] { assert all[0] in all; }
    }
  }

  /** What an airline reduction finds: all models of the airline and, with the group, of its group. */
  lemma ByAirlineFinds(a: Model, models: Models, setup: Setup, m: Model)
    requires Clean(models) && ByAirline(a, models, setup).reduced
    ensures m in ByAirline(a, models, setup).models <==>
            m in models && (m.airline.designator == a.airline.designator
                            || (WithGroup(a, models, setup) && m.airline.group == a.airline.group))
  {
    var p := (m: Model) => m.airline.designator == a.airline.designator;
    var q := (m: Model) => m.airline.group == a.airline.group;
    FindMembers(models, p);
    ReplaceOrAddUnites(models, p, q);
  }

  /** Name and telephony: the flag is set exactly when the list gets shorter. */
  lemma NameReductionFlag(name: string, telephony: string, byName: Model -> bool, byTelephony: Model -> bool,
                          models: Models)
    ensures var r := ByAirlineNameOrTelephony(name, telephony, byName, byTelephony, models);
            Keeps(r, models) && (r.reduced <==> |r.models| < |models|)
  {
    ProperPart(models, byName);
    ProperPart(models, byTelephony);
  }

  /** Some models have it, others have not. */
  ghost predicate Splits(models: Models, p: Model -> bool) {
    (exists m :: m in models && p(m)) && exists m :: m in models && !p(m)
  }

  /** What name and telephony keep: the models of the telephony designator if it tells models apart, else
      those of the name if that does; a single model of the name is kept at once. */
  lemma NameReductionFinds(name: string, telephony: string, byName: Model -> bool, byTelephony: Model -> bool,
                           models: Models, m: Model)
    ensures var r := ByAirlineNameOrTelephony(name, telephony, byName, byTelephony, models);
            m in r.models <==> m in models &&
                               (if name == "" && telephony == "" then true
                                else if Splits(models, byName) && |Find(models, byName)| == 1 then byName(m)
                                else if Splits(models, byTelephony) then byTelephony(m)
                                else Splits(models, byName) ==> byName(m))
  {
    FindMembers(models, byName);
    FindMembers(models, byTelephony);
    SplitsIff(models, byName);
    SplitsIff(models, byTelephony);
    if |models| == 1 {
      assert forall x | x in models :: x == models[0];
    }
  }

  lemma SplitsIff(models: Models, p: Model -> bool)
    ensures Splits(models, p) <==> Find(models, p) != [] && |Find(models, p)| != |models|
  {
    FindMembers(models, p);
    FindLength(models, p);
    var found := Find(models, p);
    assert found != [] ==> found[0] in found;
  }

  lemma ProperPart(models: Models, p: Model -> bool)
    ensures var found := Find(models, p);
            found != [] && |found| != |models| ==> Within(found, models) && |found| < |models|
  {
    FindLength(models, p);
    FoundIsWithin(models, p);
  }

  // ---------------------------------------------------------------------------
  // Reductions that do not tell
  // ---------------------------------------------------------------------------

  lemma ByIcaoDataWithin(a: Model, models: Models, setup: Setup, before: bool)
    ensures Within(ByIcaoData(a, models, setup, before).models, models)
  {
    var airlineFirst, aircraftFirst := ByAirline(a, models, setup).models, ByAircraftOrFamily(a, models, setup).models;
    var family := ByFamily(a, true, models).models;
    ByAirlineKeeps(a, models, setup);
    ByAircraftOrFamilyKeeps(a, airlineFirst, setup);
    ByAircraftOrFamilyKeeps(a, models, setup);
    ByAirlineKeeps(a, aircraftFirst, setup);
    ByFamilyKeeps(a, true, models);
    ByAirlineKeeps(a, family, setup);
  }

  /** The family a family reduction goes by: the one of the aircraft if it reduces by that, else its
      designator taken as one. */
  function UsedFamily(a: Model, pseudo: bool, models: Models): string {
    if a.icao.family != "" && ByFamilyNamed(a, a.icao.family, pseudo, models).reduced then a.icao.family
    else a.icao.designator
  }

  predicate InFamily(a: Model, models: Models, m: Model) {
    var family := UsedFamily(a, true, models);
    (family != "" && m.icao.family == family) || PseudoFamily(a, m)
  }

  lemma ByFamilyFinds(a: Model, models: Models, m: Model)
    requires Clean(models)
    ensures m in ByFamily(a, true, models).models <==>
            m in models && (ByFamily(a, true, models).reduced ==> InFamily(a, models, m))
  {
    ByFamilyKeeps(a, true, models);
    if ByFamily(a, true, models).reduced {
      ByFamilyNamedFinds(a, UsedFamily(a, true, models), true, models, m);
    }
  }

  /** The second search keeps a model: it is in the family, if any model is, and of the airline or,
      with the group, of its group. */
  predicate SecondFinds(a: Model, models: Models, setup: Setup, m: Model) {
    var family := ByFamily(a, true, models);
    && (family.reduced ==> InFamily(a, models, m))
    && (m.airline.designator == a.airline.designator
        || (WithGroup(a, family.models, setup) && m.airline.group == a.airline.group))
  }

  /** The ICAO step says nothing of a changed list exactly when the second search, by family and
      airline, succeeds with another list; and it drops models in silence exactly when some model
      is not what that search is for. */
  lemma IcaoFlagIff(a: Model, models: Models, setup: Setup, before: bool)
    requires models != []
    ensures var r := ByIcaoData(a, models, setup, before);
            && (!r.reduced && r.models != models <==>
                && SecondSearch(a, models, setup)
                && ByAirline(a, ByFamily(a, true, models).models, setup).models != models)
            && (Clean(models) ==>
                  ((!r.reduced && exists m :: m in models && m !in r.models) <==>
                   (SecondSearch(a, models, setup) && exists m :: m in models && !SecondFinds(a, models, setup, m))))
  {
    if Clean(models) && SecondSearch(a, models, setup) {
      var family := ByFamily(a, true, models).models;
      ByFamilyKeeps(a, true, models);
      forall m | m in models
        ensures m in ByAirline(a, family, setup).models <==> SecondFinds(a, models, setup, m)
      {
        ByFamilyFinds(a, models, m);
        ByAirlineFinds(a, family, setup, m);
      }
    }
  }

  /** The combined type keeps the flag unset on a changed list exactly when one model of several
      has the type. */
  lemma CombinedTypeFlagIff(a: Model, models: Models, setup: Setup)
    ensures var r := ByCombinedType(a, models, setup);
            && Within(r.models, models)
            && (!r.reduced && r.models != models <==>
                && ValidCombinedType(a.icao.combinedType)
                && |FindByCombinedType(models, a.icao.combinedType)| == 1 && |models| > 1)
  {
    var p := (m: Model) => MatchesCombinedType(m.icao, a.icao.combinedType);
    var found := FindByCombinedType(models, a.icao.combinedType);
    FindMembers(models, p);
    FindLength(models, p);
    if Clean(models) {
      FindClean(models, p);
    }
    if |found| > 1 {
      ByAirlineKeeps(a, found, setup);
      ByManufacturerKeeps(a, ByAirline(a, found, setup).models);
    }
  }

  /** The military and VTOL steps never set the flag, though they change the list exactly when
      some models have what is looked for and others have not. */
  lemma FlagStepsAreSilentIff(models: Models, p: Model -> bool)
    ensures var r := Unreduced(IfAny(Find(models, p), models).models);
            && Within(r.models, models) && !r.reduced
            && (r.models != models <==> (exists m :: m in models && p(m)) && exists m :: m in models && !p(m))
  {
    FoundIsWithin(models, p);
    FindMembers(models, p);
    FindLength(models, p);
  }

  lemma MilitaryFlagIff(a: Model, models: Models)
    ensures var r := ByMilitaryFlag(a, models);
            && Within(r.models, models) && !r.reduced
            && (r.models != models <==>
                && (exists m :: m in models && m.military == a.military)
                && (exists m :: m in models && m.military != a.military))
  {
    FlagStepsAreSilentIff(models, (m: Model) => m.military == a.military);
  }

  lemma VtolFlagIff(models: Models)
    ensures var r := ByVtolFlag(models);
            && Within(r.models, models) && !r.reduced
            && (r.models != models <==>
                (exists m :: m in models && m.icao.vtol) && exists m :: m in models && !m.icao.vtol)
  {
    FlagStepsAreSilentIff(models, (m: Model) => m.icao.vtol);
  }

  // ---------------------------------------------------------------------------
  // The whole pipeline
  // ---------------------------------------------------------------------------

  lemma FindWithin(models: Models, p: Model -> bool)
    requires Find(models, p) != []
    ensures Within(Find(models, p), models)
  {
    FoundIsWithin(models, p);
  }

  /** The glider categories search the whole set, the others what is matched already. */
  lemma ByCategoriesWithin(matcher: CategoryMatcher, matched: Models, modelSet: Models, setup: Setup, a: Model)
    requires Within(matched, modelSet)
    ensures Within(ByCategories(matcher, matched, modelSet, setup, a).models, modelSet)
  {
    if a.icao.category.Some? && matcher.gliders.Some? {
      var level, category := matcher.gliders.value, a.icao.category.value;
      var gliders := FindByFirstLevel(modelSet, level);
      if gliders != [] {
        FindWithin(modelSet, (m: Model) => m.icao.category.Some? && m.icao.category.value.firstLevel == level);
        FindByCategoriesWithin(gliders, {category});
        FindByCategoriesWithin(gliders, matcher.ParallelOf(category));
        FindByCategoriesWithin(modelSet, matcher.SiblingsOf(category));
      }
      FoundIsWithin(matched, (m: Model) => IsColorLivery(m.livery)
                                           && (m.icao.designator in SUBSTITUTES || m.icao.family in SUBSTITUTES));
      FoundIsWithin(matched, (m: Model) => MatchesCombinedType(m.icao, "L1P"));
    }
  }

  lemma FindByCategoriesWithin(models: Models, categories: set<Category>)
    ensures FindByCategories(models, categories) != [] ==> Within(FindByCategories(models, categories), models)
  {
    FoundIsWithin(models, (m: Model) => m.icao.category.Some? && m.icao.category.value in categories);
  }

  lemma RefinedWithin(a: Model, matched: Models, modelSet: Models, setup: Setup, matcher: CategoryMatcher, before: bool)
    requires Within(matched, modelSet)
    ensures Within(Refined(a, matched, modelSet, setup, matcher, before).models, modelSet)
  {
    ByCategoriesWithin(matcher, matched, modelSet, setup, a);
    var byCategory := if setup.UsesCategories() then ByCategories(matcher, matched, modelSet, setup, a).models
                      else matched;
    VtolFlagIff(byCategory);
    MilitaryFlagIff(a, byCategory);
    MilitaryFlagIff(a, ByVtolFlag(byCategory).models);
  }

  /** For every setup and every remote aircraft: from a model set the pipeline never loses all
      candidates, takes none from outside, and takes none twice. */
  lemma NeverLosesEverything(a: Model, modelSet: Models, setup: Setup, matcher: CategoryMatcher, logSteps: bool)
    ensures Within(StepwiseReduce(a, modelSet, setup, matcher, logSteps), modelSet)
  {
    ByLiveryKeeps(a, modelSet);
    ByFamilyKeeps(a, true, modelSet);
    ByIcaoDataWithin(a, modelSet, setup, false);
    var icao := if setup.byIcaoData then ByIcaoData(a, modelSet, setup, false) else Unreduced(modelSet);
    RefinedWithin(a, icao.models, modelSet, setup, matcher, icao.reduced);
    var refined := Refined(a, icao.models, modelSet, setup, matcher, icao.reduced).models;
    CombinedTypeFlagIff(a, refined, setup);
    var steps := Steps(a, modelSet, modelSet, setup, matcher);
    assert Within(steps, modelSet);
    ByManufacturerKeeps(a, steps);
    ByManufacturerKeeps(a, ByLiveryAndAircraft(a, modelSet).models);
    ByManufacturerKeeps(a, ByFamily(a, true, modelSet).models);
  }

  /** For one aircraft and set, logging changes nothing unless the family step is due and finds some. */
  lemma LoggingMatters(a: Model, modelSet: Models, setup: Setup, matcher: CategoryMatcher)
    requires setup.byIcaoData || !setup.byFamily || !ByFamily(a, true, modelSet).reduced
             || (setup.byLivery && ByLiveryAndAircraft(a, modelSet).reduced)
    ensures StepwiseReduce(a, modelSet, setup, matcher, true) == StepwiseReduce(a, modelSet, setup, matcher, false)
  {
    ByFamilyKeeps(a, true, modelSet);
    ByLiveryKeeps(a, modelSet);
  }

  function PlainModel(key: string, family: string): Model {
    Model(key, "", false, Icao("", family, "", "", None, false), Airline("", -1, ""), "", false, None, true, false)
  }

  /** In a list of the plain models `b` and `a`, all steps but the family step find nothing. */
  lemma PlainModelsStay(setup: Setup, matcher: CategoryMatcher)
    requires !setup.byIcaoData
    ensures var a, models := PlainModel("a", "A320"), [PlainModel("b", "B737"), PlainModel("a", "A320")];
            StepwiseReduce(a, models, setup, matcher, false) == models
  {
    var a, models := PlainModel("a", "A320"), [PlainModel("b", "B737"), PlainModel("a", "A320")];
    assert !ByCategories(matcher, models, models, setup, a).reduced;
    MilitaryFlagIff(a, models);
    assert forall m | m in models :: m.military == a.military;
    assert Refined(a, models, models, setup, matcher, false) == Unreduced(models);
    assert !ValidCombinedType(a.icao.combinedType);
    assert Steps(a, models, models, setup, matcher) == models;
    assert ByManufacturer(a, models).models == models;
  }

  /** With the family flag and without ICAO step, whatever the other flags, the same aircraft and
      set give other candidates when the steps are logged. */
  lemma LoggingChangesCandidates(setup: Setup, matcher: CategoryMatcher)
    requires setup.byFamily && !setup.byIcaoData
    ensures var a, b := PlainModel("a", "A320"), PlainModel("b", "B737");
            && StepwiseReduce(a, [b, a], setup, matcher, true) == [a]
            && StepwiseReduce(a, [b, a], setup, matcher, false) == [b, a]
  {
    var a, b := PlainModel("a", "A320"), PlainModel("b", "B737");
    var models := [b, a];
    PlainModelsStay(setup, matcher);
    assert "B737"[0] != "A320"[0];
    assert models[1..] == [a] && [a][1..] == [];
    assert Find([a], (m: Model) => m.icao.family == "A320") == [a];
    assert FindByFamily(models, "A320") == [a];
    FoundIsWithin(models, (m: Model) => MatchesCombinedType(m.icao, a.icao.combinedType));
    assert FindByCombinedAndManufacturer(models, a.icao) == [];
    assert ByFamilyNamed(a, "A320", true, models).models == [a] + RemoveKeys([], Keys([a]));
  }

  /** Logging the steps leaves all candidates of all aircraft and sets alone if and only if the
      setup has the ICAO step or no family flag. */
  lemma LoggingMattersIff(setup: Setup, matcher: CategoryMatcher)
    ensures (forall a, models ::
               StepwiseReduce(a, models, setup, matcher, true) == StepwiseReduce(a, models, setup, matcher, false))
            <==> setup.byIcaoData || !setup.byFamily
  {
    if setup.byFamily && !setup.byIcaoData {
      LoggingChangesCandidates(setup, matcher);
    }
  }

  /** The livery step reduces exactly when some model has the livery code as its designator and
      the designator as its livery code. */
  lemma LiveryReducesIff(a: Model, models: Models)
    ensures ByLiveryAndAircraft(a, models).reduced <==>
            && a.livery != "" && a.icao.designator != ""
            && exists m :: m in models && m.icao.designator == a.livery && m.livery == a.icao.designator
  {
    var p := (m: Model) => m.icao.designator == a.livery && a.icao.designator != "" && m.livery == a.icao.designator;
    FoundIsWithin(models, p);
    assert a.livery != "" ==> FindByAircraftAndLivery(models, a.livery, a.icao.designator)
                              == Find(models, (m: Model) => m.icao.designator == a.livery && a.icao.designator != ""
                                                            && m.livery == a.icao.designator);
  }

  lemma {:induction false} DotIsThere(s: string)
    requires Dots(s) > 0
    ensures exists i :: 0 <= i < |s| && s[i] == '.'
  {
    if s[0] != '.' {
      DotIsThere(s[1..]);
      var i :| 0 <= i < |s[1..]| && s[1..][i] == '.';
      assert s[i + 1] == '.';
    }
  }

  lemma LiveryIsNoDesignator(code: string)
    requires ValidLiveryCode(code)
    ensures !ValidAircraftDesignator(code)
  {
    if !IsColorLivery(code) {
      DotIsThere(code);
    } else {
      assert code[0] == "_CC"[0];
    }
  }

  /** So with valid codes it never reduces, even when the very aircraft in the very livery is in
      the list: the almost perfect match the step is for is not found. */
  lemma LiveryStepNeverHits(a: Model, models: Models)
    requires ValidLiveryCode(a.livery)
    requires forall m | m in models :: ValidAircraftDesignator(m.icao.designator)
    ensures ByLiveryAndAircraft(a, models) == Unreduced(models)
  {
    LiveryIsNoDesignator(a.livery);
    LiveryReducesIff(a, models);
    ByLiveryKeeps(a, models);
  }
}
