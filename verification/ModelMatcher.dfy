/** The model matcher `CAircraftMatcher`: a pipeline of list reductions from a model set to the
    candidates for a remote aircraft. Strings are as the source normalizes them: trimmed, upper
    case; model strings are compared without case, so `key` is the model string in lower case. */
module ModelMatcher {
  import opened Basics

  datatype Category = Category(firstLevel: int, name: string)

  datatype Icao = Icao(designator: string, family: string, manufacturer: string, combinedType: string,
                       category: Option<Category>, vtol: bool)

  /** `group` is negative without a group. */
  datatype Airline = Airline(designator: string, group: int, groupDesignator: string)

  datatype Model = Model(key: string, alias: string, manuallySet: bool, icao: Icao, airline: Airline,
                         livery: string, military: bool, order: Option<nat>, hasDbKey: bool, excluded: bool)

  type Models = seq<Model>

  // ---------------------------------------------------------------------------
  // Lists of models
  // ---------------------------------------------------------------------------

  /** `findBy`: the models with a property, in their order. */
  function Find(models: Models, p: Model -> bool): Models {
    if models == [] then [] else (if p(models[0]) then [models[0]] else []) + Find(models[1..], p)
  }

  /** `getModelStringList`: models without string are skipped. */
  function Keys(models: Models): set<string> {
    set m | m in models && m.key != "" :: m.key
  }

  function RemoveKeys(models: Models, keys: set<string>): Models {
    Find(models, (m: Model) => m.key !in keys)
  }

  function ReplaceOrAdd(models: Models, added: Models): Models {
    if added == [] then models
    else if models == [] then added
    else RemoveKeys(models, Keys(added)) + added
  }

  /** Every model has a string and no two have the same. */
  ghost predicate Clean(models: Models) {
    && (forall m | m in models :: m.key != "")
    && (forall i, j | 0 <= i < j < |models| :: models[i].key != models[j].key)
  }

  // ---------------------------------------------------------------------------
  // Codes
  // ---------------------------------------------------------------------------

  predicate IsUpperOrDigit(c: char) {
    'A' <= c <= 'Z' || '0' <= c <= '9'
  }

  predicate ValidAirlineDesignator(d: string) {
    2 <= |d| <= 5 && forall i | 0 <= i < |d| :: IsUpperOrDigit(d[i])
  }

  predicate ValidAircraftDesignator(d: string) {
    2 <= |d| <= 5 && 'A' <= d[0] <= 'Z' && forall i | 0 <= i < |d| :: IsUpperOrDigit(d[i])
  }

  function Dots(s: string): nat {
    if s == "" then 0 else (if s[0] == '.' then 1 else 0) + Dots(s[1..])
  }

  predicate IsColorLivery(code: string) {
    "_CC" <= code
  }

  predicate ValidLiveryCode(code: string) {
    if IsColorLivery(code) then |code| > 4 else Dots(code) == 1 && |code| > 2
  }

  predicate ValidCombinedType(t: string) {
    |t| == 3 && t[0] in "AGHSLT" && '0' <= t[1] <= '9' && t[2] in "EJPT-"
  }

  function Wild(c: char): char {
    if c == ' ' || c == '-' then '*' else c
  }

  function EnginesCount(t: string): int {
    if |t| >= 2 && '0' <= t[1] <= '9' then (t[1] - '0') as int else -1
  }

  function DigitValue(c: char): int {
    if '0' <= c <= '9' then (c - '0') as int else -1
  }

  /** A blank or a dash in the combined type that is looked for stands for anything. */
  predicate MatchesCombinedType(icao: Icao, t: string) {
    && |t| == 3
    && var a, c, e := Wild(t[0]), Wild(t[1]), Wild(t[2]);
       || [a, c, e] == icao.combinedType
       || ((a == '*' || c == '*' || e == '*')
           && (a == '*' || (|icao.combinedType| == 3 && icao.combinedType[0] == a))
           && (c == '*' || EnginesCount(icao.combinedType) == DigitValue(c))
           && (e == '*' || (|icao.combinedType| == 3 && icao.combinedType[2] == e)))
  }

  function FindByCombinedType(models: Models, t: string): Models {
    Find(models, (m: Model) => MatchesCombinedType(m.icao, t))
  }

  function FindByDesignator(models: Models, designator: string): Models {
    Find(models, (m: Model) => m.icao.designator == designator)
  }

  function FindByAirline(models: Models, designator: string): Models {
    Find(models, (m: Model) => m.airline.designator == designator)
  }

  function FindByGroup(models: Models, group: int): Models {
    Find(models, (m: Model) => m.airline.group == group)
  }

  function FindByMilitary(models: Models, military: bool): Models {
    Find(models, (m: Model) => m.military == military)
  }

  function FindByManufacturer(models: Models, manufacturer: string): Models {
    if manufacturer == "" then [] else Find(models, (m: Model) => m.icao.manufacturer == manufacturer)
  }

  function FindByFamily(models: Models, family: string): Models {
    if family == "" then [] else Find(models, (m: Model) => m.icao.family == family)
  }

  function FindByCombinedAndManufacturer(models: Models, icao: Icao): Models {
    if icao.manufacturer == "" then FindByCombinedType(models, icao.combinedType)
    else if icao.combinedType == "" then FindByManufacturer(models, icao.manufacturer)
    else Find(models, (m: Model) => MatchesCombinedType(m.icao, icao.combinedType)
                                    && m.icao.manufacturer == icao.manufacturer)
  }

  function FindByAircraftAndLivery(models: Models, designator: string, livery: string): Models {
    if designator == "" then []
    else Find(models, (m: Model) => m.icao.designator == designator && livery != "" && m.livery == livery)
  }

  // ---------------------------------------------------------------------------
  // Reductions
  // ---------------------------------------------------------------------------

  /** The bits of the matching mode. Order and group flags hold their own bit and the ICAO bit. */
  datatype Setup = Setup(byModelString: bool, byIcaoData: bool, byFamily: bool, byLivery: bool, byCombinedType: bool,
                         byManufacturer: bool, byMilitary: bool, byCivilian: bool, byVtol: bool, airlineFirst: bool,
                         groupSameAsAirline: bool, groupIfNoAirline: bool, categoryGlider: bool, categoryMilitary: bool,
                         excludeNoDbData: bool, excludeExcluded: bool) {
    predicate AirlineFirst() {
      airlineFirst && byIcaoData
    }

    predicate UsesCategories() {
      categoryGlider || categoryMilitary
    }

    predicate AsksForGroup() {
      (groupSameAsAirline || groupIfNoAirline) && byIcaoData
    }
  }

  /** The list and the `reduced` flag a reduction hands back. */
  datatype Reduction = Reduction(models: Models, reduced: bool)

  function Unreduced(models: Models): Reduction {
    Reduction(models, false)
  }

  /** The found models, or all of them if there are none. */
  function IfAny(found: Models, models: Models): Reduction {
    if found == [] then Unreduced(models) else Reduction(found, true)
  }

  /** The call hands the livery code over as the designator and the designator as the code. */
  function ByLiveryAndAircraft(a: Model, models: Models): Reduction {
    if a.livery == "" then Unreduced(models)
    else IfAny(FindByAircraftAndLivery(models, a.livery, a.icao.designator), models)
  }

  function ByManufacturer(a: Model, models: Models): Reduction {
    IfAny(FindByManufacturer(models, a.icao.manufacturer), models)
  }

  function ByAircraft(a: Model, models: Models): Reduction {
    if a.icao.designator == "" then Unreduced(models)
    else IfAny(FindByDesignator(models, a.icao.designator), models)
  }

  /** Models of the family and, without those again, of the same type and manufacturer. */
  function ByFamilyNamed(a: Model, family: string, pseudo: bool, models: Models): Reduction {
    if (family == "" && !pseudo) || models == [] then Unreduced(models)
    else
      var found := FindByFamily(models, family);
      if found == [] && !pseudo then Unreduced(models)
      else
        var foundByType := if pseudo then FindByCombinedAndManufacturer(models, a.icao) else [];
        IfAny(found + RemoveKeys(foundByType, Keys(found)), models)
  }

  function ByFamily(a: Model, pseudo: bool, models: Models): Reduction {
    if a.icao.family != "" && ByFamilyNamed(a, a.icao.family, pseudo, models).reduced
    then ByFamilyNamed(a, a.icao.family, pseudo, models)
    else ByFamilyNamed(a, a.icao.designator, pseudo, models)
  }

  function ByAircraftOrFamily(a: Model, models: Models, setup: Setup): Reduction {
    var byAircraft := ByAircraft(a, models);
    if byAircraft.reduced || !setup.byFamily then byAircraft else ByFamily(a, true, models)
  }

  function ByAirline(a: Model, models: Models, setup: Setup): Reduction {
    if models == [] || !ValidAirlineDesignator(a.airline.designator) then Unreduced(models)
    else
      var found := FindByAirline(models, a.airline.designator);
      var withGroup := found == [] || setup.AsksForGroup();
      var isMember := a.airline.group >= 0 && a.airline.groupDesignator != "";
      var ofGroup := FindByGroup(models, a.airline.group);
      IfAny(if withGroup && isMember then ReplaceOrAdd(found, ofGroup) else found, models)
  }

  /** Is there a member of the family with the airline, where there is none of the aircraft? */
  predicate SecondSearch(a: Model, models: Models, setup: Setup) {
    && models != [] && !setup.AirlineFirst() && setup.byIcaoData
    && ValidAirlineDesignator(a.airline.designator)
    && !ByAirline(a, ByAircraftOrFamily(a, models, setup).models, setup).reduced
    && setup.byFamily
    && ByAirline(a, ByFamily(a, true, models).models, setup).reduced
  }

  /** `before` is the flag as it was; an empty list and the second search leave it alone or unset. */
  function ByIcaoData(a: Model, models: Models, setup: Setup, before: bool): Reduction {
    if models == [] then Reduction(models, before)
    else if setup.AirlineFirst() then
      var r1 := ByAirline(a, models, setup);
      var r2 := ByAircraftOrFamily(a, r1.models, setup);
      if r1.reduced || r2.reduced then Reduction(r2.models, true) else Unreduced(models)
    else if setup.byIcaoData then
      var r1 := ByAircraftOrFamily(a, models, setup);
      var r2 := ByAirline(a, r1.models, setup);
      if SecondSearch(a, models, setup) then Unreduced(ByAirline(a, ByFamily(a, true, models).models, setup).models)
      else if r1.reduced || r2.reduced then Reduction(r2.models, true)
      else Unreduced(models)
    else Unreduced(models)
  }

  function ByMilitaryFlag(a: Model, models: Models): Reduction {
    Unreduced(IfAny(FindByMilitary(models, a.military), models).models)
  }

  function ByVtolFlag(models: Models): Reduction {
    Unreduced(IfAny(Find(models, (m: Model) => m.icao.vtol), models).models)
  }

  function ByCombinedType(a: Model, models: Models, setup: Setup): Reduction {
    if !ValidCombinedType(a.icao.combinedType) then Unreduced(models)
    else
      var found := FindByCombinedType(models, a.icao.combinedType);
      if found == [] then Unreduced(models)
      else if |found| == 1 then Unreduced(found)
      else Reduction(ByManufacturer(a, ByAirline(a, found, setup).models).models, true)
  }

  /** `byName` and `byTelephony` say which models the name and the telephony designator match; the
      second search starts from the whole list again. */
  function ByAirlineNameOrTelephony(name: string, telephony: string, byName: Model -> bool, byTelephony: Model -> bool,
                                    models: Models): Reduction {
    if models == [] || (name == "" && telephony == "") then Unreduced(models)
    else
      var found1 := Find(models, byName);
      var use1 := found1 != [] && |found1| != |models|;
      var step1 := if use1 then found1 else models;
      if |step1| == 1 then Reduction(step1, use1)
      else
        var found2 := Find(models, byTelephony);
        var use2 := found2 != [] && |found2| != |models|;
        Reduction(if use2 then found2 else step1, use1 || use2)
  }

  // ---------------------------------------------------------------------------
  // Categories
  // ---------------------------------------------------------------------------

  /** `gliders` is the first level of the glider categories; the maps give the related ones. */
  datatype CategoryMatcher = CategoryMatcher(loaded: bool, gliders: Option<int>, parallel: map<Category, set<Category>>,
                                             siblings: map<Category, set<Category>>) {
    function ParallelOf(c: Category): set<Category> {
      if c in parallel then parallel[c] else {}
    }

    function SiblingsOf(c: Category): set<Category> {
      if c in siblings then siblings[c] else {}
    }
  }

  function FindByCategories(models: Models, categories: set<Category>): Models {
    Find(models, (m: Model) => m.icao.category.Some? && m.icao.category.value in categories)
  }

  function FindByFirstLevel(models: Models, level: int): Models {
    if level < 0 then []
    else Find(models, (m: Model) => m.icao.category.Some? && m.icao.category.value.firstLevel == level)
  }

  /** Gliders of the category, else of a parallel branch, else models of a sibling, else any. */
  function ClosestGliders(matcher: CategoryMatcher, gliders: Models, modelSet: Models, category: Category): Models {
    var same := FindByCategories(gliders, {category});
    var otherBranch := FindByCategories(gliders, matcher.ParallelOf(category));
    var sibling := FindByCategories(modelSet, matcher.SiblingsOf(category));
    if same != [] then same else if otherBranch != [] then otherBranch else if sibling != [] then sibling else gliders
  }

  const SUBSTITUTES := {"UHEL", "GLID", "ULAC"}

  /** Without gliders: ultralights and the like in a colour livery, else light propeller aircraft. */
  function BySubstitute(models: Models): Reduction {
    var substitutes := Find(models, (m: Model) =>
      IsColorLivery(m.livery) && (m.icao.designator in SUBSTITUTES || m.icao.family in SUBSTITUTES));
    if substitutes != [] then Reduction(substitutes, true) else IfAny(FindByCombinedType(models, "L1P"), models)
  }

  function ByCategories(matcher: CategoryMatcher, matched: Models, modelSet: Models, setup: Setup,
                        a: Model): Reduction {
    if !setup.UsesCategories() || !matcher.loaded || a.icao.category.None? then Unreduced(matched)
    else if matcher.gliders.None? || !setup.categoryGlider
            || !(a.icao.designator == "GLID"
                 || (matcher.gliders.value >= 0 && a.icao.category.value.firstLevel == matcher.gliders.value))
    then Unreduced(matched)
    else
      var gliders := FindByFirstLevel(modelSet, matcher.gliders.value);
      if gliders != [] then Reduction(ClosestGliders(matcher, gliders, modelSet, a.icao.category.value), true)
      else BySubstitute(matched)
  }

  // ---------------------------------------------------------------------------
  // The pipeline
  // ---------------------------------------------------------------------------

  /** The steps after the ICAO step, up to the flags. */
  function Refined(a: Model, matched: Models, modelSet: Models, setup: Setup, matcher: CategoryMatcher,
                   before: bool): Reduction {
    var byCategory := if setup.UsesCategories() then ByCategories(matcher, matched, modelSet, setup, a)
                      else Reduction(matched, before);
    var byVtol := if !byCategory.reduced && a.icao.vtol && setup.byVtol
                  then Reduction(ByVtolFlag(byCategory.models).models, byCategory.reduced) else byCategory;
    if (if a.military then setup.byMilitary else setup.byCivilian) then ByMilitaryFlag(a, byVtol.models) else byVtol
  }

  /** The steps behind the ICAO step. */
  function BelowIcao(a: Model, byIcao: Reduction, modelSet: Models, setup: Setup, matcher: CategoryMatcher): Models {
    var refined := Refined(a, byIcao.models, modelSet, setup, matcher, byIcao.reduced);
    if setup.byCombinedType then ByCombinedType(a, refined.models, setup).models else refined.models
  }

  /** The steps of the `do`-block behind the livery step. */
  function Steps(a: Model, models: Models, modelSet: Models, setup: Setup, matcher: CategoryMatcher): Models {
    BelowIcao(a, if setup.byIcaoData then ByIcaoData(a, models, setup, false) else Unreduced(models), modelSet, setup,
              matcher)
  }

  /** The family step of a setup without ICAO step hangs under the log branch: it is taken only
      when the steps are logged. */
  function StepwiseReduce(a: Model, modelSet: Models, setup: Setup, matcher: CategoryMatcher, logSteps: bool): Models {
    var byLivery := if setup.byLivery then ByLiveryAndAircraft(a, modelSet) else Unreduced(modelSet);
    var byFamily := if !byLivery.reduced && !setup.byIcaoData && logSteps && setup.byFamily
                    then ByFamily(a, true, byLivery.models) else byLivery;
    var matched := if byFamily.reduced then byFamily.models else Steps(a, byFamily.models, modelSet, setup, matcher);
    if |matched| > 1 && setup.byManufacturer then ByManufacturer(a, matched).models else matched
  }

  /** The middle of the pipeline: category, VTOL and military flag. */
  method ReduceByCategoryAndFlags(modelSet: Models, matched: Models, setup: Setup, matcher: CategoryMatcher, a: Model,
                                  before: bool)
    returns (matchedModels: Models, reduced: bool)
    ensures Reduction(matchedModels, reduced) == Refined(a, matched, modelSet, setup, matcher, before)
  {
    matchedModels, reduced := matched, before;
    if setup.UsesCategories() {
      var r := ByCategories(matcher, matchedModels, modelSet, setup, a);
      matchedModels, reduced := r.models, r.reduced;
    }
    if !reduced && a.icao.vtol && setup.byVtol {
      matchedModels := ByVtolFlag(matchedModels).models;
    }
    if (if a.military then setup.byMilitary else setup.byCivilian) {
      var r := ByMilitaryFlag(a, matchedModels);
      matchedModels, reduced := r.models, r.reduced;
    }
  }

  method ReduceBelowIcao(modelSet: Models, byIcao: Reduction, setup: Setup, matcher: CategoryMatcher, a: Model)
    returns (matchedModels: Models)
    ensures matchedModels == BelowIcao(a, byIcao, modelSet, setup, matcher)
  {
    var reduced;
    matchedModels, reduced := ReduceByCategoryAndFlags(modelSet, byIcao.models, setup, matcher, a, byIcao.reduced);
    assert Reduction(matchedModels, reduced) == Refined(a, byIcao.models, modelSet, setup, matcher, byIcao.reduced);
    if setup.byCombinedType {
      matchedModels := ByCombinedType(a, matchedModels, setup).models;
    }
  }

  method StepwiseReduceImplementation(modelSet: Models, setup: Setup, matcher: CategoryMatcher, a: Model,
                                      logSteps: bool)
    returns (matchedModels: Models)
    ensures matchedModels == StepwiseReduce(a, modelSet, setup, matcher, logSteps)
  {
    matchedModels := modelSet;
    var reduced := false;
    label Reduce: {
      if setup.byLivery {
        var r := ByLiveryAndAircraft(a, matchedModels);
        matchedModels, reduced := r.models, r.reduced;
        if reduced { break Reduce; }
      }
      if setup.byIcaoData {
        var r := ByIcaoData(a, matchedModels, setup, reduced);
        matchedModels, reduced := r.models, r.reduced;
      } else if logSteps {
        if setup.byFamily {
          var r := ByFamily(a, true, matchedModels);
          matchedModels, reduced := r.models, r.reduced;
          if reduced { break Reduce; }
        }
      }
      matchedModels := ReduceBelowIcao(modelSet, Reduction(matchedModels, reduced), setup, matcher, a);
    }
    if |matchedModels| > 1 && setup.byManufacturer {
      matchedModels := ByManufacturer(a, matchedModels).models;
    }
  }
}
