/** How well a model fits an aircraft, as ranks that are read off one model at a time, and by which of
    them each reduction of the matching pipeline narrows its list. */
module ModelRanking {
  import opened Basics
  import opened ModelMatcher
  import opened ModelMatching

  // ---------------------------------------------------------------------------
  // Ranks
  // ---------------------------------------------------------------------------

  /** The first difference decides. */
  predicate Beats(x: seq<int>, y: seq<int>) {
    x != [] && y != [] && (x[0] > y[0] || (x[0] == y[0] && Beats(x[1..], y[1..])))
  }

  function Rank(b: bool): int {
    if b then 1 else 0
  }

  /** The exchanged arguments: the livery code as designator, and the reverse. */
  function LiveryRank(a: Model, m: Model): int {
    Rank(a.livery != "" && a.icao.designator != "" && m.icao.designator == a.livery && m.livery == a.icao.designator)
  }

  function ManufacturerRank(a: Model, m: Model): int {
    Rank(a.icao.manufacturer != "" && m.icao.manufacturer == a.icao.manufacturer)
  }

  /** The airline before its group, unless the setup puts both on a level. */
  function AirlineRank(a: Model, setup: Setup, m: Model): int {
    if !ValidAirlineDesignator(a.airline.designator) then 0
    else if m.airline.designator == a.airline.designator then 2
    else if a.airline.group >= 0 && a.airline.groupDesignator != "" && m.airline.group == a.airline.group
    then (if setup.byIcaoData && (setup.groupSameAsAirline || setup.groupIfNoAirline) then 2 else 1)
    else 0
  }

  /** The family, or type and manufacturer, before the designator taken as a family. */
  function FamilyRank(a: Model, m: Model): int {
    if (a.icao.family != "" && m.icao.family == a.icao.family) || PseudoFamily(a, m) then 2
    else if a.icao.designator != "" && m.icao.family == a.icao.designator then (if a.icao.family == "" then 2 else 1)
    else 0
  }

  /** The very aircraft before its family. */
  function AircraftRank(a: Model, setup: Setup, m: Model): int {
    if a.icao.designator != "" && m.icao.designator == a.icao.designator then 3
    else if setup.byFamily then FamilyRank(a, m)
    else 0
  }

  predicate IsGlider(matcher: CategoryMatcher, m: Model) {
    && matcher.gliders.Some? && matcher.gliders.value >= 0
    && m.icao.category.Some? && m.icao.category.value.firstLevel == matcher.gliders.value
  }

  function GliderRank(a: Model, matcher: CategoryMatcher, m: Model): int {
    if a.icao.category.None? || m.icao.category.None? then 0
    else
      var looked, category := a.icao.category.value, m.icao.category.value;
      if IsGlider(matcher, m) && category == looked then 4
      else if IsGlider(matcher, m) && category in matcher.ParallelOf(looked) then 3
      else if category in matcher.SiblingsOf(looked) then 2
      else Rank(IsGlider(matcher, m))
  }

  function SubstituteRank(m: Model): int {
    if IsColorLivery(m.livery) && (m.icao.designator in SUBSTITUTES || m.icao.family in SUBSTITUTES) then 2
    else Rank(MatchesCombinedType(m.icao, "L1P"))
  }

  predicate IsWild(c: char) {
    c == ' ' || c == '-' || c == '*'
  }

  /** A model is of a combined type exactly if both agree in every place that is not left open, as long
      as the number of engines looked for is a digit or left open. */
  lemma OfTypeIff(icao: Icao, t: string)
    requires |t| == 3 && ('0' <= t[1] <= '9' || IsWild(t[1]))
    ensures var own := icao.combinedType;
            MatchesCombinedType(icao, t) <==>
            if |own| == 3 then forall i | 0 <= i < 3 :: IsWild(t[i]) || own[i] == t[i]
            else IsWild(t[0]) && IsWild(t[2]) && (IsWild(t[1]) || (|own| >= 2 && own[1] == t[1]))
  {
    var own := icao.combinedType;
    if |own| == 3 {
      assert own == [own[0], own[1], own[2]];
      assert (forall i | 0 <= i < 3 :: IsWild(t[i]) || own[i] == t[i]) <==>
             && (IsWild(t[0]) || own[0] == t[0]) && (IsWild(t[1]) || own[1] == t[1])
             && (IsWild(t[2]) || own[2] == t[2]);
    }
  }

  // ---------------------------------------------------------------------------
  // Which ranks count
  // ---------------------------------------------------------------------------

  /** No designated model is of the airline, but some model of the family is. */
  ghost predicate FamilyOfAirline(a: Model, models: Models, setup: Setup) {
    && setup.byFamily
    && (forall m | m in models && AirlineRank(a, setup, m) > 0 ::
          exists x :: x in models && AircraftRank(a, setup, x) > AircraftRank(a, setup, m))
    && exists m :: m in models && AirlineRank(a, setup, m) > 0
                   && forall x | x in models :: FamilyRank(a, x) <= FamilyRank(a, m)
  }

  ghost function IcaoRanks(a: Model, models: Models, setup: Setup, m: Model): seq<int> {
    if !setup.byIcaoData then []
    else if setup.airlineFirst then [AirlineRank(a, setup, m), AircraftRank(a, setup, m)]
    else if FamilyOfAirline(a, models, setup) then [FamilyRank(a, m), AirlineRank(a, setup, m)]
    else [AircraftRank(a, setup, m), AirlineRank(a, setup, m)]
  }

  /** The ICAO step says that it has reduced. */
  ghost predicate IcaoTells(a: Model, models: Models, setup: Setup) {
    && setup.byIcaoData
    && (exists m :: m in models && (AirlineRank(a, setup, m) > 0 || AircraftRank(a, setup, m) > 0))
    && (setup.airlineFirst || !FamilyOfAirline(a, models, setup))
  }

  predicate LooksForGlider(a: Model, setup: Setup, matcher: CategoryMatcher) {
    && setup.categoryGlider && matcher.loaded && a.icao.category.Some? && matcher.gliders.Some?
    && (a.icao.designator == "GLID"
        || (matcher.gliders.value >= 0 && a.icao.category.value.firstLevel == matcher.gliders.value))
  }

  ghost predicate HasGlider(models: Models, matcher: CategoryMatcher) {
    exists m :: m in models && IsGlider(matcher, m)
  }

  /** Gliders are looked for in the whole set, their substitutes among the candidates. */
  ghost function FirstRanks(a: Model, models: Models, setup: Setup, matcher: CategoryMatcher, m: Model): seq<int> {
    if !LooksForGlider(a, setup, matcher) then IcaoRanks(a, models, setup, m)
    else if HasGlider(models, matcher) then [GliderRank(a, matcher, m)]
    else IcaoRanks(a, models, setup, m) + [SubstituteRank(m)]
  }

  /** Something was reduced before the VTOL step, as far as the steps tell. */
  ghost predicate FirstTells(a: Model, models: Models, setup: Setup, matcher: CategoryMatcher) {
    if !setup.categoryGlider && !setup.categoryMilitary then IcaoTells(a, models, setup)
    else
      && LooksForGlider(a, setup, matcher)
      && (|| HasGlider(models, matcher)
          || exists m ::
               && m in models && SubstituteRank(m) > 0
               && forall x | x in models :: !Beats(IcaoRanks(a, models, setup, x), IcaoRanks(a, models, setup, m)))
  }

  predicate MilitaryCounts(a: Model, setup: Setup) {
    if a.military then setup.byMilitary else setup.byCivilian
  }

  predicate TypeCounts(a: Model, setup: Setup) {
    setup.byCombinedType && ValidCombinedType(a.icao.combinedType)
  }

  /** Of the type; then by airline, then by manufacturer. */
  function TypeRank(a: Model, setup: Setup, m: Model): int {
    if MatchesCombinedType(m.icao, a.icao.combinedType) then 6 + 2 * AirlineRank(a, setup, m) + ManufacturerRank(a, m)
    else 0
  }

  /** The livery step finds a model, and the pipeline breaks off. */
  ghost predicate LiveryHits(a: Model, models: Models, setup: Setup) {
    setup.byLivery && exists m :: m in models && LiveryRank(a, m) > 0
  }

  /** The family step in the log branch finds a model, and the pipeline breaks off. */
  ghost predicate LoggedFamilyHits(a: Model, models: Models, setup: Setup, logSteps: bool) {
    !setup.byIcaoData && logSteps && setup.byFamily && exists m :: m in models && FamilyRank(a, m) > 0
  }

  predicate VtolCounts(a: Model, setup: Setup) {
    a.icao.vtol && setup.byVtol
  }

  ghost function VtolRanks(a: Model, models: Models, setup: Setup, matcher: CategoryMatcher, m: Model): seq<int> {
    FirstRanks(a, models, setup, matcher, m)
    + if VtolCounts(a, setup) && !FirstTells(a, models, setup, matcher) then [Rank(m.icao.vtol)] else []
  }

  ghost function FlagRanks(a: Model, models: Models, setup: Setup, matcher: CategoryMatcher, m: Model): seq<int> {
    VtolRanks(a, models, setup, matcher, m) + if MilitaryCounts(a, setup) then [Rank(m.military == a.military)] else []
  }

  ghost function StepRanks(a: Model, models: Models, setup: Setup, matcher: CategoryMatcher, m: Model): seq<int> {
    FlagRanks(a, models, setup, matcher, m) + if TypeCounts(a, setup) then [TypeRank(a, setup, m)] else []
  }

  ghost function MainRanks(a: Model, models: Models, setup: Setup, matcher: CategoryMatcher, logSteps: bool,
                           m: Model): seq<int> {
    if LiveryHits(a, models, setup) then [LiveryRank(a, m)]
    else if LoggedFamilyHits(a, models, setup, logSteps) then [FamilyRank(a, m)]
    else StepRanks(a, models, setup, matcher, m)
  }

  /** All the ranks that count, the first to decide first. */
  ghost function Ranks(a: Model, models: Models, setup: Setup, matcher: CategoryMatcher, logSteps: bool,
                       m: Model): seq<int> {
    MainRanks(a, models, setup, matcher, logSteps, m) + if setup.byManufacturer then [ManufacturerRank(a, m)] else []
  }

  // ---------------------------------------------------------------------------
  // Narrowing step by step
  // ---------------------------------------------------------------------------

  /** The found models are those of highest rank in the list. */
  ghost predicate Narrows(found: Models, models: Models, rank: Model -> int) {
    && (forall m :: m in found <==> m in models && forall x | x in models :: rank(x) <= rank(m))
    && (Clean(models) ==> Clean(found))
  }

  ghost predicate BestOf(found: Models, models: Models, ranks: Model -> seq<int>) {
    && (forall m :: m in found <==> m in models && forall x | x in models :: !Beats(ranks(x), ranks(m)))
    && (Clean(models) ==> Clean(found))
  }

  lemma {:induction false} BeatsSnoc(x: seq<int>, y: seq<int>, i: int, j: int)
    requires |x| == |y|
    ensures Beats(x + [i], y + [j]) <==> Beats(x, y) || (x == y && i > j)
  {
    if x != [] {
      assert (x + [i])[1..] == x[1..] + [i] && (y + [j])[1..] == y[1..] + [j];
      assert x == [x[0]] + x[1..] && y == [y[0]] + y[1..];
      BeatsSnoc(x[1..], y[1..], i, j);
    }
  }

  lemma {:induction false} Unbeaten(x: seq<int>, y: seq<int>)
    requires |x| == |y|
    ensures Beats(x, y) || Beats(y, x) || x == y
    ensures !Beats(x, x)
  {
    if x != [] {
      assert x == [x[0]] + x[1..] && y == [y[0]] + y[1..];
      Unbeaten(x[1..], y[1..]);
    }
  }

  lemma OneMoreRank(models: Models, ranks: Model -> seq<int>, rank: Model -> int, more: Model -> seq<int>,
                    x: Model, m: Model)
    requires forall x, y | x in models && y in models :: |ranks(x)| == |ranks(y)|
    requires forall x | x in models :: more(x) == ranks(x) + [rank(x)]
    requires x in models && m in models
    ensures Beats(more(x), more(m)) <==> Beats(ranks(x), ranks(m)) || (ranks(x) == ranks(m) && rank(x) > rank(m))
    ensures Beats(ranks(x), ranks(m)) || Beats(ranks(m), ranks(x)) || ranks(x) == ranks(m)
  {
    BeatsSnoc(ranks(x), ranks(m), rank(x), rank(m));
    Unbeaten(ranks(x), ranks(m));
  }

  lemma FoundIsUnbeaten(models: Models, best: Models, ranks: Model -> seq<int>, found: Models, rank: Model -> int,
                        more: Model -> seq<int>, x: Model, m: Model)
    requires BestOf(best, models, ranks) && Narrows(found, best, rank)
    requires forall x, y | x in models && y in models :: |ranks(x)| == |ranks(y)|
    requires forall x | x in models :: more(x) == ranks(x) + [rank(x)]
    requires m in found && x in models
    ensures !Beats(more(x), more(m))
  {
    OneMoreRank(models, ranks, rank, more, x, m);
    if ranks(x) == ranks(m) {
      assert x in best;
    }
  }

  lemma LostIsBeaten(models: Models, best: Models, ranks: Model -> seq<int>, found: Models, rank: Model -> int,
                     more: Model -> seq<int>, m: Model) returns (x: Model)
    requires BestOf(best, models, ranks) && Narrows(found, best, rank)
    requires forall x, y | x in models && y in models :: |ranks(x)| == |ranks(y)|
    requires forall x | x in models :: more(x) == ranks(x) + [rank(x)]
    requires m in models && m !in found
    ensures x in models && Beats(more(x), more(m))
  {
    if m !in best {
      x :| x in models && Beats(ranks(x), ranks(m));
      OneMoreRank(models, ranks, rank, more, x, m);
    } else {
      x :| x in best && rank(x) > rank(m);
      OneMoreRank(models, ranks, rank, more, x, m);
    }
  }

  /** Narrowing the best by one more rank gives the best by one more rank. */
  lemma NarrowsBest(models: Models, best: Models, ranks: Model -> seq<int>, found: Models, rank: Model -> int,
                    more: Model -> seq<int>)
    requires BestOf(best, models, ranks) && Narrows(found, best, rank)
    requires forall x, y | x in models && y in models :: |ranks(x)| == |ranks(y)|
    requires forall x | x in models :: more(x) == ranks(x) + [rank(x)]
    ensures BestOf(found, models, more)
  {
    forall m
      ensures m in found <==> m in models && forall x | x in models :: !Beats(more(x), more(m))
    {
      if m in found {
        forall x | x in models ensures !Beats(more(x), more(m)) {
          FoundIsUnbeaten(models, best, ranks, found, rank, more, x, m);
        }
      } else if m in models {
        var x := LostIsBeaten(models, best, ranks, found, rank, more, m);
      }
    }
  }

  // ---------------------------------------------------------------------------
  // What each step narrows by
  // ---------------------------------------------------------------------------

  /** Does some model of the list have the rank? */
  ghost predicate Ranked(models: Models, rank: Model -> int) {
    exists m :: m in models && rank(m) > 0
  }

  /** The reduction narrows by the rank, and tells when some model has it. */
  ghost predicate NarrowsBy(r: Reduction, models: Models, rank: Model -> int) {
    && Narrows(r.models, models, rank)
    && (r.reduced <==> Ranked(models, rank))
  }

  lemma PartNarrows(models: Models, p: Model -> bool, rank: Model -> int)
    requires forall m :: rank(m) == Rank(p(m))
    ensures NarrowsBy(IfAny(Find(models, p), models), models, rank)
  {
    FoundIsWithin(models, p);
    FindMembers(models, p);
  }

  lemma NothingNarrows(models: Models, rank: Model -> int)
    requires forall m | m in models :: rank(m) == 0
    ensures NarrowsBy(Unreduced(models), models, rank)
  {
  }

  lemma LiveryNarrows(a: Model, models: Models)
    ensures NarrowsBy(ByLiveryAndAircraft(a, models), models, (m: Model) => LiveryRank(a, m))
  {
    if a.livery == "" || a.icao.designator == "" {
      NothingNarrows(models, (m: Model) => LiveryRank(a, m));
      LiveryReducesIff(a, models);
      ByLiveryKeeps(a, models);
    } else {
      PartNarrows(models, (m: Model) => m.icao.designator == a.livery && a.icao.designator != ""
                                        && m.livery == a.icao.designator, (m: Model) => LiveryRank(a, m));
    }
  }

  lemma ManufacturerNarrows(a: Model, models: Models)
    ensures NarrowsBy(ByManufacturer(a, models), models, (m: Model) => ManufacturerRank(a, m))
  {
    if a.icao.manufacturer == "" {
      NothingNarrows(models, (m: Model) => ManufacturerRank(a, m));
    } else {
      PartNarrows(models, (m: Model) => m.icao.manufacturer == a.icao.manufacturer,
                  (m: Model) => ManufacturerRank(a, m));
    }
  }

  lemma MilitaryNarrows(a: Model, models: Models)
    ensures Narrows(ByMilitaryFlag(a, models).models, models, (m: Model) => Rank(m.military == a.military))
  {
    PartNarrows(models, (m: Model) => m.military == a.military, (m: Model) => Rank(m.military == a.military));
  }

  lemma VtolNarrows(models: Models)
    ensures Narrows(ByVtolFlag(models).models, models, (m: Model) => Rank(m.icao.vtol))
  {
    PartNarrows(models, (m: Model) => m.icao.vtol, (m: Model) => Rank(m.icao.vtol));
  }

  lemma AirlineNarrows(a: Model, models: Models, setup: Setup)
    requires Clean(models)
    ensures NarrowsBy(ByAirline(a, models, setup), models, (m: Model) => AirlineRank(a, setup, m))
  {
    var r := ByAirline(a, models, setup);
    ByAirlineKeeps(a, models, setup);
    FindMembers(models, (m: Model) => m.airline.designator == a.airline.designator);
    FindMembers(models, (m: Model) => m.airline.group == a.airline.group);
    var own := FindByAirline(models, a.airline.designator);
    assert own != [] ==> own[0] in own;
    if r.reduced {
      var top := if own != [] || setup.AsksForGroup() then 2 else 1;
      forall m ensures m in r.models <==> m in models && AirlineRank(a, setup, m) == top {
        ByAirlineFinds(a, models, setup, m);
      }
      assert forall m | m in models :: AirlineRank(a, setup, m) <= top;
      assert r.models[0] in r.models;
    } else if ValidAirlineDesignator(a.airline.designator) && models != [] {
      NoneOfAirline(a, models, setup);
    }
  }

  lemma NoneOfAirline(a: Model, models: Models, setup: Setup)
    requires models != [] && ValidAirlineDesignator(a.airline.designator) && !ByAirline(a, models, setup).reduced
    ensures forall m | m in models :: AirlineRank(a, setup, m) == 0
  {
    FindMembers(models, (m: Model) => m.airline.designator == a.airline.designator);
    FindMembers(models, (m: Model) => m.airline.group == a.airline.group);
    var own, ofGroup := FindByAirline(models, a.airline.designator), FindByGroup(models, a.airline.group);
    assert own == [];
    assert ReplaceOrAdd([], ofGroup) == ofGroup;
  }

  lemma FamilyReducesIff(a: Model, family: string, models: Models)
    ensures ByFamilyNamed(a, family, true, models).reduced <==>
            exists m :: m in models && ((family != "" && m.icao.family == family) || PseudoFamily(a, m))
  {
    FindByFamilyMembers(family, models);
    FindByPseudoFamily(a, models);
    var found, more := FindByFamily(models, family), FindByCombinedAndManufacturer(models, a.icao);
    AddedByKey(models, found, more);
    assert found != [] ==> found[0] in found;
    assert more != [] ==> more[0] in more;
  }

  /** All models of the highest rank there is. */
  lemma TopNarrows(found: Models, models: Models, rank: Model -> int, top: int)
    requires found != [] && forall m :: m in found <==> m in models && rank(m) == top
    requires (forall m | m in models :: rank(m) <= top) && (Clean(models) ==> Clean(found))
    ensures Narrows(found, models, rank)
  {
    assert found[0] in found;
  }

  /** What the family step keeps when it reduces, in terms of ranks. */
  lemma FamilyTop(a: Model, models: Models, m: Model) returns (top: int)
    requires Clean(models) && ByFamily(a, true, models).reduced
    ensures top == if a.icao.family == "" || ByFamilyNamed(a, a.icao.family, true, models).reduced then 2 else 1
    ensures m in ByFamily(a, true, models).models <==> m in models && FamilyRank(a, m) == top
    ensures m in models ==> FamilyRank(a, m) <= top
  {
    top := if a.icao.family == "" || ByFamilyNamed(a, a.icao.family, true, models).reduced then 2 else 1;
    FamilyReducesIff(a, a.icao.family, models);
    ByFamilyFinds(a, models, m);
  }

  lemma FamilyTells(a: Model, models: Models)
    ensures ByFamily(a, true, models).reduced <==> Ranked(models, (m: Model) => FamilyRank(a, m))
  {
    FamilyReducesIff(a, a.icao.family, models);
    FamilyReducesIff(a, a.icao.designator, models);
  }

  lemma FamilyNarrows(a: Model, models: Models)
    requires Clean(models)
    ensures NarrowsBy(ByFamily(a, true, models), models, (m: Model) => FamilyRank(a, m))
  {
    var r := ByFamily(a, true, models);
    ByFamilyKeeps(a, true, models);
    FamilyTells(a, models);
    if r.reduced {
      var top := FamilyTop(a, models, r.models[0]);
      forall m
        ensures (m in r.models <==> m in models && FamilyRank(a, m) == top) && (m in models ==> FamilyRank(a, m) <= top)
      {
        var _ := FamilyTop(a, models, m);
      }
      TopNarrows(r.models, models, (m: Model) => FamilyRank(a, m), top);
    } else {
      assert r == Unreduced(models);
      NothingNarrows(models, (m: Model) => FamilyRank(a, m));
    }
  }

  lemma DesignatorNarrows(a: Model, models: Models, setup: Setup)
    requires Clean(models) && ByAircraft(a, models).reduced
    ensures NarrowsBy(ByAircraft(a, models), models, (m: Model) => AircraftRank(a, setup, m))
  {
    var found := ByAircraft(a, models).models;
    FindMembers(models, (m: Model) => m.icao.designator == a.icao.designator);
    ByAircraftKeeps(a, models);
    assert found[0] in found && AircraftRank(a, setup, found[0]) == 3;
    TopNarrows(found, models, (m: Model) => AircraftRank(a, setup, m), 3);
  }

  lemma AircraftNarrows(a: Model, models: Models, setup: Setup)
    requires Clean(models)
    ensures NarrowsBy(ByAircraftOrFamily(a, models, setup), models, (m: Model) => AircraftRank(a, setup, m))
  {
    if ByAircraft(a, models).reduced {
      DesignatorNarrows(a, models, setup);
    } else {
      NotDesignated(a, models, setup);
      if setup.byFamily {
        FamilyNarrows(a, models);
        SameRank(ByFamily(a, true, models), models, (m: Model) => FamilyRank(a, m),
                 (m: Model) => AircraftRank(a, setup, m));
      } else {
        NothingNarrows(models, (m: Model) => AircraftRank(a, setup, m));
      }
    }
  }

  lemma NotDesignated(a: Model, models: Models, setup: Setup)
    requires !ByAircraft(a, models).reduced
    ensures ByAircraft(a, models).models == models
    ensures forall m | m in models :: AircraftRank(a, setup, m) == if setup.byFamily then FamilyRank(a, m) else 0
  {
    FindMembers(models, (m: Model) => m.icao.designator == a.icao.designator);
    ByAircraftKeeps(a, models);
  }

  lemma SameRank(r: Reduction, models: Models, rank: Model -> int, same: Model -> int)
    requires NarrowsBy(r, models, rank) && forall m | m in models :: rank(m) == same(m)
    ensures NarrowsBy(r, models, same)
  {
  }
}
