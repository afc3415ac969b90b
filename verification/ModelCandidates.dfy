/** Which candidates the matching pipeline leaves: exactly the models of the set that no other model
    of the set beats. */
module ModelCandidates {
  import opened Basics
  import opened ModelMatcher
  import opened ModelMatching
  import opened ModelRanking

  // ---------------------------------------------------------------------------
  // The stages of the pipeline
  // ---------------------------------------------------------------------------

  lemma AllAreBest(models: Models, ranks: Model -> seq<int>)
    requires forall m | m in models :: ranks(m) == []
    ensures BestOf(models, models, ranks)
  {
  }

  lemma BestOfFirst(models: Models, found: Models, rank: Model -> int, ranks: Model -> seq<int>)
    requires Narrows(found, models, rank) && forall m | m in models :: ranks(m) == [rank(m)]
    ensures BestOf(found, models, ranks)
  {
    AllAreBest(models, _ => []);
    forall m | m in models ensures ranks(m) == [] + [rank(m)] {}
    NarrowsBest(models, models, _ => [], found, rank, ranks);
  }

  lemma BestOfTwo(models: Models, first: Models, rank1: Model -> int, second: Models, rank2: Model -> int,
                  ranks: Model -> seq<int>)
    requires Narrows(first, models, rank1) && Narrows(second, first, rank2)
    requires forall m | m in models :: ranks(m) == [rank1(m), rank2(m)]
    ensures BestOf(second, models, ranks)
  {
    BestOfFirst(models, first, rank1, m => [rank1(m)]);
    NarrowsBest(models, first, m => [rank1(m)], second, rank2, ranks);
  }

  lemma SearchesTell(a: Model, models: Models, setup: Setup)
    requires Clean(models)
    ensures var aircraft, family := ByAircraftOrFamily(a, models, setup).models, ByFamily(a, true, models).models;
            && (ByAirline(a, aircraft, setup).reduced <==> exists m :: m in aircraft && AirlineRank(a, setup, m) > 0)
            && (ByAirline(a, family, setup).reduced <==> exists m :: m in family && AirlineRank(a, setup, m) > 0)
            && (forall m :: m in aircraft <==> m in models && forall x | x in models ::
                  AircraftRank(a, setup, x) <= AircraftRank(a, setup, m))
            && (forall m :: m in family <==> m in models && forall x | x in models ::
                  FamilyRank(a, x) <= FamilyRank(a, m))
  {
    AircraftNarrows(a, models, setup);
    FamilyNarrows(a, models);
    AirlineNarrows(a, ByAircraftOrFamily(a, models, setup).models, setup);
    AirlineNarrows(a, ByFamily(a, true, models).models, setup);
  }

  lemma SecondSearchIff(a: Model, models: Models, setup: Setup)
    requires Clean(models) && setup.byIcaoData && !setup.airlineFirst
    ensures SecondSearch(a, models, setup) <==> FamilyOfAirline(a, models, setup)
  {
    SearchesTell(a, models, setup);
  }

  lemma AirlineFirstIsBest(a: Model, models: Models, setup: Setup)
    requires Clean(models) && setup.AirlineFirst() && models != []
    ensures var r := ByIcaoData(a, models, setup, false);
            && BestOf(r.models, models, (m: Model) => IcaoRanks(a, models, setup, m))
            && (r.reduced <==> IcaoTells(a, models, setup))
  {
    var r1 := ByAirline(a, models, setup);
    AirlineNarrows(a, models, setup);
    ByAirlineKeeps(a, models, setup);
    AircraftNarrows(a, r1.models, setup);
    ByAircraftOrFamilyKeeps(a, r1.models, setup);
    BestOfTwo(models, r1.models, (m: Model) => AirlineRank(a, setup, m), ByAircraftOrFamily(a, r1.models, setup).models,
              (m: Model) => AircraftRank(a, setup, m), (m: Model) => IcaoRanks(a, models, setup, m));
  }

  lemma SecondSearchIsBest(a: Model, models: Models, setup: Setup)
    requires Clean(models) && SecondSearch(a, models, setup)
    ensures var r := ByIcaoData(a, models, setup, false);
            && BestOf(r.models, models, (m: Model) => IcaoRanks(a, models, setup, m))
            && !r.reduced && !IcaoTells(a, models, setup)
  {
    var family := ByFamily(a, true, models).models;
    SecondSearchIff(a, models, setup);
    FamilyNarrows(a, models);
    ByFamilyKeeps(a, true, models);
    AirlineNarrows(a, family, setup);
    BestOfTwo(models, family, (m: Model) => FamilyRank(a, m), ByAirline(a, family, setup).models,
              (m: Model) => AirlineRank(a, setup, m), (m: Model) => IcaoRanks(a, models, setup, m));
  }

  lemma AircraftThenAirline(a: Model, models: Models, setup: Setup)
    requires Clean(models)
    ensures var r1 := ByAircraftOrFamily(a, models, setup);
            var r2 := ByAirline(a, r1.models, setup);
            && BestOf(r2.models, models, (m: Model) => [AircraftRank(a, setup, m), AirlineRank(a, setup, m)])
            && (r1.reduced || r2.reduced <==>
                exists m :: m in models && (AirlineRank(a, setup, m) > 0 || AircraftRank(a, setup, m) > 0))
            && (!r1.reduced && !r2.reduced ==> r2.models == models)
  {
    var r1 := ByAircraftOrFamily(a, models, setup);
    AircraftNarrows(a, models, setup);
    ByAircraftOrFamilyKeeps(a, models, setup);
    AirlineNarrows(a, r1.models, setup);
    ByAirlineKeeps(a, r1.models, setup);
    BestOfTwo(models, r1.models, (m: Model) => AircraftRank(a, setup, m), ByAirline(a, r1.models, setup).models,
              (m: Model) => AirlineRank(a, setup, m),
              (m: Model) => [AircraftRank(a, setup, m), AirlineRank(a, setup, m)]);
  }

  lemma SameBest(found: Models, models: Models, ranks: Model -> seq<int>, same: Model -> seq<int>)
    requires BestOf(found, models, ranks) && forall m | m in models :: ranks(m) == same(m)
    ensures BestOf(found, models, same)
  {
  }

  lemma AircraftFirstIsBest(a: Model, models: Models, setup: Setup)
    requires Clean(models) && setup.byIcaoData && !setup.airlineFirst && models != []
    ensures var r := ByIcaoData(a, models, setup, false);
            && BestOf(r.models, models, (m: Model) => IcaoRanks(a, models, setup, m))
            && (r.reduced <==> IcaoTells(a, models, setup))
  {
    if SecondSearch(a, models, setup) {
      SecondSearchIsBest(a, models, setup);
    } else {
      SecondSearchIff(a, models, setup);
      AircraftThenAirline(a, models, setup);
      SameBest(ByIcaoData(a, models, setup, false).models, models,
               (m: Model) => [AircraftRank(a, setup, m), AirlineRank(a, setup, m)],
               (m: Model) => IcaoRanks(a, models, setup, m));
    }
  }

  /** The ICAO step, due or not. */
  function IcaoStep(a: Model, models: Models, setup: Setup): Reduction {
    if setup.byIcaoData then ByIcaoData(a, models, setup, false) else Unreduced(models)
  }

  lemma IcaoIsBest(a: Model, models: Models, setup: Setup)
    requires Clean(models)
    ensures var r := IcaoStep(a, models, setup);
            && BestOf(r.models, models, (m: Model) => IcaoRanks(a, models, setup, m))
            && (r.reduced <==> IcaoTells(a, models, setup))
  {
    if !setup.byIcaoData {
      AllAreBest(models, (m: Model) => IcaoRanks(a, models, setup, m));
    } else if models == [] {
    } else if setup.airlineFirst {
      AirlineFirstIsBest(a, models, setup);
    } else {
      AircraftFirstIsBest(a, models, setup);
    }
  }

  lemma FindPart(models: Models, p: Model -> bool)
    ensures forall m :: m in Find(models, p) <==> m in models && p(m)
    ensures Find(models, p) != [] <==> exists m :: m in models && p(m)
    ensures Clean(models) ==> Clean(Find(models, p))
  {
    FoundIsWithin(models, p);
    FindMembers(models, p);
    if Clean(models) {
      FindClean(models, p);
    }
  }

  lemma CategoriesPart(models: Models, categories: set<Category>)
    ensures var found := FindByCategories(models, categories);
            && (forall m :: m in found <==> m in models && m.icao.category.Some? && m.icao.category.value in categories)
            && (Clean(models) ==> Clean(found))
  {
    FindPart(models, (m: Model) => m.icao.category.Some? && m.icao.category.value in categories);
  }

  /** The first non-empty of four lists, each for one rank. */
  lemma FirstOfFour(models: Models, l4: Models, l3: Models, l2: Models, l1: Models, rank: Model -> int)
    requires l1 != [] && forall m | m in l4 || m in l3 || m in l2 || m in l1 :: m in models
    requires forall m | m in models ::
               && (rank(m) >= 4 <==> m in l4) && (rank(m) >= 3 <==> m in l4 || m in l3)
               && (rank(m) >= 2 <==> m in l4 || m in l3 || m in l2) && (rank(m) >= 1 <==> m in l1 || m in l2)
               && rank(m) <= 4
    requires forall m | m in l4 || m in l3 :: m in l1
    requires Clean(models) ==> Clean(l4) && Clean(l3) && Clean(l2) && Clean(l1)
    ensures Narrows(if l4 != [] then l4 else if l3 != [] then l3 else if l2 != [] then l2 else l1, models, rank)
  {
    var found := if l4 != [] then l4 else if l3 != [] then l3 else if l2 != [] then l2 else l1;
    var top := if l4 != [] then 4 else if l3 != [] then 3 else if l2 != [] then 2 else 1;
    assert found[0] in found;
    forall m ensures m in found <==> m in models && rank(m) == top {}
    TopNarrows(found, models, rank, top);
  }

  lemma ClosestGlidersNarrow(a: Model, gliders: Models, modelSet: Models, matcher: CategoryMatcher)
    requires a.icao.category.Some? && gliders != [] && (Clean(modelSet) ==> Clean(gliders))
    requires forall x :: x in gliders <==> x in modelSet && IsGlider(matcher, x)
    ensures Narrows(ClosestGliders(matcher, gliders, modelSet, a.icao.category.value), modelSet,
                    (m: Model) => GliderRank(a, matcher, m))
  {
    var looked := a.icao.category.value;
    CategoriesPart(gliders, {looked});
    CategoriesPart(gliders, matcher.ParallelOf(looked));
    CategoriesPart(modelSet, matcher.SiblingsOf(looked));
    FirstOfFour(modelSet, FindByCategories(gliders, {looked}), FindByCategories(gliders, matcher.ParallelOf(looked)),
                FindByCategories(modelSet, matcher.SiblingsOf(looked)), gliders,
                (m: Model) => GliderRank(a, matcher, m));
  }

  lemma GlidersPart(models: Models, matcher: CategoryMatcher)
    requires matcher.gliders.Some?
    ensures var gliders := FindByFirstLevel(models, matcher.gliders.value);
            && (forall m :: m in gliders <==> m in models && IsGlider(matcher, m))
            && (gliders != [] <==> HasGlider(models, matcher)) && (Clean(models) ==> Clean(gliders))
  {
    var level := matcher.gliders.value;
    FindPart(models, (m: Model) => m.icao.category.Some? && m.icao.category.value.firstLevel == level);
  }

  /** With a glider in the set, the category step starts from the set again. */
  lemma GlidersNarrow(a: Model, matched: Models, modelSet: Models, setup: Setup, matcher: CategoryMatcher)
    requires LooksForGlider(a, setup, matcher) && HasGlider(modelSet, matcher)
    ensures var r := ByCategories(matcher, matched, modelSet, setup, a);
            r.reduced && Narrows(r.models, modelSet, (m: Model) => GliderRank(a, matcher, m))
  {
    GlidersPart(modelSet, matcher);
    ClosestGlidersNarrow(a, FindByFirstLevel(modelSet, matcher.gliders.value), modelSet, matcher);
  }

  lemma SubstitutesNarrow(models: Models)
    ensures NarrowsBy(BySubstitute(models), models, (m: Model) => SubstituteRank(m))
  {
    var p := (m: Model) => IsColorLivery(m.livery)
                           && (m.icao.designator in SUBSTITUTES || m.icao.family in SUBSTITUTES);
    var q := (m: Model) => MatchesCombinedType(m.icao, "L1P");
    FindPart(models, p);
    FindPart(models, q);
    if Find(models, p) != [] {
      TopNarrows(Find(models, p), models, (m: Model) => SubstituteRank(m), 2);
    } else if Find(models, q) != [] {
      TopNarrows(Find(models, q), models, (m: Model) => SubstituteRank(m), 1);
    } else {
      NothingNarrows(models, (m: Model) => SubstituteRank(m));
    }
  }

  /** Without one, it narrows the candidates to substitutes. */
  lemma WithoutGlider(a: Model, matched: Models, modelSet: Models, setup: Setup, matcher: CategoryMatcher)
    requires LooksForGlider(a, setup, matcher) && !HasGlider(modelSet, matcher)
    ensures ByCategories(matcher, matched, modelSet, setup, a) == BySubstitute(matched)
  {
    GlidersPart(modelSet, matcher);
  }

  /** The category step, due or not. */
  function CategoryStep(a: Model, matched: Reduction, modelSet: Models, setup: Setup,
                        matcher: CategoryMatcher): Reduction {
    if setup.UsesCategories() then ByCategories(matcher, matched.models, modelSet, setup, a) else matched
  }

  lemma FirstIsBest(a: Model, models: Models, setup: Setup, matcher: CategoryMatcher)
    requires Clean(models)
    ensures var r := CategoryStep(a, IcaoStep(a, models, setup), models, setup, matcher);
            && BestOf(r.models, models, (m: Model) => FirstRanks(a, models, setup, matcher, m))
            && (r.reduced <==> FirstTells(a, models, setup, matcher))
  {
    var matched := IcaoStep(a, models, setup).models;
    var r := CategoryStep(a, IcaoStep(a, models, setup), models, setup, matcher);
    IcaoIsBest(a, models, setup);
    if !LooksForGlider(a, setup, matcher) {
      SameBest(r.models, models, (m: Model) => IcaoRanks(a, models, setup, m),
               (m: Model) => FirstRanks(a, models, setup, matcher, m));
    } else if HasGlider(models, matcher) {
      GlidersNarrow(a, matched, models, setup, matcher);
      BestOfFirst(models, r.models, (m: Model) => GliderRank(a, matcher, m),
                  (m: Model) => FirstRanks(a, models, setup, matcher, m));
    } else {
      SubstitutesNarrow(matched);
      WithoutGlider(a, matched, models, setup, matcher);
      NarrowsBest(models, matched, (m: Model) => IcaoRanks(a, models, setup, m), r.models,
                  (m: Model) => SubstituteRank(m), (m: Model) => FirstRanks(a, models, setup, matcher, m));
    }
  }

  /** One more step, due or not. */
  lemma StepIsBest(models: Models, best: Models, ranks: Model -> seq<int>, due: bool, found: Models, rank: Model -> int,
                   more: Model -> seq<int>)
    requires BestOf(best, models, ranks)
    requires if due then Narrows(found, best, rank) else found == best
    requires forall x, y | x in models && y in models :: |ranks(x)| == |ranks(y)|
    requires forall x | x in models :: more(x) == ranks(x) + if due then [rank(x)] else []
    ensures BestOf(found, models, more)
  {
    if due {
      NarrowsBest(models, best, ranks, found, rank, more);
    } else {
      forall x | x in models ensures more(x) == ranks(x) {}
      SameBest(found, models, ranks, more);
    }
  }

  lemma NarrowsThrice(models: Models, l1: Models, r1: Model -> int, l2: Models, r2: Model -> int, l3: Models,
                      r3: Model -> int, rank: Model -> int)
    requires Narrows(l1, models, r1) && Narrows(l2, l1, r2) && Narrows(l3, l2, r3)
    requires forall m | m in models :: 0 <= r2(m) <= 2 && 0 <= r3(m) <= 1 && rank(m) == 6 * r1(m) + 2 * r2(m) + r3(m)
    ensures Narrows(l3, models, rank)
  {
    forall m ensures m in l3 <==> m in models && forall x | x in models :: rank(x) <= rank(m) {
      if m in l3 {
        forall x | x in models ensures rank(x) <= rank(m) {
          assert r1(x) == r1(m) ==> x in l1;
          assert x in l1 && r2(x) == r2(m) ==> x in l2;
        }
      } else if m in l2 {
        var x :| x in l2 && r3(x) > r3(m);
        assert rank(x) > rank(m);
      } else if m in l1 {
        var x :| x in l1 && r2(x) > r2(m);
        assert rank(x) > rank(m);
      } else if m in models {
        var x :| x in models && r1(x) > r1(m);
        assert rank(x) > rank(m);
      }
    }
  }

  lemma OfTypeNarrow(a: Model, models: Models)
    ensures var l1 := FindByCombinedType(models, a.icao.combinedType);
            && (forall m | m in l1 :: MatchesCombinedType(m.icao, a.icao.combinedType))
            && (Clean(models) ==> Clean(l1))
            && (l1 == [] ==> forall m | m in models :: !MatchesCombinedType(m.icao, a.icao.combinedType))
            && Narrows(if l1 == [] then models else l1, models,
                       (m: Model) => Rank(MatchesCombinedType(m.icao, a.icao.combinedType)))
  {
    var p := (m: Model) => MatchesCombinedType(m.icao, a.icao.combinedType);
    FindPart(models, p);
    PartNarrows(models, p, (m: Model) => Rank(MatchesCombinedType(m.icao, a.icao.combinedType)));
  }

  predicate OfType(a: Model, m: Model) {
    MatchesCombinedType(m.icao, a.icao.combinedType)
  }

  /** Among several models of the type the type step narrows by airline and manufacturer. */
  lemma SeveralOfType(a: Model, models: Models, l1: Models, setup: Setup)
    requires Clean(l1) && forall m | m in l1 :: OfType(a, m)
    requires Narrows(l1, models, (m: Model) => Rank(OfType(a, m)))
    ensures Narrows(ByManufacturer(a, ByAirline(a, l1, setup).models).models, models,
                    (m: Model) => TypeRank(a, setup, m))
  {
    var l2 := ByAirline(a, l1, setup).models;
    AirlineNarrows(a, l1, setup);
    ManufacturerNarrows(a, l2);
    NarrowsThrice(models, l1, (m: Model) => Rank(OfType(a, m)),
                  l2, (m: Model) => if OfType(a, m) then AirlineRank(a, setup, m) else 0,
                  ByManufacturer(a, l2).models, (m: Model) => if OfType(a, m) then ManufacturerRank(a, m) else 0,
                  (m: Model) => TypeRank(a, setup, m));
  }

  lemma TypeNarrows(a: Model, models: Models, setup: Setup)
    requires Clean(models) && ValidCombinedType(a.icao.combinedType)
    ensures Narrows(ByCombinedType(a, models, setup).models, models, (m: Model) => TypeRank(a, setup, m))
  {
    var l1 := FindByCombinedType(models, a.icao.combinedType);
    OfTypeNarrow(a, models);
    if l1 == [] {
      NothingNarrows(models, (m: Model) => TypeRank(a, setup, m));
    } else if |l1| == 1 {
      OneOfType(a, models, l1, setup);
    } else {
      SeveralOfType(a, models, l1, setup);
    }
  }

  lemma OneOfType(a: Model, models: Models, l1: Models, setup: Setup)
    requires |l1| == 1 && (Clean(models) ==> Clean(l1)) && forall m | m in l1 :: OfType(a, m)
    requires Narrows(l1, models, (m: Model) => Rank(OfType(a, m)))
    ensures Narrows(l1, models, (m: Model) => TypeRank(a, setup, m))
  {
    assert forall m | m in l1 :: m == l1[0];
    assert l1[0] in l1;
    assert forall m | m in models && m !in l1 :: TypeRank(a, setup, m) == 0;
    TopNarrows(l1, models, (m: Model) => TypeRank(a, setup, m), TypeRank(a, setup, l1[0]));
  }

  // ---------------------------------------------------------------------------
  // The whole pipeline
  // ---------------------------------------------------------------------------

  /** The VTOL step, due or not. */
  function VtolStep(a: Model, matched: Reduction, setup: Setup): Models {
    if !matched.reduced && VtolCounts(a, setup) then ByVtolFlag(matched.models).models else matched.models
  }

  function MilitaryStep(a: Model, matched: Models, setup: Setup): Models {
    if MilitaryCounts(a, setup) then ByMilitaryFlag(a, matched).models else matched
  }

  function TypeStep(a: Model, matched: Models, setup: Setup): Models {
    if TypeCounts(a, setup) then ByCombinedType(a, matched, setup).models else matched
  }

  lemma RefinedInSteps(a: Model, matched: Reduction, models: Models, setup: Setup, matcher: CategoryMatcher)
    ensures Refined(a, matched.models, models, setup, matcher, matched.reduced).models ==
            MilitaryStep(a, VtolStep(a, CategoryStep(a, matched, models, setup, matcher), setup), setup)
  {
  }

  lemma AllInSteps(a: Model, models: Models, setup: Setup, matcher: CategoryMatcher)
    ensures Steps(a, models, models, setup, matcher) ==
            TypeStep(a, MilitaryStep(a, VtolStep(a, CategoryStep(a, IcaoStep(a, models, setup), models, setup, matcher),
                                                 setup), setup), setup)
  {
    RefinedInSteps(a, IcaoStep(a, models, setup), models, setup, matcher);
  }

  /** How many ranks count does not depend on the model. */
  lemma AsManyRanks(a: Model, models: Models, setup: Setup, matcher: CategoryMatcher, x: Model, y: Model)
    ensures |FirstRanks(a, models, setup, matcher, x)| == |FirstRanks(a, models, setup, matcher, y)|
    ensures |VtolRanks(a, models, setup, matcher, x)| == |VtolRanks(a, models, setup, matcher, y)|
    ensures |FlagRanks(a, models, setup, matcher, x)| == |FlagRanks(a, models, setup, matcher, y)|
    ensures |StepRanks(a, models, setup, matcher, x)| == |StepRanks(a, models, setup, matcher, y)|
  {
  }

  lemma VtolStepIsBest(a: Model, models: Models, first: Reduction, setup: Setup, ranks: Model -> seq<int>,
                       more: Model -> seq<int>)
    requires BestOf(first.models, models, ranks) && forall x, y :: |ranks(x)| == |ranks(y)|
    requires forall x :: more(x) == ranks(x) +
                                    if VtolCounts(a, setup) && !first.reduced then [Rank(x.icao.vtol)] else []
    ensures BestOf(VtolStep(a, first, setup), models, more)
  {
    VtolNarrows(first.models);
    StepIsBest(models, first.models, ranks, VtolCounts(a, setup) && !first.reduced, VtolStep(a, first, setup),
               (m: Model) => Rank(m.icao.vtol), more);
  }

  lemma MilitaryStepIsBest(a: Model, models: Models, matched: Models, setup: Setup, ranks: Model -> seq<int>,
                           more: Model -> seq<int>)
    requires BestOf(matched, models, ranks) && forall x, y :: |ranks(x)| == |ranks(y)|
    requires forall x :: more(x) == ranks(x) + if MilitaryCounts(a, setup) then [Rank(x.military == a.military)] else []
    ensures BestOf(MilitaryStep(a, matched, setup), models, more)
  {
    MilitaryNarrows(a, matched);
    StepIsBest(models, matched, ranks, MilitaryCounts(a, setup), MilitaryStep(a, matched, setup),
               (m: Model) => Rank(m.military == a.military), more);
  }

  lemma TypeStepIsBest(a: Model, models: Models, matched: Models, setup: Setup, ranks: Model -> seq<int>,
                       more: Model -> seq<int>)
    requires Clean(models) && BestOf(matched, models, ranks) && forall x, y :: |ranks(x)| == |ranks(y)|
    requires forall x :: more(x) == ranks(x) + if TypeCounts(a, setup) then [TypeRank(a, setup, x)] else []
    ensures BestOf(TypeStep(a, matched, setup), models, more)
  {
    if TypeCounts(a, setup) {
      TypeNarrows(a, matched, setup);
    }
    StepIsBest(models, matched, ranks, TypeCounts(a, setup), TypeStep(a, matched, setup),
               (m: Model) => TypeRank(a, setup, m), more);
  }

  lemma StepsAreBest(a: Model, models: Models, setup: Setup, matcher: CategoryMatcher)
    requires Clean(models)
    ensures BestOf(Steps(a, models, models, setup, matcher), models,
                   (m: Model) => StepRanks(a, models, setup, matcher, m))
  {
    var first := CategoryStep(a, IcaoStep(a, models, setup), models, setup, matcher);
    var vtol := VtolStep(a, first, setup);
    var firstRanks := (m: Model) => FirstRanks(a, models, setup, matcher, m);
    var vtolRanks := (m: Model) => VtolRanks(a, models, setup, matcher, m);
    var flagRanks := (m: Model) => FlagRanks(a, models, setup, matcher, m);
    FirstIsBest(a, models, setup, matcher);
    forall x, y
      ensures |firstRanks(x)| == |firstRanks(y)| && |vtolRanks(x)| == |vtolRanks(y)| && |flagRanks(x)| == |flagRanks(y)|
    {
      AsManyRanks(a, models, setup, matcher, x, y);
    }
    VtolStepIsBest(a, models, first, setup, firstRanks, vtolRanks);
    MilitaryStepIsBest(a, models, vtol, setup, vtolRanks, flagRanks);
    TypeStepIsBest(a, models, MilitaryStep(a, vtol, setup), setup, flagRanks,
                   (m: Model) => StepRanks(a, models, setup, matcher, m));
    AllInSteps(a, models, setup, matcher);
  }

  /** The pipeline up to where the manufacturer has the last word. */
  function Main(a: Model, models: Models, setup: Setup, matcher: CategoryMatcher, logSteps: bool): Models {
    var byLivery := ByLiveryAndAircraft(a, models);
    if setup.byLivery && byLivery.reduced then byLivery.models
    else if !setup.byIcaoData && logSteps && setup.byFamily && ByFamily(a, true, models).reduced
    then ByFamily(a, true, models).models
    else Steps(a, models, models, setup, matcher)
  }

  function ManufacturerStep(a: Model, matched: Models, setup: Setup): Models {
    if |matched| > 1 && setup.byManufacturer then ByManufacturer(a, matched).models else matched
  }

  lemma PipelineIsMain(a: Model, models: Models, setup: Setup, matcher: CategoryMatcher, logSteps: bool)
    ensures StepwiseReduce(a, models, setup, matcher, logSteps) ==
            ManufacturerStep(a, Main(a, models, setup, matcher, logSteps), setup)
  {
    ByLiveryKeeps(a, models);
    ByFamilyKeeps(a, true, models);
  }

  lemma MainIsBest(a: Model, models: Models, setup: Setup, matcher: CategoryMatcher, logSteps: bool)
    requires Clean(models)
    ensures BestOf(Main(a, models, setup, matcher, logSteps), models,
                   (m: Model) => MainRanks(a, models, setup, matcher, logSteps, m))
  {
    var ranks := (m: Model) => MainRanks(a, models, setup, matcher, logSteps, m);
    LiveryNarrows(a, models);
    FamilyNarrows(a, models);
    if LiveryHits(a, models, setup) {
      BestOfFirst(models, ByLiveryAndAircraft(a, models).models, (m: Model) => LiveryRank(a, m), ranks);
    } else if LoggedFamilyHits(a, models, setup, logSteps) {
      BestOfFirst(models, ByFamily(a, true, models).models, (m: Model) => FamilyRank(a, m), ranks);
    } else {
      StepsAreBest(a, models, setup, matcher);
      SameBest(Steps(a, models, models, setup, matcher), models, (m: Model) => StepRanks(a, models, setup, matcher, m),
               ranks);
    }
  }

  lemma ManufacturerIsBest(a: Model, models: Models, matched: Models, setup: Setup, ranks: Model -> seq<int>,
                           more: Model -> seq<int>)
    requires BestOf(matched, models, ranks) && forall x, y :: |ranks(x)| == |ranks(y)|
    requires forall x :: more(x) == ranks(x) + if setup.byManufacturer then [ManufacturerRank(a, x)] else []
    ensures BestOf(ManufacturerStep(a, matched, setup), models, more)
  {
    ManufacturerNarrows(a, matched);
    OneIsBest(matched, (m: Model) => ManufacturerRank(a, m));
    StepIsBest(models, matched, ranks, setup.byManufacturer,
               ManufacturerStep(a, matched, setup), (m: Model) => ManufacturerRank(a, m), more);
  }

  lemma OneIsBest(models: Models, rank: Model -> int)
    ensures |models| <= 1 ==> Narrows(models, models, rank)
  {
    assert |models| == 1 ==> forall m | m in models :: m == models[0];
  }

  lemma MainRanksAlike(a: Model, models: Models, setup: Setup, matcher: CategoryMatcher, logSteps: bool)
    ensures forall x, y :: |MainRanks(a, models, setup, matcher, logSteps, x)|
                           == |MainRanks(a, models, setup, matcher, logSteps, y)|
  {
    forall x, y
      ensures |MainRanks(a, models, setup, matcher, logSteps, x)| == |MainRanks(a, models, setup, matcher, logSteps, y)|
    {
      AsManyRanks(a, models, setup, matcher, x, y);
    }
  }

  lemma ReducedIsBest(a: Model, models: Models, setup: Setup, matcher: CategoryMatcher, logSteps: bool)
    returns (r: Models)
    requires Clean(models)
    ensures r == StepwiseReduce(a, models, setup, matcher, logSteps)
    ensures BestOf(r, models, (m: Model) => Ranks(a, models, setup, matcher, logSteps, m))
  {
    var matched := Main(a, models, setup, matcher, logSteps);
    MainIsBest(a, models, setup, matcher, logSteps);
    MainRanksAlike(a, models, setup, matcher, logSteps);
    ManufacturerIsBest(a, models, matched, setup, (m: Model) => MainRanks(a, models, setup, matcher, logSteps, m),
                       (m: Model) => Ranks(a, models, setup, matcher, logSteps, m));
    r := ManufacturerStep(a, matched, setup);
    PipelineIsMain(a, models, setup, matcher, logSteps);
  }

  /** For every setup, aircraft and set of models: the candidates are exactly the models that no other
      model of the set beats. */
  lemma CandidatesAreTheBest(a: Model, models: Models, setup: Setup, matcher: CategoryMatcher, logSteps: bool, m: Model)
    requires Clean(models)
    ensures m in StepwiseReduce(a, models, setup, matcher, logSteps) <==>
            && m in models
            && forall x | x in models :: !Beats(Ranks(a, models, setup, matcher, logSteps, x),
                                                Ranks(a, models, setup, matcher, logSteps, m))
  {
    var _ := ReducedIsBest(a, models, setup, matcher, logSteps);
  }

  // ---------------------------------------------------------------------------
  // What the candidates have in common
  // ---------------------------------------------------------------------------

  ghost predicate AllOrNone(models: Models, p: Model -> bool) {
    (forall m | m in models :: p(m)) || (forall m | m in models :: !p(m))
  }

  lemma PartIsUniform(models: Models, p: Model -> bool)
    ensures AllOrNone(IfAny(Find(models, p), models).models, p)
  {
    FindPart(models, p);
  }

  /** In any set, even one with equal strings: when neither livery nor logged family break off, the
      candidates are uniform in every step that is due. */
  lemma CandidatesAreUniform(a: Model, models: Models, setup: Setup, matcher: CategoryMatcher, logSteps: bool)
    requires !LiveryHits(a, models, setup) && !LoggedFamilyHits(a, models, setup, logSteps)
    ensures var r := StepwiseReduce(a, models, setup, matcher, logSteps);
            && (setup.byCombinedType && ValidCombinedType(a.icao.combinedType) ==>
                  AllOrNone(r, (m: Model) => MatchesCombinedType(m.icao, a.icao.combinedType)))
            && ((if a.military then setup.byMilitary else setup.byCivilian) ==>
                  AllOrNone(r, (m: Model) => m.military == a.military))
            && (setup.byManufacturer && a.icao.manufacturer != "" ==>
                  AllOrNone(r, (m: Model) => m.icao.manufacturer == a.icao.manufacturer))
  {
    var first := CategoryStep(a, IcaoStep(a, models, setup), models, setup, matcher);
    var flags := MilitaryStep(a, VtolStep(a, first, setup), setup);
    var steps := StepsAre(a, models, setup, matcher, logSteps, flags);
    var r := ManufacturerStep(a, steps, setup);
    TypeIsUniform(a, flags, setup);
    LastIsUniform(a, steps, setup);
    if MilitaryCounts(a, setup) {
      PartIsUniform(VtolStep(a, first, setup), (m: Model) => m.military == a.military);
      SubsetIsUniform(r, flags, (m: Model) => m.military == a.military);
    }
    if TypeCounts(a, setup) {
      SubsetIsUniform(r, steps, (m: Model) => MatchesCombinedType(m.icao, a.icao.combinedType));
    }
  }

  lemma SubsetIsUniform(part: Models, models: Models, p: Model -> bool)
    requires AllOrNone(models, p) && forall m | m in part :: m in models
    ensures AllOrNone(part, p)
  {
  }

  lemma StepsAre(a: Model, models: Models, setup: Setup, matcher: CategoryMatcher, logSteps: bool, flags: Models)
    returns (steps: Models)
    requires !LiveryHits(a, models, setup) && !LoggedFamilyHits(a, models, setup, logSteps)
    requires flags == MilitaryStep(a, VtolStep(a, CategoryStep(a, IcaoStep(a, models, setup), models, setup, matcher),
                                               setup), setup)
    ensures steps == TypeStep(a, flags, setup)
    ensures StepwiseReduce(a, models, setup, matcher, logSteps) == ManufacturerStep(a, steps, setup)
  {
    steps := Main(a, models, setup, matcher, logSteps);
    LiveryNarrows(a, models);
    FamilyTells(a, models);
    PipelineIsMain(a, models, setup, matcher, logSteps);
    AllInSteps(a, models, setup, matcher);
  }

  lemma LastIsUniform(a: Model, models: Models, setup: Setup)
    ensures forall m | m in ManufacturerStep(a, models, setup) :: m in models
    ensures setup.byManufacturer && a.icao.manufacturer != "" ==>
              AllOrNone(ManufacturerStep(a, models, setup), (m: Model) => m.icao.manufacturer == a.icao.manufacturer)
  {
    PartIsUniform(models, (m: Model) => m.icao.manufacturer == a.icao.manufacturer);
    ByManufacturerKeeps(a, models);
    if |models| == 1 {
      assert forall m | m in models :: m == models[0];
    }
  }

  lemma TypeIsUniform(a: Model, models: Models, setup: Setup)
    ensures forall m | m in TypeStep(a, models, setup) :: m in models
    ensures TypeCounts(a, setup) ==>
              AllOrNone(TypeStep(a, models, setup), (m: Model) => MatchesCombinedType(m.icao, a.icao.combinedType))
  {
    CombinedTypeFlagIff(a, models, setup);
    var found := FindByCombinedType(models, a.icao.combinedType);
    FindPart(models, (m: Model) => MatchesCombinedType(m.icao, a.icao.combinedType));
    ByAirlineKeeps(a, found, setup);
    ByManufacturerKeeps(a, ByAirline(a, found, setup).models);
  }

  lemma RanksStart(a: Model, models: Models, setup: Setup, matcher: CategoryMatcher, logSteps: bool, m: Model)
    requires setup.byIcaoData && !LiveryHits(a, models, setup)
    requires LooksForGlider(a, setup, matcher) ==> !HasGlider(models, matcher)
    ensures IcaoRanks(a, models, setup, m) <= Ranks(a, models, setup, matcher, logSteps, m)
  {
  }

  lemma IcaoLeads(a: Model, models: Models, setup: Setup, matcher: CategoryMatcher, logSteps: bool, x: Model,
                      m: Model)
    requires Clean(models) && setup.byIcaoData && !LiveryHits(a, models, setup)
    requires LooksForGlider(a, setup, matcher) ==> !HasGlider(models, matcher)
    requires x in models && m in StepwiseReduce(a, models, setup, matcher, logSteps)
    ensures m in models
    ensures var best, mine := IcaoRanks(a, models, setup, x), IcaoRanks(a, models, setup, m);
            best[0] < mine[0] || (best[0] == mine[0] && best[1] <= mine[1])
  {
    CandidatesAreTheBest(a, models, setup, matcher, logSteps, m);
    RanksStart(a, models, setup, matcher, logSteps, x);
    RanksStart(a, models, setup, matcher, logSteps, m);
    BeatenAtStart(Ranks(a, models, setup, matcher, logSteps, x), Ranks(a, models, setup, matcher, logSteps, m));
  }

  lemma BeatenAtStart(x: seq<int>, y: seq<int>)
    requires |x| >= 2 && |y| >= 2 && !Beats(x, y)
    ensures x[0] < y[0] || (x[0] == y[0] && x[1] <= y[1])
  {
  }

  /** Aircraft first, with a model of the designator in the set: all candidates have the designator,
      unless none of those models is of the airline and some model of the family is. Then none has. */
  lemma DesignatorIsKeptIff(a: Model, models: Models, setup: Setup, matcher: CategoryMatcher, logSteps: bool, m: Model)
    requires Clean(models) && setup.byIcaoData && !setup.airlineFirst && !LiveryHits(a, models, setup)
    requires LooksForGlider(a, setup, matcher) ==> !HasGlider(models, matcher)
    requires a.icao.designator != "" && exists x :: x in models && x.icao.designator == a.icao.designator
    requires m in StepwiseReduce(a, models, setup, matcher, logSteps)
    ensures m.icao.designator == a.icao.designator <==> !FamilyOfAirline(a, models, setup)
  {
    if FamilyOfAirline(a, models, setup) {
      FamilyIsTaken(a, models, setup, matcher, logSteps, m);
    } else {
      var x :| x in models && x.icao.designator == a.icao.designator;
      IcaoLeads(a, models, setup, matcher, logSteps, x, m);
    }
  }

  lemma FamilyIsTaken(a: Model, models: Models, setup: Setup, matcher: CategoryMatcher, logSteps: bool, m: Model)
    requires Clean(models) && setup.byIcaoData && !setup.airlineFirst && !LiveryHits(a, models, setup)
    requires LooksForGlider(a, setup, matcher) ==> !HasGlider(models, matcher)
    requires FamilyOfAirline(a, models, setup) && m in StepwiseReduce(a, models, setup, matcher, logSteps)
    ensures AirlineRank(a, setup, m) > 0 && AircraftRank(a, setup, m) < 3
  {
    var x :| x in models && AirlineRank(a, setup, x) > 0
             && forall y | y in models :: FamilyRank(a, y) <= FamilyRank(a, x);
    IcaoLeads(a, models, setup, matcher, logSteps, x, m);
    FamilyTaken(a, models, setup, x, m);
  }

  lemma FamilyTaken(a: Model, models: Models, setup: Setup, x: Model, m: Model)
    requires FamilyOfAirline(a, models, setup) && m in models && setup.byIcaoData && !setup.airlineFirst
    requires AirlineRank(a, setup, x) > 0 && FamilyRank(a, m) <= FamilyRank(a, x)
    requires var best, mine := IcaoRanks(a, models, setup, x), IcaoRanks(a, models, setup, m);
             best[0] < mine[0] || (best[0] == mine[0] && best[1] <= mine[1])
    ensures AirlineRank(a, setup, m) > 0 && AircraftRank(a, setup, m) < 3
  {
    assert AirlineRank(a, setup, m) > 0;
    var y :| y in models && AircraftRank(a, setup, y) > AircraftRank(a, setup, m);
  }

  /** Airline first, with a model of the airline or its group in the set: all candidates are of the
      airline or its group. */
  lemma AirlineIsKept(a: Model, models: Models, setup: Setup, matcher: CategoryMatcher, logSteps: bool, m: Model)
    requires Clean(models) && setup.byIcaoData && setup.airlineFirst && !LiveryHits(a, models, setup)
    requires LooksForGlider(a, setup, matcher) ==> !HasGlider(models, matcher)
    requires exists x :: x in models && AirlineRank(a, setup, x) > 0
    requires m in StepwiseReduce(a, models, setup, matcher, logSteps)
    ensures m.airline.designator == a.airline.designator || m.airline.group == a.airline.group
  {
    var x :| x in models && AirlineRank(a, setup, x) > 0;
    IcaoLeads(a, models, setup, matcher, logSteps, x, m);
  }
}
