/** `CAircraftMatcher::getClosestMatch` without matching script: which model an aircraft gets. The
    callsign and the model type that every result is stamped with are left aside. */
module ClosestMatch {
  import opened Basics
  import opened ModelMatcher
  import opened ModelMatching
  import opened ModelRanking
  import opened ModelCandidates
  import opened ModelSet

  datatype Algorithm = StepwiseReduction | ScoreBased | StepwisePlusScore

  datatype Strategy = PickFirst | PickByOrder | PickRandom

  /** What one matching works with: `score` is the unseen score of a model for the aircraft, and
      `random` the number drawn for a random pick. */
  datatype Matching = Matching(setup: Setup, matcher: CategoryMatcher, algorithm: Algorithm, strategy: Strategy,
                               ignoreZeros: bool, score: Model -> int, random: nat, logSteps: bool)

  predicate MatchesString(m: Model, modelString: string) {
    m.key == modelString || m.alias == modelString
  }

  /** The first model with the string or alias; without string there is none. */
  function ExactMatch(a: Model, models: Models): Option<Model> {
    if a.key == "" then None
    else
      var found := Find(models, (m: Model) => MatchesString(m, a.key));
      if found == [] || found[0].key == "" then None else Some(found[0])
  }

  /** The models that matching may use. */
  function Usable(models: Models, setup: Setup): Models {
    var withString := Find(models, (m: Model) => m.key != "");
    var inDb := if setup.excludeNoDbData then Find(withString, (m: Model) => m.hasDbKey) else withString;
    if setup.excludeExcluded then Find(inDb, (m: Model) => !m.excluded) else inDb
  }

  function MaxScore(models: Models, score: Model -> int): int
    requires models != []
  {
    if |models| == 1 || score(models[0]) >= MaxScore(models[1..], score) then score(models[0])
    else MaxScore(models[1..], score)
  }

  /** Models of one score come out of the multi-map the last inserted first. */
  function Reverse(models: Models): Models {
    if models == [] then [] else Reverse(models[1..]) + [models[0]]
  }

  function ByScore(models: Models, score: Model -> int, ignoreZeros: bool): Models {
    var scored := if ignoreZeros then Find(models, (x: Model) => score(x) >= 1) else models;
    if scored == [] then [] else OfScore(scored, score, MaxScore(scored, score))
  }

  function OfScore(models: Models, score: Model -> int, value: int): Models {
    Reverse(Find(models, (x: Model) => score(x) == value))
  }

  function Candidates(a: Model, models: Models, m: Matching): Models {
    match m.algorithm
    case StepwiseReduction => StepwiseReduce(a, models, m.setup, m.matcher, m.logSteps)
    case ScoreBased => ByScore(models, m.score, m.ignoreZeros)
    case StepwisePlusScore =>
      ByScore(StepwiseReduce(a, models, m.setup, m.matcher, m.logSteps), m.score, m.ignoreZeros)
  }

  predicate NeedsOrder(models: Models) {
    exists m | m in models :: m.order.None?
  }

  /** The first of the models with the least order. */
  function MinOrder(models: Models): (first: Model)
    requires models != [] && !NeedsOrder(models)
    ensures first in models
  {
    if |models| == 1 then models[0]
    else
      assert forall m | m in models[1..] :: m in models;
      var least := MinOrder(models[1..]);
      if least.order.value < models[0].order.value then least else models[0]
  }

  function Pick(candidates: Models, m: Matching): Model
    requires candidates != []
  {
    if m.strategy == PickRandom then candidates[m.random % |candidates|]
    else if m.strategy == PickByOrder && !NeedsOrder(candidates) then MinOrder(candidates)
    else candidates[0]
  }

  /** The second search looks in the empty result of the first. */
  function CombinedTypeDefault(a: Model, models: Models, default_: Model): Model {
    if a.icao.combinedType == "" || models == [] then default_
    else
      var colored := Find(FindByCombinedType(models, a.icao.combinedType), (m: Model) => IsColorLivery(m.livery));
      var found := if colored != [] then colored else FindByCombinedType(colored, a.icao.combinedType);
      if found == [] then default_ else found[0]
  }

  /** The match by algorithm and strategy. */
  function Searched(a: Model, models: Models, default_: Model, m: Matching): Model {
    var usable := Usable(models, m.setup);
    var candidates := Candidates(a, usable, m);
    var matched := if candidates == [] then CombinedTypeDefault(a, usable, default_) else Pick(candidates, m);
    if matched.key == "" then default_ else matched
  }

  function ClosestMatch(a: Model, models: Models, default_: Model, m: Matching): Model {
    if a.manuallySet && a.key != "" then a
    else if models == [] then default_
    else
      var exact := if m.setup.byModelString then ExactMatch(a, models) else None;
      if exact.Some? then exact.value else Searched(a, models, default_, m)
  }

  // ---------------------------------------------------------------------------
  // Where the match comes from
  // ---------------------------------------------------------------------------

  lemma {:induction false} ReverseMembers(models: Models)
    ensures forall m :: m in Reverse(models) <==> m in models
  {
    if models != [] {
      ReverseMembers(models[1..]);
      assert models == [models[0]] + models[1..];
    }
  }

  lemma {:induction false} MaxScoreIsReached(models: Models, score: Model -> int)
    requires models != []
    ensures (exists m :: m in models && score(m) == MaxScore(models, score)) &&
            forall m | m in models :: score(m) <= MaxScore(models, score)
  {
    if |models| == 1 {
      assert models[0] in models;
    } else {
      MaxScoreIsReached(models[1..], score);
      assert models == [models[0]] + models[1..];
      if MaxScore(models, score) == score(models[0]) {
        assert models[0] in models;
      } else {
        var m :| m in models[1..] && score(m) == MaxScore(models[1..], score);
        assert m in models;
      }
    }
  }

  /** Scoring keeps exactly the models with the best score; it keeps none only if zeros are ignored
      and no score is positive. */
  lemma ByScoreKeepsBest(models: Models, score: Model -> int, ignoreZeros: bool)
    ensures var best := ByScore(models, score, ignoreZeros);
            && (best == [] <==> models == [] || (ignoreZeros && forall x | x in models :: score(x) < 1))
            && (forall x | x in best :: x in models && forall y | y in models :: score(y) <= score(x))
            && (best != [] ==> forall x, y | x in models && y in best && score(x) == score(y) :: x in best)
  {
    FindMembers(models, (x: Model) => score(x) >= 1);
    var scored := if ignoreZeros then Find(models, (x: Model) => score(x) >= 1) else models;
    assert scored != [] ==> scored[0] in scored;
    if scored != [] {
      MaxScoreIsReached(scored, score);
      OfScoreMembers(scored, score, MaxScore(scored, score));
      var x :| x in scored && score(x) == MaxScore(scored, score);
      assert x in ByScore(models, score, ignoreZeros);
    }
  }

  lemma OfScoreMembers(models: Models, score: Model -> int, value: int)
    ensures forall x :: x in OfScore(models, score, value) <==> x in models && score(x) == value
  {
    FindMembers(models, (x: Model) => score(x) == value);
    ReverseMembers(Find(models, (x: Model) => score(x) == value));
  }

  /** What each strategy picks: by order, when all candidates have one, the first of least order; at
      random, the drawn one; otherwise the first candidate. */
  lemma PickIsCandidate(candidates: Models, m: Matching) returns (i: nat)
    requires candidates != []
    ensures i < |candidates| && Pick(candidates, m) == candidates[i]
    ensures m.strategy == PickRandom ==> i == m.random % |candidates|
    ensures if m.strategy == PickByOrder && forall x | x in candidates :: x.order.Some? then
              forall j | 0 <= j < |candidates| ::
                && candidates[j].order.Some? && candidates[i].order.value <= candidates[j].order.value
                && (j < i ==> candidates[i].order.value < candidates[j].order.value)
            else m.strategy != PickRandom ==> i == 0
  {
    if m.strategy == PickRandom {
      i := m.random % |candidates|;
    } else if m.strategy == PickByOrder && !NeedsOrder(candidates) {
      i := MinOrderIsFirst(candidates);
    } else {
      i := 0;
    }
  }

  lemma {:induction false} MinOrderIsFirst(models: Models) returns (i: nat)
    requires models != [] && !NeedsOrder(models)
    ensures i < |models| && MinOrder(models) == models[i]
    ensures forall j | 0 <= j < |models| ::
              && models[i].order.value <= models[j].order.value
              && (j < i ==> models[i].order.value < models[j].order.value)
  {
    i := 0;
    if |models| > 1 {
      assert forall m | m in models[1..] :: m in models;
      var k := MinOrderIsFirst(models[1..]);
      if models[1..][k].order.value < models[0].order.value {
        i := k + 1;
      }
      forall j | 0 <= j < |models|
        ensures models[i].order.value <= models[j].order.value
                && (j < i ==> models[i].order.value < models[j].order.value)
      {
        if j > 0 {
          assert models[j] == models[1..][j - 1];
        }
      }
    }
  }

  lemma CandidatesAreUsable(a: Model, models: Models, m: Matching)
    ensures forall x | x in Candidates(a, models, m) :: x in models
    ensures m.algorithm == StepwiseReduction && models != [] ==> Candidates(a, models, m) != []
  {
    NeverLosesEverything(a, models, m.setup, m.matcher, m.logSteps);
    ByScoreKeepsBest(models, m.score, m.ignoreZeros);
    ByScoreKeepsBest(StepwiseReduce(a, models, m.setup, m.matcher, m.logSteps), m.score, m.ignoreZeros);
  }

  /** The default by combined type is a model of that type in a colour livery, if there is one, and
      otherwise the default model, however many other models of the type the set has. */
  lemma CombinedTypeDefaultIff(a: Model, models: Models, default_: Model)
    ensures var r := CombinedTypeDefault(a, models, default_);
            var fits := (m: Model) => m in models && MatchesCombinedType(m.icao, a.icao.combinedType)
                                      && IsColorLivery(m.livery);
            if exists m :: fits(m) then fits(r) else r == default_
  {
    var ofType := FindByCombinedType(models, a.icao.combinedType);
    FindMembers(models, (m: Model) => MatchesCombinedType(m.icao, a.icao.combinedType));
    FindMembers(ofType, (m: Model) => IsColorLivery(m.livery));
    var colored := Find(ofType, (m: Model) => IsColorLivery(m.livery));
    assert colored != [] ==> colored[0] in colored;
  }

  /** Of the set matching uses exactly the models with a string, and under their flags those with a
      database key and those not excluded. */
  lemma UsableMembers(models: Models, setup: Setup)
    ensures forall m :: m in Usable(models, setup) <==>
              && m in models && m.key != ""
              && (m.hasDbKey || !setup.excludeNoDbData) && (!m.excluded || !setup.excludeExcluded)
  {
    var withString := Find(models, (m: Model) => m.key != "");
    var inDb := if setup.excludeNoDbData then Find(withString, (m: Model) => m.hasDbKey) else withString;
    FindMembers(models, (m: Model) => m.key != "");
    FindMembers(withString, (m: Model) => m.hasDbKey);
    FindMembers(inDb, (m: Model) => !m.excluded);
  }

  lemma ExactIsMember(a: Model, models: Models)
    ensures var exact := ExactMatch(a, models);
            exact.Some? ==> exact.value in models && exact.value.key != "" && MatchesString(exact.value, a.key)
  {
    FindMembers(models, (m: Model) => MatchesString(m, a.key));
    var found := Find(models, (m: Model) => MatchesString(m, a.key));
    assert found != [] ==> found[0] in found;
  }

  /** Under every setup, algorithm and strategy an aircraft gets its manually set model, a model of
      the set with a string, or the default model. */
  lemma MatchComesFromSet(a: Model, models: Models, default_: Model, m: Matching)
    ensures var r := ClosestMatch(a, models, default_, m);
            if a.manuallySet && a.key != "" then r == a else r == default_ || (r in models && r.key != "")
  {
    ExactIsMember(a, models);
    var usable := Usable(models, m.setup);
    UsableMembers(models, m.setup);
    CandidatesAreUsable(a, usable, m);
    CombinedTypeDefaultIff(a, usable, default_);
    var candidates := Candidates(a, usable, m);
    if candidates != [] {
      var _ := PickIsCandidate(candidates, m);
    }
  }

  /** Stepwise reduction never falls back to the default model while the set has a usable one. */
  lemma StepwiseMatchIsReal(a: Model, models: Models, default_: Model, m: Matching)
    requires m.algorithm == StepwiseReduction && !(a.manuallySet && a.key != "") && Usable(models, m.setup) != []
    ensures var r := ClosestMatch(a, models, default_, m); r in models && r.key != ""
  {
    ExactIsMember(a, models);
    var usable := Usable(models, m.setup);
    UsableMembers(models, m.setup);
    CandidatesAreUsable(a, usable, m);
    var _ := PickIsCandidate(Candidates(a, usable, m), m);
    assert usable[0] in usable;
  }

  /** After any run of disable calls no aircraft gets a disabled model, except as the model set by
      hand or as the default. */
  lemma DisabledIsNotMatched(models: Models, actions: seq<Action>, a: Model, default_: Model, m: Matching)
    requires forall action | action in actions :: action.Disable?
    ensures var s := Run(State(models, []), actions);
            var r := ClosestMatch(a, s.active, default_, m);
            r.key in Keys(s.disabled) ==> r == default_ || (a.manuallySet && r == a)
  {
    var s := Run(State(models, []), actions);
    DisablingConservesIff(models, actions);
    MatchComesFromSet(a, s.active, default_, m);
    var r := ClosestMatch(a, s.active, default_, m);
    assert r in s.active && r.key != "" ==> r.key in Keys(s.active);
  }

  // ---------------------------------------------------------------------------
  // Which model it is
  // ---------------------------------------------------------------------------

  lemma {:induction false} FirstFound(models: Models, p: Model -> bool, i: nat)
    requires i < |models| && p(models[i]) && forall j | 0 <= j < i :: !p(models[j])
    ensures Find(models, p) != [] && Find(models, p)[0] == models[i]
  {
    if i > 0 {
      FirstFound(models[1..], p, i - 1);
    }
  }

  predicate FitsByDefault(a: Model, m: Model) {
    MatchesCombinedType(m.icao, a.icao.combinedType) && IsColorLivery(m.livery)
  }

  /** The default by combined type is the first such model. */
  lemma CombinedTypeDefaultIsFirst(a: Model, models: Models, default_: Model, i: nat)
    requires i < |models| && FitsByDefault(a, models[i]) && forall j | 0 <= j < i :: !FitsByDefault(a, models[j])
    ensures CombinedTypeDefault(a, models, default_) == models[i]
  {
    FindTwice(models, (m: Model) => MatchesCombinedType(m.icao, a.icao.combinedType),
              (m: Model) => IsColorLivery(m.livery), (m: Model) => FitsByDefault(a, m));
    FirstFound(models, (m: Model) => FitsByDefault(a, m), i);
  }

  predicate ByHand(a: Model) {
    a.manuallySet && a.key != ""
  }

  /** The string decides: the aircraft gets the first model that has its string as string or alias,
      if that model has a string of its own. */
  lemma StringDecides(a: Model, models: Models, default_: Model, m: Matching, i: nat)
    requires m.setup.byModelString && !ByHand(a) && a.key != ""
    requires i < |models| && (models[i].key == a.key || models[i].alias == a.key)
    requires forall j | 0 <= j < i :: models[j].key != a.key && models[j].alias != a.key
    ensures models[i].key != "" ==> ClosestMatch(a, models, default_, m) == models[i]
    ensures models[i].key == "" ==>
              ClosestMatch(a, models, default_, m) == ClosestMatch(a, models, default_, WithoutString(m))
  {
    FirstFound(models, (x: Model) => MatchesString(x, a.key), i);
    SearchIgnoresFlag(a, models, default_, m);
  }

  function WithoutString(m: Matching): Matching {
    m.(setup := m.setup.(byModelString := false))
  }

  /** Without a model of the string the flag has no influence. */
  lemma NoStringNoMatch(a: Model, models: Models, default_: Model, m: Matching)
    requires a.key == "" || forall x | x in models :: x.key != a.key && x.alias != a.key
    ensures ClosestMatch(a, models, default_, m) == ClosestMatch(a, models, default_, WithoutString(m))
  {
    ExactIsMember(a, models);
    SearchIgnoresFlag(a, models, default_, m);
  }

  lemma CandidatesIgnoreFlag(a: Model, models: Models, m: Matching)
    ensures Usable(models, m.setup) == Usable(models, WithoutString(m).setup)
    ensures Candidates(a, models, m) == Candidates(a, models, WithoutString(m))
  {
    SameReduction(a, a, models, m.setup, WithoutString(m).setup, m.matcher, m.logSteps);
  }

  lemma SearchIgnoresFlag(a: Model, models: Models, default_: Model, m: Matching)
    ensures Searched(a, models, default_, m) == Searched(a, models, default_, WithoutString(m))
  {
    var usable := Usable(models, m.setup);
    CandidatesIgnoreFlag(a, models, m);
    CandidatesIgnoreFlag(a, usable, m);
    var candidates := Candidates(a, usable, m);
    if candidates != [] {
      assert Pick(candidates, m) == Pick(candidates, WithoutString(m));
    }
  }

  /** Without the flag the string of the aircraft has no influence, unless it was set by hand. */
  lemma StringIsIgnored(a: Model, models: Models, default_: Model, m: Matching, key: string)
    requires !m.setup.byModelString && !a.manuallySet
    ensures ClosestMatch(a.(key := key), models, default_, m) == ClosestMatch(a, models, default_, m)
  {
    SearchIgnoresString(a, models, default_, m, key);
  }

  lemma SearchIgnoresString(a: Model, models: Models, default_: Model, m: Matching, key: string)
    ensures Searched(a.(key := key), models, default_, m) == Searched(a, models, default_, m)
  {
    SameReduction(a, a.(key := key), Usable(models, m.setup), m.setup, m.setup, m.matcher, m.logSteps);
  }

  /** The same aircraft and setup but for model string and string flag. */
  predicate Alike(a: Model, b: Model, s: Setup, t: Setup) {
    b == a.(key := b.key) && t == s.(byModelString := t.byModelString)
  }

  lemma SameAirline(a: Model, b: Model, models: Models, s: Setup, t: Setup)
    requires Alike(a, b, s, t)
    ensures ByAirline(a, models, s) == ByAirline(b, models, t)
  {
  }

  lemma SameFamily(a: Model, b: Model, models: Models, s: Setup, t: Setup)
    requires Alike(a, b, s, t)
    ensures ByFamily(a, true, models) == ByFamily(b, true, models)
    ensures ByAircraftOrFamily(a, models, s) == ByAircraftOrFamily(b, models, t)
  {
  }

  lemma SameIcao(a: Model, b: Model, models: Models, s: Setup, t: Setup, before: bool)
    requires Alike(a, b, s, t)
    ensures ByIcaoData(a, models, s, before) == ByIcaoData(b, models, t, before)
  {
    var airline, aircraft := ByAirline(a, models, s).models, ByAircraftOrFamily(a, models, s).models;
    SameAirline(a, b, models, s, t);
    SameFamily(a, b, models, s, t);
    SameFamily(a, b, airline, s, t);
    SameAirline(a, b, aircraft, s, t);
    SameAirline(a, b, ByFamily(a, true, models).models, s, t);
  }

  lemma SameBelowIcao(a: Model, b: Model, byIcao: Reduction, models: Models, s: Setup, t: Setup,
                      matcher: CategoryMatcher)
    requires Alike(a, b, s, t)
    ensures BelowIcao(a, byIcao, models, s, matcher) == BelowIcao(b, byIcao, models, t, matcher)
  {
    SameRefined(a, b, byIcao.models, models, s, t, matcher, byIcao.reduced);
    SameType(a, b, Refined(a, byIcao.models, models, s, matcher, byIcao.reduced).models, s, t);
  }

  lemma SameRefined(a: Model, b: Model, matched: Models, models: Models, s: Setup, t: Setup, matcher: CategoryMatcher,
                    before: bool)
    requires Alike(a, b, s, t)
    ensures Refined(a, matched, models, s, matcher, before) == Refined(b, matched, models, t, matcher, before)
  {
    SameCategories(a, b, matched, models, s, t, matcher);
    forall list: Models ensures ByMilitaryFlag(a, list) == ByMilitaryFlag(b, list) {}
  }

  lemma SameCategories(a: Model, b: Model, matched: Models, models: Models, s: Setup, t: Setup,
                       matcher: CategoryMatcher)
    requires Alike(a, b, s, t)
    ensures ByCategories(matcher, matched, models, s, a) == ByCategories(matcher, matched, models, t, b)
  {
  }

  lemma SameType(a: Model, b: Model, models: Models, s: Setup, t: Setup)
    requires Alike(a, b, s, t)
    ensures ByCombinedType(a, models, s) == ByCombinedType(b, models, t)
  {
    SameAirline(a, b, FindByCombinedType(models, a.icao.combinedType), s, t);
  }

  lemma SameReduction(a: Model, b: Model, models: Models, s: Setup, t: Setup, matcher: CategoryMatcher, logSteps: bool)
    requires Alike(a, b, s, t)
    ensures StepwiseReduce(a, models, s, matcher, logSteps) == StepwiseReduce(b, models, t, matcher, logSteps)
  {
    ByLiveryKeeps(a, models);
    ByFamilyKeeps(a, true, models);
    SameFamily(a, b, models, s, t);
    SameIcao(a, b, models, s, t, false);
    SameBelowIcao(a, b, if s.byIcaoData then ByIcaoData(a, models, s, false) else Unreduced(models), models, s, t,
                  matcher);
    assert Steps(a, models, models, s, matcher) == Steps(b, models, models, t, matcher);
  }

  /** No model decides by its string. */
  predicate NoStringDecides(a: Model, models: Models, m: Matching) {
    m.setup.byModelString ==> a.key == "" || forall x | x in models :: x.key != a.key && x.alias != a.key
  }

  /** What the search works on: all usable models, or what stepwise reduction leaves of them. */
  function Pool(a: Model, models: Models, m: Matching): Models {
    var usable := Usable(models, m.setup);
    if m.algorithm == ScoreBased then usable else StepwiseReduce(a, usable, m.setup, m.matcher, m.logSteps)
  }

  /** Where no string decides: the match is one of the usable models, after stepwise reduction if the
      algorithm has it, and one of best score if the algorithm scores; with no usable model, or no
      positive score where zeros are ignored, it is the default by combined type. */
  lemma MatchIsBest(a: Model, models: Models, default_: Model, m: Matching)
    requires !ByHand(a) && models != [] && NoStringDecides(a, models, m)
    ensures var r, pool := ClosestMatch(a, models, default_, m), Pool(a, models, m);
            var scores := m.algorithm != StepwiseReduction;
            if pool == [] || (scores && m.ignoreZeros && forall x | x in pool :: m.score(x) < 1)
            then r == CombinedTypeDefault(a, Usable(models, m.setup), default_)
            else
              && r in pool && (scores ==> forall x | x in pool :: m.score(x) <= m.score(r))
              && (!scores && m.strategy == PickFirst ==> r == pool[0])
  {
    var usable := Usable(models, m.setup);
    ExactIsMember(a, models);
    UsableMembers(models, m.setup);
    CandidatesAreUsable(a, usable, m);
    CombinedTypeDefaultIff(a, usable, default_);
    ByScoreKeepsBest(Pool(a, models, m), m.score, m.ignoreZeros);
    var candidates := Candidates(a, usable, m);
    if candidates != [] {
      var _ := PickIsCandidate(candidates, m);
    }
  }

  /** Stepwise reduction gives the aircraft a usable model that no other usable model beats. */
  lemma MatchIsUnbeaten(a: Model, models: Models, default_: Model, m: Matching, x: Model)
    requires !ByHand(a) && NoStringDecides(a, models, m) && m.algorithm != ScoreBased && Clean(models)
    requires m.algorithm == StepwisePlusScore ==> !m.ignoreZeros
    requires x in Usable(models, m.setup)
    ensures var usable, r := Usable(models, m.setup), ClosestMatch(a, models, default_, m);
            && r in usable
            && !Beats(Ranks(a, usable, m.setup, m.matcher, m.logSteps, x),
                      Ranks(a, usable, m.setup, m.matcher, m.logSteps, r))
  {
    var usable := Usable(models, m.setup);
    UsableIsClean(models, m.setup);
    UsableMembers(models, m.setup);
    NeverLosesEverything(a, usable, m.setup, m.matcher, m.logSteps);
    MatchIsBest(a, models, default_, m);
    CandidatesAreTheBest(a, usable, m.setup, m.matcher, m.logSteps, ClosestMatch(a, models, default_, m));
  }

  lemma UsableIsClean(models: Models, setup: Setup)
    requires Clean(models)
    ensures Clean(Usable(models, setup))
  {
    var withString := Find(models, (m: Model) => m.key != "");
    var inDb := if setup.excludeNoDbData then Find(withString, (m: Model) => m.hasDbKey) else withString;
    FindClean(models, (m: Model) => m.key != "");
    FindClean(withString, (m: Model) => m.hasDbKey);
    FindClean(inDb, (m: Model) => !m.excluded);
  }

  lemma {:induction false} ReverseAt(models: Models, i: nat)
    requires i < |models|
    ensures |Reverse(models)| == |models| && Reverse(models)[i] == models[|models| - 1 - i]
  {
    if |models| > 1 {
      ReverseAt(models[1..], if i < |models| - 1 then i else 0);
    }
  }

  lemma {:induction false} LastFound(models: Models, p: Model -> bool) returns (i: nat)
    requires Find(models, p) != []
    ensures i < |models| && p(models[i]) && Find(models, p)[|Find(models, p)| - 1] == models[i]
    ensures forall j | i < j < |models| :: !p(models[j])
  {
    if Find(models[1..], p) == [] {
      i := 0;
      FindMembers(models[1..], p);
      assert forall j | 0 < j < |models| :: models[j] == models[1..][j - 1] && models[1..][j - 1] in models[1..];
    } else {
      var k := LastFound(models[1..], p);
      i := k + 1;
      assert forall j | i < j < |models| :: models[j] == models[1..][j - 1];
    }
  }

  lemma LastWithScore(models: Models, score: Model -> int, ignoreZeros: bool, value: int) returns (i: nat)
    requires var scored := if ignoreZeros then Find(models, (x: Model) => score(x) >= 1) else models;
             Find(scored, (x: Model) => score(x) == value) != []
    ensures var scored := if ignoreZeros then Find(models, (x: Model) => score(x) >= 1) else models;
            i < |models| && OfScore(scored, score, value) != [] && OfScore(scored, score, value)[0] == models[i]
    ensures forall j | i < j < |models| :: score(models[j]) != value || (ignoreZeros && score(models[j]) < 1)
  {
    var positive, top := (x: Model) => score(x) >= 1, (x: Model) => score(x) == value;
    var both := (x: Model) => score(x) == value && (ignoreZeros ==> score(x) >= 1);
    var scored := if ignoreZeros then Find(models, positive) else models;
    if ignoreZeros {
      FindTwice(models, positive, top, both);
    } else {
      SameFind(models, top, both);
    }
    ReverseAt(Find(scored, top), 0);
    i := LastFound(models, both);
  }

  /** Of several models with the best score the last comes first. */
  lemma LastBestIsFirst(models: Models, score: Model -> int, ignoreZeros: bool) returns (i: nat)
    requires ByScore(models, score, ignoreZeros) != []
    ensures i < |models| && ByScore(models, score, ignoreZeros)[0] == models[i]
    ensures forall j | 0 <= j < |models| ::
              score(models[j]) <= score(models[i]) && (j > i ==> score(models[j]) < score(models[i]))
  {
    var scored := if ignoreZeros then Find(models, (x: Model) => score(x) >= 1) else models;
    ByScoreKeepsBest(models, score, ignoreZeros);
    ScoredAtLeastOne(models, score, ignoreZeros);
    i := LastWithScore(models, score, ignoreZeros, MaxScore(scored, score));
    assert models[i] in ByScore(models, score, ignoreZeros);
    assert forall j | 0 <= j < |models| :: models[j] in models;
  }

  lemma ScoredAtLeastOne(models: Models, score: Model -> int, ignoreZeros: bool)
    requires ByScore(models, score, ignoreZeros) != []
    ensures var scored := if ignoreZeros then Find(models, (x: Model) => score(x) >= 1) else models;
            && scored != [] && Find(scored, (x: Model) => score(x) == MaxScore(scored, score)) != []
            && (ignoreZeros ==> MaxScore(scored, score) >= 1)
            && forall x | x in ByScore(models, score, ignoreZeros) :: score(x) == MaxScore(scored, score)
  {
    var scored := if ignoreZeros then Find(models, (x: Model) => score(x) >= 1) else models;
    FindMembers(models, (x: Model) => score(x) >= 1);
    MaxScoreIsReached(scored, score);
    OfScoreMembers(scored, score, MaxScore(scored, score));
  }

  lemma {:induction false} SameFind(models: Models, p: Model -> bool, q: Model -> bool)
    requires forall m :: p(m) == q(m)
    ensures Find(models, p) == Find(models, q)
  {
    if models != [] {
      SameFind(models[1..], p, q);
    }
  }
}
