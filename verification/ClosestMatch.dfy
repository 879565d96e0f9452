/** Finding the closest model for a remote aircraft, with the matching script switched off. */
module ClosestMatch {
  import opened Common
  import opened ModelList
  import opened ModelReduction

  datatype Algorithm = ScoreBased | StepwiseReduction | StepwiseReductionPlusScore

  datatype Strategy = PickFirst | PickRandom | PickByOrder

  datatype Setup = Setup(mode: Mode, algorithm: Algorithm, strategy: Strategy)

  /** The score of a model for the remote aircraft. */
  type Score = Model -> int

  function FirstWithString(models: Models, s: string): Option<Model> {
    if models == [] then None
    else if FirstWithString(models[..|models| - 1], s).Some? then FirstWithString(models[..|models| - 1], s)
    else
      var m := models[|models| - 1];
      if Fold(m.modelString) == Fold(s) || Fold(m.alias) == Fold(s) then Some(m) else None
  }

  /** A match by alias only counts if the model has a string of its own. */
  function ExactMatch(remote: Model, models: Models, mode: Mode): Option<Model> {
    if remote.modelString == "" || !mode.byModelString then None
    else
      match FirstWithString(models, remote.modelString)
      case None => None
      case Some(m) => if m.modelString == "" then None else Some(m)
  }

  /** The models that take part in the matching. */
  function WorkingSet(models: Models, mode: Mode): Models {
    var named := FindBy(models, HasModelString);
    var known := if mode.excludeNoDbData then FindBy(named, HasDbKey) else named;
    if mode.excludeNoExcluded then FindBy(known, NotExcluded) else known
  }

  predicate Scores(m: Model, score: Score, ignoreZeros: bool) {
    ignoreZeros ==> score(m) >= 1
  }

  /** The models of highest score; a map with several values per key lists the latest one first. */
  function Best(models: Models, score: Score, ignoreZeros: bool): Models {
    if models == [] then []
    else
      var before, m := Best(models[..|models| - 1], score, ignoreZeros), models[|models| - 1];
      if !Scores(m, score, ignoreZeros) then before
      else if before == [] || score(m) > score(before[0]) then [m]
      else if score(m) == score(before[0]) then [m] + before
      else before
  }

  function Candidates(remote: Model, working: Models, setup: Setup, cats: Categories, score: Score,
                      logged: bool): Models {
    var reduced := StepwiseReduce(remote, working, setup.mode, cats, logged);
    match setup.algorithm
    case ScoreBased => Best(working, score, setup.mode.scoreIgnoreZeros)
    case StepwiseReduction => reduced
    case StepwiseReductionPlusScore => Best(reduced, score, setup.mode.scoreIgnoreZeros)
  }

  /** The second search looks into the empty result of the first one. */
  function CombinedTypeDefault(working: Models, remote: Model, defaultModel: Model): Model {
    if remote.combinedType == "" || working == [] then defaultModel
    else
      var colored := FindBy(FindBy(working, CombinedType(remote.combinedType)), ColorLivery);
      var found := if colored != [] then colored else FindBy(colored, CombinedType(remote.combinedType));
      if found == [] then defaultModel else found[0]
  }

  predicate NeedsOrder(models: Models) {
    exists m :: m in models && m.order < 0
  }

  function MinOrder(models: Models): Model
    requires models != []
  {
    if |models| == 1 then models[0]
    else
      var min, m := MinOrder(models[..|models| - 1]), models[|models| - 1];
      if m.order >= 0 && m.order < min.order then m else min
  }

  function Pick(candidates: Models, strategy: Strategy, random: nat): Model
    requires candidates != []
  {
    match strategy
    case PickFirst => candidates[0]
    case PickRandom => candidates[random % |candidates|]
    case PickByOrder => if NeedsOrder(candidates) then candidates[0] else MinOrder(candidates)
  }

  predicate IsManual(remote: Model) {
    remote.modelType == ManuallySet && remote.modelString != ""
  }

  /** The model before callsign and type are copied over. */
  function Chosen(remote: Model, models: Models, setup: Setup, cats: Categories, defaultModel: Model, score: Score,
                  random: nat, logged: bool): Model
  {
    if IsManual(remote) then remote
    else if models == [] then defaultModel
    else if ExactMatch(remote, models, setup.mode).Some? then ExactMatch(remote, models, setup.mode).value
    else
      var working := WorkingSet(models, setup.mode);
      var candidates := Candidates(remote, working, setup, cats, score, logged);
      if candidates == [] then CombinedTypeDefault(working, remote, defaultModel)
          else Pick(candidates, setup.strategy, random)
  }

  function Stamped(m: Model, remote: Model): Model {
    m.(callsign := remote.callsign, modelType := ModelMatching)
  }

  function GetClosestMatch(remote: Model, models: Models, setup: Setup, cats: Categories, defaultModel: Model,
                           score: Score, random: nat, logged: bool): Model
  {
    var matched := Stamped(Chosen(remote, models, setup, cats, defaultModel, score, random, logged), remote);
    if matched.modelString != "" then matched
    else if defaultModel.modelString != "" then defaultModel.(callsign := remote.callsign)
    else matched
  }

  lemma {:induction false} FirstWithStringIsListed(models: Models, s: string)
    ensures var r := FirstWithString(models, s); r.Some? ==>
            r.value in models && Fold(s) in {Fold(r.value.modelString), Fold(r.value.alias)}
    ensures FirstWithString(models, s).None? ==> forall m :: m in models ==>
            Fold(m.modelString) != Fold(s) && Fold(m.alias) != Fold(s)
  {
    if models != [] {
      FirstWithStringIsListed(models[..|models| - 1], s);
      assert models == models[..|models| - 1] + [models[|models| - 1]];
    }
  }

  lemma {:induction false} BestScoresAgree(models: Models, score: Score, ignoreZeros: bool)
    ensures var best := Best(models, score, ignoreZeros);
            && (forall m :: m in best ==> m in models && Scores(m, score, ignoreZeros) && score(m) == score(best[0]))
            && (forall m :: m in models && Scores(m, score, ignoreZeros) ==> best != [] && score(m) <= score(best[0]))
            && (forall m :: m in models && Scores(m, score, ignoreZeros) && score(m) == score(best[0]) ==> m in best)
  {
    if models != [] {
      var front, last := models[..|models| - 1], models[|models| - 1];
      BestScoresAgree(front, score, ignoreZeros);
      var before, best := Best(front, score, ignoreZeros), Best(models, score, ignoreZeros);
      assert models == front + [last];
      if before != [] { assert before[0] in before; }
      if best != [] { assert best[0] in best; }
    }
  }

  lemma {:induction false} BestHasNoCopies(models: Models, score: Score, ignoreZeros: bool)
    ensures multiset(Best(models, score, ignoreZeros)) <= multiset(models)
  {
    if models != [] {
      BestHasNoCopies(models[..|models| - 1], score, ignoreZeros);
      assert models == models[..|models| - 1] + [models[|models| - 1]];
    }
  }

  /** Exactly the models of highest score among those that count; there is none only if no model counts. */
  lemma BestScoresHighest(models: Models, score: Score, ignoreZeros: bool, m: Model)
    ensures m in Best(models, score, ignoreZeros) <==>
      && m in models && Scores(m, score, ignoreZeros)
      && forall other :: other in models && Scores(other, score, ignoreZeros) ==> score(other) <= score(m)
    ensures m in models && Scores(m, score, ignoreZeros) ==> Best(models, score, ignoreZeros) != []
  {
    var best := Best(models, score, ignoreZeros);
    BestScoresAgree(models, score, ignoreZeros);
    if best != [] { assert best[0] in best; }
  }

  lemma {:induction false} MinOrderIsMinimal(models: Models)
    requires models != [] && !NeedsOrder(models)
    ensures MinOrder(models) in models && forall m :: m in models ==> MinOrder(models).order <= m.order
  {
    if |models| > 1 {
      var front, last := models[..|models| - 1], models[|models| - 1];
      assert models == front + [last];
      MinOrderIsMinimal(front);
    } else {
      assert models == [models[0]];
    }
  }

  lemma PickIsCandidate(candidates: Models, strategy: Strategy, random: nat)
    requires candidates != []
    ensures Pick(candidates, strategy, random) in candidates
  {
    if strategy.PickByOrder? && !NeedsOrder(candidates) { MinOrderIsMinimal(candidates); }
  }

  /** The working set are the models with a string that are not excluded by the setup. */
  lemma WorkingSetIsFiltered(models: Models, mode: Mode)
    ensures forall m :: m in WorkingSet(models, mode) <==>
      m in models && m.modelString != "" && (mode.excludeNoDbData ==> m.hasDbKey)
          && (mode.excludeNoExcluded ==> !m.excluded)
    ensures multiset(WorkingSet(models, mode)) <= multiset(models)
  {
    var named := FindBy(models, HasModelString);
    var known := if mode.excludeNoDbData then FindBy(named, HasDbKey) else named;
    FindByFinds(models, HasModelString);
    FindByFinds(named, HasDbKey);
    FindByFinds(known, NotExcluded);
  }

  /** Candidates are models of the working set. With stepwise reduction there are some unless the working set is empty;
      with scores there are some unless zero scores are ignored and no considered model scores. */
  lemma CandidatesAreWorking(remote: Model, working: Models, setup: Setup, cats: Categories, score: Score, logged: bool)
    requires AllHaveStrings(working)
    ensures var candidates := Candidates(remote, working, setup, cats, score, logged);
            && (forall m :: m in candidates ==> m in working)
            && multiset(candidates) <= multiset(working)
            && (setup.algorithm == StepwiseReduction || !setup.mode.scoreIgnoreZeros ==>
                (candidates == [] <==> working == []))
  {
    var reduced := StepwiseReduce(remote, working, setup.mode, cats, logged);
    StepwiseReductionIsSafe(remote, working, setup.mode, cats, logged);
    var scored := if setup.algorithm == ScoreBased then working else reduced;
    if setup.algorithm != StepwiseReduction {
      BestScoresAgree(scored, score, setup.mode.scoreIgnoreZeros);
      BestHasNoCopies(scored, score, setup.mode.scoreIgnoreZeros);
      if scored != [] { assert Scores(scored[0], score, false) && scored[0] in scored; }
    }
    if working != [] { assert working[0] in working; }
  }

  predicate IsColoredOfType(m: Model, remote: Model) {
    m.colorLivery && MatchesCombinedType(m.combinedType, remote.combinedType)
  }

  /** The fallback only finds models with a color livery: its second, wider search finds nothing. */
  lemma CombinedTypeDefaultNeedsColor(working: Models, remote: Model, defaultModel: Model)
    ensures var m := CombinedTypeDefault(working, remote, defaultModel);
            if exists known :: known in working && IsColoredOfType(known, remote)
                then m in working && IsColoredOfType(m, remote)
            else m == defaultModel
  {
    var typed := FindBy(working, CombinedType(remote.combinedType));
    var colored := FindBy(typed, ColorLivery);
    forall m ensures m in colored <==> m in working && IsColoredOfType(m, remote) {
      FindByFinds(working, CombinedType(remote.combinedType));
      FindByFinds(typed, ColorLivery);
      assert Meets(m, CombinedType(remote.combinedType)) && Meets(m, ColorLivery) <==> IsColoredOfType(m, remote);
    }
    if colored != [] {
      assert colored[0] in colored;
    } else {
      assert FindBy(colored, CombinedType(remote.combinedType)) == [];
    }
  }

  /** Equal but for callsign and type. */
  predicate SameModel(a: Model, b: Model) {
    a.(callsign := b.callsign, modelType := b.modelType) == b
  }

  lemma ChosenModel(remote: Model, models: Models, setup: Setup, cats: Categories, defaultModel: Model, score: Score,
                    random: nat, logged: bool)
    ensures var m := Chosen(remote, models, setup, cats, defaultModel, score, random, logged);
            || (IsManual(remote) && m == remote)
            || (!IsManual(remote) && m in models && m.modelString != "")
            || (!IsManual(remote) && m == defaultModel)
    ensures !IsManual(remote) && ExactMatch(remote, models, setup.mode).None? ==>
              Chosen(remote, models, setup, cats, defaultModel, score, random, logged) in WorkingSet(models, setup.mode)
              || Chosen(remote, models, setup, cats, defaultModel, score, random, logged) == defaultModel
  {
    FirstWithStringIsListed(models, remote.modelString);
    var working := WorkingSet(models, setup.mode);
    WorkingSetIsFiltered(models, setup.mode);
    CandidatesAreWorking(remote, working, setup, cats, score, logged);
    var candidates := Candidates(remote, working, setup, cats, score, logged);
    if candidates != [] { PickIsCandidate(candidates, setup.strategy, random); }
    CombinedTypeDefaultNeedsColor(working, remote, defaultModel);
  }

  /** Whatever the setup: the result is, up to callsign and type, the manually set model, a model of the set with a
      string, or the default model, and it carries the callsign of the remote aircraft. If the result has no model
      string, nor has the default model: the last resort of the code never changes anything. */
  lemma ClosestMatchComesFromTheSet(remote: Model, models: Models, setup: Setup, cats: Categories, defaultModel: Model,
                                    score: Score, random: nat, logged: bool)
    ensures var m := GetClosestMatch(remote, models, setup, cats, defaultModel, score, random, logged);
            && m.callsign == remote.callsign
            && m.modelType == ModelMatching
            && (|| (IsManual(remote) && SameModel(remote, m))
                || (!IsManual(remote)
                    && exists known :: known in models && known.modelString != "" && SameModel(known, m))
                || (!IsManual(remote) && SameModel(defaultModel, m)))
            && m == Stamped(Chosen(remote, models, setup, cats, defaultModel, score, random, logged), remote)
            && (m.modelString == "" ==> defaultModel.modelString == "")
  {
    ChosenModel(remote, models, setup, cats, defaultModel, score, random, logged);
    var chosen := Chosen(remote, models, setup, cats, defaultModel, score, random, logged);
    assert SameModel(chosen, Stamped(chosen, remote));
  }

  /** With stepwise reduction: a model of the set if one survives the exclusions or matches by string, and otherwise the
      default model. */
  lemma DefaultOnlyIfNothingIsLeft(remote: Model, models: Models, setup: Setup, cats: Categories, defaultModel: Model,
                                   score: Score, random: nat, logged: bool)
    requires setup.algorithm == StepwiseReduction && !IsManual(remote)
    ensures var m := Chosen(remote, models, setup, cats, defaultModel, score, random, logged);
            if ExactMatch(remote, models, setup.mode).None? && WorkingSet(models, setup.mode) == []
                then m == defaultModel
            else m in models && m.modelString != ""
  {
    ChosenModel(remote, models, setup, cats, defaultModel, score, random, logged);
    FirstWithStringIsListed(models, remote.modelString);
    var working := WorkingSet(models, setup.mode);
    WorkingSetIsFiltered(models, setup.mode);
    CandidatesAreWorking(remote, working, setup, cats, score, logged);
    var candidates := Candidates(remote, working, setup, cats, score, logged);
    if candidates != [] { PickIsCandidate(candidates, setup.strategy, random); }
    if models == [] { assert working == []; }
  }

  /** The models that are scored, or taken as they are. */
  function Considered(remote: Model, working: Models, setup: Setup, cats: Categories, logged: bool): Models {
    if setup.algorithm.ScoreBased? then working else StepwiseReduce(remote, working, setup.mode, cats, logged)
  }

  /** Some considered model counts: with scores, one that is not ignored. */
  ghost predicate HasCandidates(remote: Model, working: Models, setup: Setup, cats: Categories, score: Score,
                                logged: bool)
  {
    exists m :: m in Considered(remote, working, setup, cats, logged)
                && (setup.algorithm.StepwiseReduction? || Scores(m, score, setup.mode.scoreIgnoreZeros))
  }

  lemma CandidatesIff(remote: Model, working: Models, setup: Setup, cats: Categories, score: Score, logged: bool)
    ensures Candidates(remote, working, setup, cats, score, logged) != []
       <==> HasCandidates(remote, working, setup, cats, score, logged)
  {
    var considered := Considered(remote, working, setup, cats, logged);
    var candidates := Candidates(remote, working, setup, cats, score, logged);
    if !setup.algorithm.StepwiseReduction? { BestScoresAgree(considered, score, setup.mode.scoreIgnoreZeros); }
    if candidates != [] { assert candidates[0] in candidates; }
  }

  /** Whatever the algorithm: a model of the set if one matches by string, or is a candidate, or has a color livery and
      the combined type, and otherwise the default model. */
  lemma DefaultIffNoCandidate(remote: Model, models: Models, setup: Setup, cats: Categories, defaultModel: Model,
                              score: Score, random: nat, logged: bool)
    requires !IsManual(remote)
    ensures var m := Chosen(remote, models, setup, cats, defaultModel, score, random, logged);
            var working := WorkingSet(models, setup.mode);
            if || ExactMatch(remote, models, setup.mode).Some?
               || HasCandidates(remote, working, setup, cats, score, logged)
               || (exists known :: known in working && IsColoredOfType(known, remote))
            then m in models && m.modelString != "" else m == defaultModel
  {
    var working := WorkingSet(models, setup.mode);
    FirstWithStringIsListed(models, remote.modelString);
    WorkingSetIsFiltered(models, setup.mode);
    CandidatesAreWorking(remote, working, setup, cats, score, logged);
    CandidatesIff(remote, working, setup, cats, score, logged);
    CombinedTypeDefaultNeedsColor(working, remote, defaultModel);
    var candidates := Candidates(remote, working, setup, cats, score, logged);
    if candidates != [] {
      assert candidates[0] in candidates;
      PickIsCandidate(candidates, setup.strategy, random);
    }
  }
}
