/** Which model of the set is chosen, told by the reduction, the scores and the strategy. */
module ChoiceLaws {
  import opened Common
  import opened ModelList
  import opened ModelReduction
  import opened ClosestMatch
  import R = ReductionSettings

  /** A model that scores among those that count, and none of them higher. */
  ghost predicate IsBest(m: Model, models: Models, score: Score, ignoreZeros: bool) {
    && m in models && (ignoreZeros ==> score(m) >= 1)
    && forall other :: other in models && (ignoreZeros ==> score(other) >= 1) ==> score(other) <= score(m)
  }

  /** The strategy takes `m` from the list. */
  ghost predicate IsPicked(m: Model, list: Models, strategy: Strategy, random: nat) {
    && m in list
    && (strategy.PickFirst? ==> m == list[0])
    && (strategy.PickRandom? ==> m == list[random % |list|])
    && (strategy.PickByOrder? ==>
          if forall other :: other in list ==> other.order >= 0
          then exists i :: IsFirstByOrder(m, list, i)
          else m == list[0])
  }

  /** Model `i` is the first one of the smallest order. */
  ghost predicate IsFirstByOrder(m: Model, list: Models, i: int) {
    && 0 <= i < |list|
    && list[i] == m
    && (forall j :: 0 <= j < |list| ==> m.order <= list[j].order)
    && (forall j :: 0 <= j < i ==> m.order < list[j].order)
  }

  lemma {:induction false} MinOrderIsFirst(list: Models)
    requires list != [] && !NeedsOrder(list)
    ensures exists i :: IsFirstByOrder(MinOrder(list), list, i)
  {
    var n := |list| - 1;
    if n == 0 {
      assert IsFirstByOrder(MinOrder(list), list, 0);
    } else {
      var front := list[..n];
      assert list[n] in list && forall m :: m in front ==> m in list;
      MinOrderIsFirst(front);
      var i :| IsFirstByOrder(MinOrder(front), front, i);
      OneMoreByOrder(MinOrder(front), list, i);
      assert list[n].order >= 0;
      assert IsFirstByOrder(MinOrder(list), list, if list[n].order < MinOrder(front).order then n else i);
    }
  }

  lemma OneMoreByOrder(m: Model, list: Models, i: int)
    requires list != [] && IsFirstByOrder(m, list[..|list| - 1], i)
    ensures var n := |list| - 1;
            if list[n].order < m.order then IsFirstByOrder(list[n], list, n) else IsFirstByOrder(m, list, i)
  {
    var n := |list| - 1;
    assert forall j :: 0 <= j < n ==> list[..n][j] == list[j];
  }

  lemma PickPicks(list: Models, strategy: Strategy, random: nat)
    requires list != []
    ensures IsPicked(Pick(list, strategy, random), list, strategy, random)
  {
    PickIsCandidate(list, strategy, random);
    if !NeedsOrder(list) { MinOrderIsFirst(list); }
  }

  /** Neither set by hand nor found by its string. */
  predicate NeedsMatching(remote: Model, models: Models, mode: Mode) {
    !IsManual(remote) && ExactMatch(remote, models, mode).None?
  }

  /** By stepwise reduction the choice is what the strategy takes from the reduced set. */
  lemma ReducedModelIsChosen(remote: Model, models: Models, setup: Setup, cats: Categories, defaultModel: Model,
                             score: Score, random: nat, logged: bool)
    requires NeedsMatching(remote, models, setup.mode) && WorkingSet(models, setup.mode) != []
    requires setup.algorithm == StepwiseReduction
    ensures IsPicked(Chosen(remote, models, setup, cats, defaultModel, score, random, logged),
                     StepwiseReduce(remote, WorkingSet(models, setup.mode), setup.mode, cats, logged),
                     setup.strategy, random)
  {
    var working := WorkingSet(models, setup.mode);
    WorkingSetIsFiltered(models, setup.mode);
    CandidatesAreWorking(remote, working, setup, cats, score, logged);
    PickPicks(StepwiseReduce(remote, working, setup.mode, cats, logged), setup.strategy, random);
    assert models != [] by { assert working[0] in working; }
  }

  /** By scores it is one of the best among the reduced models, or among all, if any counts. */
  lemma BestModelIsChosen(remote: Model, models: Models, setup: Setup, cats: Categories, defaultModel: Model,
                          score: Score, random: nat, logged: bool, m: Model)
    requires NeedsMatching(remote, models, setup.mode) && setup.algorithm != StepwiseReduction
    requires var working := WorkingSet(models, setup.mode);
             && m in (if setup.algorithm == ScoreBased then working
                      else StepwiseReduce(remote, working, setup.mode, cats, logged))
             && (setup.mode.scoreIgnoreZeros ==> score(m) >= 1)
    ensures var working := WorkingSet(models, setup.mode);
            IsBest(Chosen(remote, models, setup, cats, defaultModel, score, random, logged),
                   if setup.algorithm == ScoreBased then working
                   else StepwiseReduce(remote, working, setup.mode, cats, logged),
                   score, setup.mode.scoreIgnoreZeros)
  {
    var working := WorkingSet(models, setup.mode);
    var considered := if setup.algorithm == ScoreBased then working
                      else StepwiseReduce(remote, working, setup.mode, cats, logged);
    var best := Best(considered, score, setup.mode.scoreIgnoreZeros);
    WorkingSetIsFiltered(models, setup.mode);
    StepwiseReductionIsSafe(remote, working, setup.mode, cats, logged);
    assert m in working && m in models;
    BestScoresHighest(considered, score, setup.mode.scoreIgnoreZeros, m);
    var chosen := Pick(best, setup.strategy, random);
    PickIsCandidate(best, setup.strategy, random);
    BestScoresHighest(considered, score, setup.mode.scoreIgnoreZeros, chosen);
  }

  /** Model `i` is the last one of highest score. */
  ghost predicate IsLastBest(m: Model, models: Models, i: int, score: Score, ignoreZeros: bool) {
    && 0 <= i < |models| && models[i] == m && IsBest(m, models, score, ignoreZeros)
    && forall j :: i < j < |models| ==> (ignoreZeros && score(models[j]) < 1) || score(models[j]) < score(m)
  }

  lemma {:induction false} BestStartsWithTheLast(models: Models, score: Score, ignoreZeros: bool)
    requires Best(models, score, ignoreZeros) != []
    ensures exists i :: IsLastBest(Best(models, score, ignoreZeros)[0], models, i, score, ignoreZeros)
  {
    var n, first := |models| - 1, Best(models, score, ignoreZeros)[0];
    var front := models[..n];
    BestScoresHighest(models, score, ignoreZeros, first);
    assert IsBest(first, models, score, ignoreZeros) by { assert first in Best(models, score, ignoreZeros); }
    if Best(models, score, ignoreZeros) == Best(front, score, ignoreZeros)
        && !IsBest(models[n], models, score, ignoreZeros) {
      BestStartsWithTheLast(front, score, ignoreZeros);
      var i :| IsLastBest(first, front, i, score, ignoreZeros);
      assert IsLastBest(first, models, i, score, ignoreZeros);
    } else {
      assert IsLastBest(models[n], models, n, score, ignoreZeros);
    }
  }

  /** Picking the first candidate takes the last of the best models: the scores are listed backwards. */
  lemma LastBestModelIsChosen(remote: Model, models: Models, setup: Setup, cats: Categories, defaultModel: Model,
                              score: Score, random: nat, logged: bool, m: Model)
    requires NeedsMatching(remote, models, setup.mode) && setup.algorithm == ScoreBased && setup.strategy == PickFirst
    requires m in WorkingSet(models, setup.mode) && (setup.mode.scoreIgnoreZeros ==> score(m) >= 1)
    ensures exists i :: IsLastBest(Chosen(remote, models, setup, cats, defaultModel, score, random, logged),
                                   WorkingSet(models, setup.mode), i, score, setup.mode.scoreIgnoreZeros)
  {
    var working := WorkingSet(models, setup.mode);
    WorkingSetIsFiltered(models, setup.mode);
    BestScoresHighest(working, score, setup.mode.scoreIgnoreZeros, m);
    BestStartsWithTheLast(working, score, setup.mode.scoreIgnoreZeros);
    assert m in models;
    assert Chosen(remote, models, setup, cats, defaultModel, score, random, logged)
        == Best(working, score, setup.mode.scoreIgnoreZeros)[0];
  }

  /** Hence, by stepwise reduction, a model of the very type and airline is chosen if the working set has one. */
  lemma ExactModelIsChosen(remote: Model, models: Models, setup: Setup, cats: Categories, defaultModel: Model,
                           score: Score, random: nat, logged: bool, m: Model)
    requires NeedsMatching(remote, models, setup.mode) && setup.algorithm == StepwiseReduction
    requires setup.mode.byIcaoData && R.WithoutGroup(remote, setup.mode) && !setup.mode.UsesCategories()
    requires IsValidAirline(remote.airline) && remote.designator != ""
    requires var working := WorkingSet(models, setup.mode);
             && m in working && m.designator == remote.designator && m.airline == remote.airline
             && !(setup.mode.byLivery && ByLiveryAndAircraft(remote, working).reduced)
    ensures var chosen := Chosen(remote, models, setup, cats, defaultModel, score, random, logged);
            chosen in models && chosen.designator == remote.designator && chosen.airline == remote.airline
  {
    var working := WorkingSet(models, setup.mode);
    var chosen := Chosen(remote, models, setup, cats, defaultModel, score, random, logged);
    ReducedModelIsChosen(remote, models, setup, cats, defaultModel, score, random, logged);
    assert R.IsExact(m, remote);
    R.ExactMatchesWin(remote, working, setup.mode, cats, logged, chosen);
    WorkingSetIsFiltered(models, setup.mode);
  }

  // ----- the string decides first -----

  /** The model has this string or alias, up to case. */
  predicate IsNamed(m: Model, s: string) {
    SameText(m.modelString, s) || SameText(m.alias, s)
  }

  /** Equal character by character, up to the case of ASCII letters. */
  predicate SameText(a: string, b: string) {
    |a| == |b| && forall i :: 0 <= i < |a| ==> SameLetter(a[i], b[i])
  }

  predicate SameLetter(a: char, b: char) {
    || a == b
    || ('A' <= a <= 'Z' && b as int == a as int + 32)
    || ('A' <= b <= 'Z' && a as int == b as int + 32)
  }

  lemma FoldIsSameText(a: string, b: string)
    ensures Fold(a) == Fold(b) <==> SameText(a, b)
  {
    if |a| == |b| {
      forall i | 0 <= i < |a| ensures Fold(a)[i] == Fold(b)[i] <==> SameLetter(a[i], b[i]) {}
      if SameText(a, b) { assert Fold(a) == Fold(b); }
      if Fold(a) == Fold(b) {
        forall i | 0 <= i < |a| ensures SameLetter(a[i], b[i]) { assert Fold(a)[i] == Fold(b)[i]; }
      }
    } else {
      assert |Fold(a)| != |Fold(b)|;
    }
  }

  lemma {:induction false} FirstNamedIsFound(models: Models, s: string, i: nat)
    requires i < |models| && IsNamed(models[i], s) && forall j :: 0 <= j < i ==> !IsNamed(models[j], s)
    ensures FirstWithString(models, s) == Some(models[i])
  {
    var front, last := models[..|models| - 1], models[|models| - 1];
    FoldIsSameText(last.modelString, s);
    FoldIsSameText(last.alias, s);
    if i < |front| { FirstNamedIsFound(front, s, i); } else { NobodyIsNamed(front, s); }
  }

  lemma {:induction false} NobodyIsNamed(models: Models, s: string)
    requires forall j :: 0 <= j < |models| ==> !IsNamed(models[j], s)
    ensures FirstWithString(models, s) == None
  {
    if models != [] {
      var last := models[|models| - 1];
      FoldIsSameText(last.modelString, s);
      FoldIsSameText(last.alias, s);
      NobodyIsNamed(models[..|models| - 1], s);
    }
  }

  /** With the string match enabled, the first model with the string of the remote aircraft, as its own string or as its
      alias, is chosen whatever the rest of the setup says, if it has a string of its own. */
  lemma NamedModelIsChosen(remote: Model, models: Models, setup: Setup, cats: Categories, defaultModel: Model,
                           score: Score, random: nat, logged: bool, i: nat)
    requires remote.modelType != ManuallySet && remote.modelString != "" && setup.mode.byModelString
    requires i < |models| && IsNamed(models[i], remote.modelString) && models[i].modelString != ""
    requires forall j :: 0 <= j < i ==> !IsNamed(models[j], remote.modelString)
    ensures Chosen(remote, models, setup, cats, defaultModel, score, random, logged) == models[i]
  {
    FirstNamedIsFound(models, remote.modelString, i);
  }

  /** And nothing is found by string if the match is disabled, there is no string, or no model has it. */
  lemma MatchingIsNeededIf(remote: Model, models: Models, mode: Mode)
    requires remote.modelType != ManuallySet || remote.modelString == ""
    requires !mode.byModelString || remote.modelString == ""
          || forall j :: 0 <= j < |models| ==> !IsNamed(models[j], remote.modelString)
    ensures NeedsMatching(remote, models, mode)
  {
    if mode.byModelString && remote.modelString != "" { NobodyIsNamed(models, remote.modelString); }
  }

  /** A model set by hand stays. */
  lemma ManualModelStays(remote: Model, models: Models, setup: Setup, cats: Categories, defaultModel: Model,
                         score: Score, random: nat, logged: bool)
    requires remote.modelType == ManuallySet && remote.modelString != ""
    ensures var m := GetClosestMatch(remote, models, setup, cats, defaultModel, score, random, logged);
            m == remote.(modelType := ModelMatching)
  {
  }
}
