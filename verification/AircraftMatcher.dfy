/** The model set of the matcher: models are disabled for a while and restored later. */
module AircraftMatcher {
  import opened Common
  import opened ModelList

  /** The set used for matching and the models taken out of it. */
  datatype ModelSets = ModelSets(enabled: Models, disabled: Models)

  datatype Operation = Disable(removed: Models, incremental: bool) | Restore

  /** Restoring does not forget which models were disabled. */
  function Restored(s: ModelSets): ModelSets {
    s.(enabled := ReplaceOrAdd(s.enabled, s.disabled))
  }

  function Disabled(s: ModelSets, removed: Models, incremental: bool): ModelSets {
    if incremental then ModelSets(WithoutStringsOf(s.enabled, removed), s.disabled + removed)
    else ModelSets(WithoutStringsOf(Restored(s).enabled, removed), removed)
  }

  function Apply(s: ModelSets, op: Operation): ModelSets {
    match op
    case Disable(removed, incremental) => Disabled(s, removed, incremental)
    case Restore => Restored(s)
  }

  function Run(s: ModelSets, ops: seq<Operation>): ModelSets {
    if ops == [] then s else Apply(Run(s, ops[..|ops| - 1]), ops[|ops| - 1])
  }

  class CAircraftMatcher {
    var modelSet: Models
    var disabledModels: Models
    var simulator: int

    ghost function Value(): ModelSets
      reads this
    {
      ModelSets(modelSet, disabledModels)
    }

    constructor ()
      ensures Value() == ModelSets([], [])
    {
      modelSet, disabledModels, simulator := [], [], -1;
    }

    /** A set of equal size for the same simulator is taken to be the same set; disabled models stay disabled. */
    method SetModelSet(models: Models, newSimulator: int, single: bool, forced: bool) returns (count: nat)
      modifies this
      ensures var cleaned := FindBy(FindBy(models, HasModelString), NotExcluded);
              if !single then count == 0 && unchanged(this)
              else if !forced && old(simulator) == newSimulator && |old(modelSet)| == |cleaned|
                  then count == |cleaned| && unchanged(this)
              else count == |models| && Value() == ModelSets(cleaned, old(disabledModels)) && simulator == newSimulator
    {
      if !single { return 0; }
      var cleaned := FindBy(FindBy(models, HasModelString), NotExcluded);
      if !forced && simulator == newSimulator && |modelSet| == |cleaned| { return |modelSet|; }
      modelSet := cleaned;
      simulator := newSimulator;
      count := |models|;
    }

    method DisableModelsForMatching(removed: Models, incremental: bool)
      modifies this`modelSet, this`disabledModels
      ensures Value() == Disabled(old(Value()), removed, incremental)
    {
      if incremental {
        modelSet := WithoutStringsOf(modelSet, removed);
        disabledModels := disabledModels + removed;
      } else {
        RestoreDisabledModels();
        disabledModels := removed;
        modelSet := WithoutStringsOf(modelSet, removed);
      }
    }

    method RestoreDisabledModels()
      modifies this`modelSet
      ensures Value() == Restored(old(Value()))
    {
      modelSet := ReplaceOrAdd(modelSet, disabledModels);
    }

    /** A model that could not be added to the simulator is disabled, whether or not it is part of the set. */
    method AddingRemoteModelFailed(remote: Model, removeFromSet: bool)
      modifies this`modelSet, this`disabledModels
      ensures Value() == if removeFromSet && remote.callsign != "" && remote.modelString != ""
                         then Disabled(old(Value()), [remote], true) else old(Value())
    {
      if !removeFromSet { return; }
      if remote.callsign != "" && remote.modelString != "" { DisableModelsForMatching([remote], true); }
    }
  }

  /** All strings, enabled or disabled. */
  function AllStrings(s: ModelSets): set<string> {
    ModelStrings(s.enabled) + ModelStrings(s.disabled)
  }

  predicate Apart(s: ModelSets) {
    ModelStrings(s.enabled) !! ModelStrings(s.disabled)
  }

  lemma StringsOfSum(a: Models, b: Models)
    ensures ModelStrings(a + b) == ModelStrings(a) + ModelStrings(b)
  {
  }

  lemma StringsWithout(list: Models, removed: Models)
    ensures ModelStrings(WithoutStringsOf(list, removed)) == ModelStrings(list) - ModelStrings(removed)
  {
    var rest := WithoutStringsOf(list, removed);
    FindByFinds(list, StringNotIn(ModelStrings(removed)));
    forall key | key in ModelStrings(list) - ModelStrings(removed) ensures key in ModelStrings(rest) {
      var m :| m in list && m.modelString != "" && Fold(m.modelString) == key;
      assert m in rest;
    }
    forall key | key in ModelStrings(rest) ensures key in ModelStrings(list) - ModelStrings(removed) {
      var m :| m in rest && m.modelString != "" && Fold(m.modelString) == key;
      assert m in list;
    }
  }

  lemma StringsOfRestored(s: ModelSets)
    ensures ModelStrings(Restored(s).enabled) == AllStrings(s)
  {
    StringsWithout(s.enabled, s.disabled);
    StringsOfSum(WithoutStringsOf(s.enabled, s.disabled), s.disabled);
  }

  /** What one operation does to the strings. Disabling always leaves the two sets apart if they were, and a
      non-incremental disable even if they were not; restoring leaves them apart only if nothing was disabled. */
  lemma StringsAfter(s: ModelSets, op: Operation)
    ensures AllStrings(Apply(s, op)) == AllStrings(s) + if op.Disable? then ModelStrings(op.removed) else {}
    ensures op.Disable? && (Apart(s) || !op.incremental) ==> Apart(Apply(s, op))
    ensures op.Restore? ==> (Apart(Apply(s, op)) <==> ModelStrings(s.disabled) == {})
  {
    StringsOfRestored(s);
    if op.Disable? {
      StringsWithout(s.enabled, op.removed);
      StringsWithout(Restored(s).enabled, op.removed);
      StringsOfSum(s.disabled, op.removed);
    }
  }

  /** Every disabled model is one of the original strings. */
  predicate DrawsFrom(ops: seq<Operation>, strings: set<string>) {
    forall i :: 0 <= i < |ops| && ops[i].Disable? ==> ModelStrings(ops[i].removed) <= strings
  }

  predicate OnlyDisables(ops: seq<Operation>) {
    forall i :: 0 <= i < |ops| ==> ops[i].Disable?
  }

  /** No run of disables and restores drawn from the set loses a string or brings in a new one, and restoring at its end
      gives exactly the original strings back. Without restores in between no string is both enabled and disabled. */
  lemma {:induction false} RunsConserveStrings(models: Models, ops: seq<Operation>)
    requires DrawsFrom(ops, ModelStrings(models))
    ensures var s := Run(ModelSets(models, []), ops);
            && AllStrings(s) == ModelStrings(models)
            && ModelStrings(Restored(s).enabled) == ModelStrings(models)
            && (OnlyDisables(ops) ==> Apart(s))
  {
    var start := ModelSets(models, []);
    assert ModelStrings(start.disabled) == {};
    if ops != [] {
      var front, last := ops[..|ops| - 1], ops[|ops| - 1];
      RunsConserveStrings(models, front);
      StringsAfter(Run(start, front), last);
    }
    StringsOfRestored(Run(start, ops));
  }

  /** A run conserves the strings exactly if all that is disabled comes from the set. */
  lemma {:induction false} StringsGrowByWhatIsDisabled(s: ModelSets, ops: seq<Operation>)
    ensures AllStrings(s) <= AllStrings(Run(s, ops))
    ensures AllStrings(Run(s, ops)) == AllStrings(s) <==> DrawsFrom(ops, AllStrings(s))
  {
    if ops != [] {
      var front, last := ops[..|ops| - 1], ops[|ops| - 1];
      var middle := Run(s, front);
      StringsGrowByWhatIsDisabled(s, front);
      StringsAfter(middle, last);
      DrawsFromFront(ops, AllStrings(s));
      var added := if last.Disable? then ModelStrings(last.removed) else {};
      assert AllStrings(Run(s, ops)) == AllStrings(middle) + added;
      if AllStrings(middle) + added == AllStrings(s) { assert AllStrings(middle) == AllStrings(s); }
    }
  }

  lemma DrawsFromFront(ops: seq<Operation>, strings: set<string>)
    requires ops != []
    ensures var front, last := ops[..|ops| - 1], ops[|ops| - 1];
            DrawsFrom(ops, strings) <==>
                DrawsFrom(front, strings) && (last.Disable? ==> ModelStrings(last.removed) <= strings)
  {
    var front, last := ops[..|ops| - 1], ops[|ops| - 1];
    if DrawsFrom(ops, strings) {
      assert forall i :: 0 <= i < |front| ==> front[i] == ops[i];
    }
  }

  function AllRemoved(ops: seq<Operation>): Models {
    if ops == [] then []
    else
      var last := ops[|ops| - 1];
      AllRemoved(ops[..|ops| - 1]) + if last.Disable? then last.removed else []
  }

  /** Incremental disables add up, in their order, and a restore forgets none of them. */
  lemma {:induction false} DisabledAddUp(s: ModelSets, ops: seq<Operation>)
    requires forall i :: 0 <= i < |ops| ==> ops[i].Restore? || ops[i].incremental
    ensures Run(s, ops).disabled == s.disabled + AllRemoved(ops)
  {
    if ops != [] { DisabledAddUp(s, ops[..|ops| - 1]); }
  }

  /** All copies of models, enabled or disabled. */
  function AllModels(s: ModelSets): multiset<Model> {
    multiset(s.enabled) + multiset(s.disabled)
  }

  /** The list consists of exactly the models the set has for its strings. */
  predicate IsExactly(removed: Models, list: Models) {
    multiset(WithoutStringsOf(list, removed)) + multiset(removed) == multiset(list)
  }

  /** An incremental disable conserves the models, with their copies, exactly if it names enabled models, each as often
      as it is enabled. */
  lemma CopiesConservedIffExact(s: ModelSets, removed: Models)
    ensures AllModels(Disabled(s, removed, true)) == AllModels(s) <==> IsExactly(removed, s.enabled)
  {
    var rest := WithoutStringsOf(s.enabled, removed);
    assert multiset(s.disabled + removed) == multiset(s.disabled) + multiset(removed);
    assert AllModels(Disabled(s, removed, true)) == multiset(rest) + multiset(removed) + multiset(s.disabled);
    if AllModels(Disabled(s, removed, true)) == AllModels(s) {
      forall m ensures (multiset(rest) + multiset(removed))[m] == multiset(s.enabled)[m] {
        assert AllModels(Disabled(s, removed, true))[m] == AllModels(s)[m];
      }
    }
  }

  lemma {:induction false} NothingToRemove(list: Models, removed: Models)
    requires ModelStrings(list) !! ModelStrings(removed)
    ensures WithoutStringsOf(list, removed) == list
  {
    if list != [] {
      var front, last := list[..|list| - 1], list[|list| - 1];
      assert list == front + [last];
      if last.modelString == "" {
        NoStringIsNoKey(removed, last);
      } else {
        assert Fold(last.modelString) in ModelStrings(list);
      }
      assert ModelStrings(front) <= ModelStrings(list);
      NothingToRemove(front, removed);
    }
  }

  /** Restoring brings all models back, with their copies, if and only if no string is both enabled and disabled. */
  lemma RestoringConservesCopiesIffApart(s: ModelSets)
    ensures multiset(Restored(s).enabled) == AllModels(s) <==> Apart(s)
  {
    if Apart(s) {
      NothingToRemove(s.enabled, s.disabled);
    } else {
      var key :| key in ModelStrings(s.enabled) && key in ModelStrings(s.disabled);
      var m :| m in s.enabled && m.modelString != "" && Fold(m.modelString) == key;
      SharedStringIsReplaced(s, m);
    }
  }

  lemma SharedStringIsReplaced(s: ModelSets, m: Model)
    requires m in s.enabled && m.modelString != "" && Fold(m.modelString) in ModelStrings(s.disabled)
    ensures multiset(Restored(s).enabled)[m] < AllModels(s)[m]
  {
    FindByCounts(s.enabled, StringNotIn(ModelStrings(s.disabled)), m);
    assert m in multiset(s.enabled) && s.disabled != [];
  }

  /** What restoring would bring back, with its copies. */
  function Recoverable(s: ModelSets): multiset<Model> {
    multiset(Restored(s).enabled)
  }

  /** The operation keeps that: it disables exactly the enabled models with their strings, without those that are
      disabled
      already, or all of them if it restores first. Restoring itself duplicates disabled models without a string. */
  predicate IsExact(s: ModelSets, op: Operation) {
    match op
    case Disable(removed, incremental) => IsExactly(removed, Affected(s, incremental))
    case Restore => forall m :: m in s.disabled ==> m.modelString != ""
  }

  /** The copies that survive the removal of strings. */
  lemma CopiesWithout(list: Models, removed: Models, m: Model)
    ensures multiset(WithoutStringsOf(list, removed))[m]
         == if m.modelString != "" && Fold(m.modelString) in ModelStrings(removed) then 0 else multiset(list)[m]
  {
    FindByCounts(list, StringNotIn(ModelStrings(removed)), m);
    if m.modelString == "" { NoStringIsNoKey(removed, m); }
  }

  lemma CopiesRestored(s: ModelSets, m: Model)
    ensures Recoverable(s)[m] == multiset(WithoutStringsOf(s.enabled, s.disabled))[m] + multiset(s.disabled)[m]
  {
    CopiesWithout(s.enabled, s.disabled, m);
    assert ModelStrings([]) == {};
  }

  lemma RestoringTwice(s: ModelSets, m: Model)
    ensures Recoverable(Restored(s))[m]
         == Recoverable(s)[m] + if m.modelString == "" then multiset(s.disabled)[m] else 0
  {
    var r := Restored(s);
    CopiesRestored(s, m);
    CopiesRestored(r, m);
    CopiesWithout(s.enabled, s.disabled, m);
    CopiesWithout(r.enabled, s.disabled, m);
    if m in s.disabled && m.modelString != "" { assert Fold(m.modelString) in ModelStrings(s.disabled); }
    assert m in s.disabled <==> m in multiset(s.disabled);
  }

  /** The list a disable is applied to: what is enabled beside the disabled models, or everything after a restore. */
  function Affected(s: ModelSets, incremental: bool): Models {
    if incremental then WithoutStringsOf(s.enabled, s.disabled) else Restored(s).enabled
  }

  lemma IncrementalCopies(s: ModelSets, removed: Models, m: Model)
    ensures Recoverable(Disabled(s, removed, true))[m] + multiset(Affected(s, true))[m]
         == Recoverable(s)[m] + multiset(WithoutStringsOf(Affected(s, true), removed))[m] + multiset(removed)[m]
  {
    var s' := Disabled(s, removed, true);
    CopiesRestored(s, m);
    CopiesRestored(s', m);
    StringsOfSum(s.disabled, removed);
    CopiesWithout(s'.enabled, s'.disabled, m);
    CopiesWithout(s.enabled, s.disabled, m);
    CopiesWithout(s.enabled, removed, m);
    CopiesWithout(Affected(s, true), removed, m);
    assert multiset(s'.disabled) == multiset(s.disabled) + multiset(removed);
  }

  lemma FullCopies(s: ModelSets, removed: Models, m: Model)
    ensures Recoverable(Disabled(s, removed, false))[m]
         == multiset(WithoutStringsOf(Affected(s, false), removed))[m] + multiset(removed)[m]
  {
    var s' := Disabled(s, removed, false);
    CopiesRestored(s', m);
    CopiesWithout(s'.enabled, removed, m);
    CopiesWithout(Affected(s, false), removed, m);
  }

  lemma DisablingCopies(s: ModelSets, removed: Models, incremental: bool, m: Model)
    ensures Recoverable(Disabled(s, removed, incremental))[m] + multiset(Affected(s, incremental))[m]
         == Recoverable(s)[m]
            + multiset(WithoutStringsOf(Affected(s, incremental), removed))[m] + multiset(removed)[m]
  {
    if incremental { IncrementalCopies(s, removed, m); } else { FullCopies(s, removed, m); }
  }

  lemma BalancedMultisets(before: multiset<Model>, after: multiset<Model>, former: multiset<Model>,
                          latter: multiset<Model>)
    requires forall m :: after[m] + former[m] == before[m] + latter[m]
    ensures after == before <==> latter == former
  {
    if after == before {
      assert forall m :: latter[m] == former[m];
    }
    if latter == former { assert forall m :: after[m] == before[m]; }
  }

  lemma DisablingKeepsCopiesIffExact(s: ModelSets, removed: Models, incremental: bool)
    ensures Recoverable(Disabled(s, removed, incremental)) == Recoverable(s)
       <==> IsExactly(removed, Affected(s, incremental))
  {
    var rest := WithoutStringsOf(Affected(s, incremental), removed);
    var before, after := Recoverable(s), Recoverable(Disabled(s, removed, incremental));
    var affected := multiset(Affected(s, incremental));
    forall m ensures after[m] + affected[m] == before[m] + (multiset(rest) + multiset(removed))[m] {
      DisablingCopies(s, removed, incremental, m);
    }
    BalancedMultisets(before, after, affected, multiset(rest) + multiset(removed));
  }

  lemma RestoringKeepsCopiesIffNamed(s: ModelSets)
    ensures Recoverable(Restored(s)) == Recoverable(s) <==> forall m :: m in s.disabled ==> m.modelString != ""
  {
    if m :| m in s.disabled && m.modelString == "" {
      RestoringTwice(s, m);
      assert m in multiset(s.disabled);
    } else {
      forall m ensures Recoverable(Restored(s))[m] == Recoverable(s)[m] {
        RestoringTwice(s, m);
        assert m in s.disabled <==> m in multiset(s.disabled);
      }
    }
  }

  /** One operation, incremental, not incremental or a restore. */
  lemma OperationKeepsCopiesIffExact(s: ModelSets, op: Operation)
    ensures Recoverable(Apply(s, op)) == Recoverable(s) <==> IsExact(s, op)
  {
    match op
    case Restore => RestoringKeepsCopiesIffNamed(s);
    case Disable(removed, incremental) => DisablingKeepsCopiesIffExact(s, removed, incremental);
  }

  ghost predicate AllExact(s: ModelSets, ops: seq<Operation>) {
    forall k :: 0 <= k < |ops| ==> IsExact(Run(s, ops[..k]), ops[k])
  }

  lemma OneMoreOperation(s: ModelSets, ops: seq<Operation>, k: nat)
    requires k < |ops|
    ensures Recoverable(Run(s, ops[..k + 1])) == Recoverable(Run(s, ops[..k])) <==> IsExact(Run(s, ops[..k]), ops[k])
  {
    assert ops[..k + 1][..k] == ops[..k];
    OperationKeepsCopiesIffExact(Run(s, ops[..k]), ops[k]);
  }

  lemma {:induction false} CopiesKeptUntil(s: ModelSets, ops: seq<Operation>, k: nat)
    requires AllExact(s, ops) && k <= |ops|
    ensures Recoverable(Run(s, ops[..k])) == Recoverable(s)
  {
    if k > 0 {
      CopiesKeptUntil(s, ops, k - 1);
      OneMoreOperation(s, ops, k - 1);
    }
  }

  /** A run of disables and restores: restoring after any of its operations gives back exactly the models, with their
      copies, that it would have given at first, if and only if every operation is exact. */
  lemma RunsKeepCopiesIffExact(s: ModelSets, ops: seq<Operation>)
    ensures (forall k :: 0 <= k <= |ops| ==> Recoverable(Run(s, ops[..k])) == Recoverable(s)) <==> AllExact(s, ops)
  {
    if AllExact(s, ops) {
      forall k | 0 <= k <= |ops| ensures Recoverable(Run(s, ops[..k])) == Recoverable(s) { CopiesKeptUntil(s, ops, k); }
    } else {
      var k :| 0 <= k < |ops| && !IsExact(Run(s, ops[..k]), ops[k]);
      OneMoreOperation(s, ops, k);
      assert Recoverable(Run(s, ops[..k])) != Recoverable(s) || Recoverable(Run(s, ops[..k + 1])) != Recoverable(s);
    }
  }

  /** A model that fails twice is disabled twice, and restored as two copies. */
  lemma DisabledTwiceRestoredTwice(m: Model)
    requires m.modelString != ""
    ensures Run(ModelSets([m], []), [Disable([m], true), Disable([m], true), Restore]).enabled == [m, m]
  {
    var start, once := ModelSets([m], []), Disable([m], true);
    assert m in [m] && Fold(m.modelString) in ModelStrings([m]);
    var c := StringNotIn(ModelStrings([m]));
    assert [m][..0] == [] && !Meets(m, c);
    assert FindBy([], c) == [] && FindBy([m], c) == FindBy([m][..0], c) + [];
    assert WithoutStringsOf([m], [m]) == [];
    assert [once, once, Restore][..2] == [once, once] && [once, once][..1] == [once] && [once][..0] == [];
    assert Run(start, []) == start;
    assert Run(start, [once]) == ModelSets([], [m]);
    assert Run(start, [once, once]) == ModelSets([], [m, m]);
  }
}
