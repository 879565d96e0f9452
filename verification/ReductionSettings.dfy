/** What the flags of the matcher really select, and how far the "reduced" flag can be trusted. */
module ReductionSettings {
  import opened Common
  import opened ModelList
  import opened ModelReduction

  /** A filter that says it did not reduce returned its input. */
  predicate IsHonest(list: Models, r: Reduction) {
    !r.reduced ==> r.list == list
  }

  lemma SimpleFiltersAreHonest(remote: Model, pseudo: bool, list: Models, mode: Mode)
    ensures IsHonest(list, ByAircraftOrFamily(remote, pseudo, list, mode))
    ensures IsHonest(list, ByAirline(remote, list, mode))
  {
    FamilyIsHonest(remote, pseudo, list);
  }

  lemma FamilyIsHonest(remote: Model, pseudo: bool, list: Models)
    ensures IsHonest(list, ByFamily(remote, pseudo, list))
  {
    assert forall family :: IsHonest(list, ByFamilyNamed(remote, family, pseudo, list));
  }

  /** The ICAO filter took the detour by family and airline. */
  predicate FoundByFamilyAndAirline(remote: Model, list: Models, mode: Mode) {
    && list != [] && mode.byIcaoData && !mode.AirlineFirst() && mode.byFamily
    && IsValidAirline(remote.airline)
    && !ByAirline(remote, ByAircraftOrFamily(remote, true, list, mode).list, mode).reduced
    && ByAirline(remote, ByFamily(remote, true, list).list, mode).reduced
  }

  /** The ICAO filter hides a reduction exactly on that detour, and then it always returns another list. */
  lemma IcaoFilterHidesFamilySearch(remote: Model, list: Models, mode: Mode)
    ensures var r := ByIcaoData(remote, list, mode, false);
            && (!IsHonest(list, r) <==> FoundByFamilyAndAirline(remote, list, mode))
            && (FoundByFamilyAndAirline(remote, list, mode) ==>
                  r == Unreduced(ByAirline(remote, ByFamily(remote, true, list).list, mode).list))
  {
    SimpleFiltersAreHonest(remote, true, list, mode);
    if FoundByFamilyAndAirline(remote, list, mode) { DetourChangesTheList(remote, list, mode); }
  }

  /** The list found first has no model of the airline or its group, the one of the detour no other. */
  lemma DetourChangesTheList(remote: Model, list: Models, mode: Mode)
    requires FoundByFamilyAndAirline(remote, list, mode)
    ensures ByAirline(remote, ByFamily(remote, true, list).list, mode).list != list
  {
    var first := ByAircraftOrFamily(remote, true, list, mode).list;
    AircraftOrFamilyIsSafe(remote, true, list, mode);
    var m := first[0];
    assert m in first && m in list;
    if FliesFor(m, remote) { AirlineFilterNeeds(remote, first, mode, m); }
    if m in ByAirline(remote, ByFamily(remote, true, list).list, mode).list {
      AirlineFilterFinds(remote, ByFamily(remote, true, list).list, mode, m);
    }
  }

  /** A model of the airline, or of its group if that is known. */
  predicate FliesFor(m: Model, remote: Model) {
    || m.airline == remote.airline
    || (remote.group >= 0 && remote.groupDesignator != "" && m.group == remote.group)
  }

  lemma AirlineFilterNeeds(remote: Model, list: Models, mode: Mode, m: Model)
    requires IsValidAirline(remote.airline) && m in list && FliesFor(m, remote)
    ensures ByAirline(remote, list, mode).reduced
  {
    FindByFindsOne(list, Airline(remote.airline), m);
    FindByFindsOne(list, AirlineGroup(remote.group), m);
  }

  lemma AirlineFilterFinds(remote: Model, list: Models, mode: Mode, m: Model)
    requires ByAirline(remote, list, mode).reduced && m in ByAirline(remote, list, mode).list
    ensures FliesFor(m, remote)
  {
    var own, group := FindBy(list, Airline(remote.airline)), FindBy(list, AirlineGroup(remote.group));
    FindByFindsOne(list, Airline(remote.airline), m);
    if m !in own {
      AddedOrThere(own, group, m);
      FindByFindsOne(list, AirlineGroup(remote.group), m);
    }
  }

  lemma AddedOrThere(list: Models, added: Models, m: Model)
    requires m in ReplaceOrAdd(list, added)
    ensures m in list || m in added
  {
    FindByFindsOne(list, StringNotIn(ModelStrings(added)), m);
  }

  /** The combined type filter hides a reduction to a single model. */
  lemma CombinedTypeHidesSingleModels(remote: Model, list: Models, mode: Mode)
    ensures var r := ByCombinedType(remote, list, mode);
            !IsHonest(list, r) <==>
              IsValidCombinedType(remote.combinedType) && |list| != 1
                  && |FindBy(list, CombinedType(remote.combinedType))| == 1
  {
    var c := CombinedType(remote.combinedType);
    if |list| == 1 {
      assert list == [list[0]];
      OneModel(list[0], c);
    }
    RefiningHidesSingleModels(remote, list, FindBy(list, c), mode);
  }

  lemma RefiningHidesSingleModels(remote: Model, list: Models, found: Models, mode: Mode)
    requires |list| == 1 && |found| == 1 ==> found == list
    ensures !IsHonest(list, Refined(remote, list, found, mode)) <==> |list| != 1 && |found| == 1
  {
  }

  /** The family filter selects the models of the family and, with other strings, those of the same type and
      manufacturer; it reduces exactly if there are any. */
  lemma FamilyFilterSelects(remote: Model, family: string, list: Models)
    ensures var c := CombinedAndManufacturer(remote.combinedType, remote.manufacturer);
            var r := ByFamilyNamed(remote, family, true, list);
            && (r.reduced <==> exists m :: m in list && (Meets(m, Family(family)) || Meets(m, c)))
            && (r.reduced ==> forall m :: m in r.list <==>
                  m in list && (Meets(m, Family(family))
                      || (Meets(m, c) && Fold(m.modelString) !in FamilyStrings(list, family))))
  {
    var c := CombinedAndManufacturer(remote.combinedType, remote.manufacturer);
    var found, alike := FindBy(list, Family(family)), FindBy(list, c);
    FindByFinds(list, Family(family));
    FindByFinds(list, c);
    JoinedSelects(list, found, alike);
  }

  lemma JoinedSelects(list: Models, found: Models, alike: Models)
    ensures var r := Joined(list, found, alike);
            && (r.reduced <==> exists m :: m in found || m in alike)
            && (r.reduced ==> forall m :: m in r.list <==>
                m in found || (m in alike && Fold(m.modelString) !in ModelStrings(found)))
  {
    FindByFinds(alike, StringNotIn(ModelStrings(found)));
    if found != [] { assert found[0] in found; } else { assert ModelStrings(found) == {}; }
    if alike != [] { assert alike[0] in alike; }
  }

  /** The strings of the models of a family. */
  function FamilyStrings(list: Models, family: string): set<string> {
    ModelStrings(FindBy(list, Family(family)))
  }

  /** Of the same aircraft type and airline as the remote aircraft. */
  predicate IsExact(m: Model, remote: Model) {
    m.designator == remote.designator && m.airline == remote.airline
  }

  /** The airline group is not asked for, or not known. */
  predicate WithoutGroup(remote: Model, mode: Mode) {
    (!mode.groupSameAsAirline && !mode.groupIfNoAirline) || remote.group < 0 || remote.groupDesignator == ""
  }

  /** Without the airline group, and with a model of the airline in the list, the airline filter selects exactly its
      models. */
  lemma AirlineFilterSelects(remote: Model, list: Models, mode: Mode)
    requires IsValidAirline(remote.airline) && WithoutGroup(remote, mode)
    requires exists m :: m in list && m.airline == remote.airline
    ensures var r := ByAirline(remote, list, mode);
            r.reduced && forall m :: m in r.list <==> m in list && m.airline == remote.airline
  {
    FindByFinds(list, Airline(remote.airline));
  }

  lemma AircraftFilterSelects(remote: Model, list: Models)
    requires remote.designator != "" && exists m :: m in list && m.designator == remote.designator
    ensures var r := ByAircraft(remote, list);
            r.reduced && forall m :: m in r.list <==> m in list && m.designator == remote.designator
  {
    FindByFinds(list, Designator(remote.designator));
  }

  /** If there is a model of the same aircraft type and airline, the ICAO filter selects exactly these models, whatever
      the order of its steps. */
  lemma ExactIcaoMatchesAreSelected(remote: Model, list: Models, mode: Mode, before: bool)
    requires mode.byIcaoData && WithoutGroup(remote, mode)
    requires IsValidAirline(remote.airline) && remote.designator != ""
    requires exists m :: m in list && IsExact(m, remote)
    ensures var r := ByIcaoData(remote, list, mode, before);
            r.reduced && forall m :: m in r.list <==> m in list && IsExact(m, remote)
  {
    var exact :| exact in list && IsExact(exact, remote);
    if mode.AirlineFirst() {
      AirlineFilterSelects(remote, list, mode);
      AircraftFilterSelects(remote, ByAirline(remote, list, mode).list);
    } else {
      AircraftFilterSelects(remote, list);
      AirlineFilterSelects(remote, ByAircraft(remote, list).list, mode);
    }
  }

  /** And no later step of the reduction brings in another model, if categories are not used and no livery matches. */
  lemma ExactMatchesWin(remote: Model, models: Models, mode: Mode, cats: Categories, logged: bool, m: Model)
    requires mode.byIcaoData && WithoutGroup(remote, mode) && !mode.UsesCategories()
    requires IsValidAirline(remote.airline) && remote.designator != ""
    requires exists m :: m in models && IsExact(m, remote)
    requires !(mode.byLivery && ByLiveryAndAircraft(remote, models).reduced)
    requires m in StepwiseReduce(remote, models, mode, cats, logged)
    ensures m in models && IsExact(m, remote)
  {
    var r1 := LiveryStep(remote, Unreduced(models), mode);
    assert r1 == Unreduced(models);
    ExactIcaoMatchesAreSelected(remote, models, mode, false);
    var r2 := IcaoStep(remote, r1, mode, logged);
    assert IsSafe(r2.list, r2.list);
    LaterStepsAreSafe(remote, r2, r2.list, mode, cats);
    assert LaterSteps(remote, r2, r2.list, mode, cats) == LaterSteps(remote, r2, models, mode, cats);
    var list := AllSteps(remote, models, mode, cats, logged);
    NarrowIsSafe(list, Manufacturer(remote.manufacturer));
  }

  /** Whether the reduction is logged never changes its result. */
  ghost predicate LoggingIsIrrelevant(mode: Mode) {
    forall remote, models, cats ::
      StepwiseReduce(remote, models, mode, cats, true) == StepwiseReduce(remote, models, mode, cats, false)
  }

  /** That is so for all setups but those with the family and without the ICAO data. */
  lemma LoggingIsIrrelevantIff(mode: Mode)
    ensures LoggingIsIrrelevant(mode) <==> mode.byIcaoData || !mode.byFamily
  {
    if mode.byIcaoData || !mode.byFamily {
      forall remote, models, cats
        ensures StepwiseReduce(remote, models, mode, cats, true) == StepwiseReduce(remote, models, mode, cats, false)
      {
        SameStepsWithoutFamily(remote, models, mode, cats);
      }
    } else {
      LoggingMatters(mode, Categories(false, None, map[], map[]));
    }
  }

  lemma SameStepsWithoutFamily(remote: Model, models: Models, mode: Mode, cats: Categories)
    requires mode.byIcaoData || !mode.byFamily
    ensures StepwiseReduce(remote, models, mode, cats, true) == StepwiseReduce(remote, models, mode, cats, false)
  {
    var r1 := LiveryStep(remote, Unreduced(models), mode);
    assert IcaoStep(remote, r1, mode, true) == IcaoStep(remote, r1, mode, false);
  }

  const AIRBUS := NO_MODEL.(modelString := "a", family := "A320")
  const BOEING := NO_MODEL.(modelString := "b", family := "B737")
  const REMOTE := NO_MODEL.(family := "A320")

  lemma FamilyFindsTheAirbus()
    ensures ByFamily(REMOTE, true, [AIRBUS, BOEING]) == Reduction([AIRBUS], true)
  {
    TwoModels(AIRBUS, BOEING, Family("A320"));
    TwoModels(AIRBUS, BOEING, CombinedAndManufacturer("", ""));
    assert ByFamilyNamed(REMOTE, "A320", true, [AIRBUS, BOEING]) == Reduction([AIRBUS], true);
  }

  /** With these setups, only a log has the family looked at. */
  lemma LoggingMatters(mode: Mode, cats: Categories)
    requires !mode.byIcaoData && mode.byFamily && !cats.known
    ensures StepwiseReduce(REMOTE, [AIRBUS, BOEING], mode, cats, false) == [AIRBUS, BOEING]
    ensures StepwiseReduce(REMOTE, [AIRBUS, BOEING], mode, cats, true) == [AIRBUS]
  {
    var models := [AIRBUS, BOEING];
    FamilyFindsTheAirbus();
    LaterStepsKeepBoth(mode, cats);
    assert LiveryStep(REMOTE, Unreduced(models), mode) == Unreduced(models);
    assert AllSteps(REMOTE, models, mode, cats, false) == models;
    assert AllSteps(REMOTE, models, mode, cats, true) == [AIRBUS];
  }

  lemma LaterStepsKeepBoth(mode: Mode, cats: Categories)
    requires !cats.known
    ensures LaterSteps(REMOTE, Unreduced([AIRBUS, BOEING]), [AIRBUS, BOEING], mode, cats) == [AIRBUS, BOEING]
  {
    TwoModels(AIRBUS, BOEING, MilitaryFlag(false));
    assert Narrow([AIRBUS, BOEING], MilitaryFlag(false)).list == [AIRBUS, BOEING];
  }

  lemma TwoModels(a: Model, b: Model, c: Criterion)
    ensures FindBy([a, b], c) == (if Meets(a, c) then [a] else []) + (if Meets(b, c) then [b] else [])
  {
    assert [a, b][..1] == [a] && [a][..0] == [];
    assert FindBy([a], c) == if Meets(a, c) then [a] else [];
  }

  /** The flag for airline groups "if there is no airline" does what the flag "same as airline" does. */
  lemma GroupFlagsAreEqual(remote: Model, list: Models, mode: Mode)
    ensures ByAirline(remote, list, mode.(groupSameAsAirline := true))
         == ByAirline(remote, list, mode.(groupIfNoAirline := true))
  {
  }

  /** Without a model of the airline itself its group is used in any case. */
  lemma GroupIsAlwaysTheFallback(remote: Model, list: Models, mode: Mode, other: Mode)
    requires forall m :: m in list ==> m.airline != remote.airline
    ensures ByAirline(remote, list, mode) == ByAirline(remote, list, other)
  {
    NothingMeets(list, Airline(remote.airline));
  }

  /** The livery filter reduces if and only if some model has the livery code for its designator and the designator for
      its livery code. */
  lemma LiveryFilterReducesIffSwapped(remote: Model, list: Models)
    ensures ByLiveryAndAircraft(remote, list).reduced
       <==> remote.livery != "" && remote.designator != ""
            && exists m :: m in list && m.designator == remote.livery && m.livery == remote.designator
  {
    NarrowIsSafe(list, DesignatorAndLivery(remote.livery, remote.designator));
  }

  /** The filter with its arguments the right way round. */
  function ByLiveryUnswapped(remote: Model, list: Models): Reduction {
    if remote.livery == "" then Unreduced(list)
    else Narrow(list, DesignatorAndLivery(remote.designator, remote.livery))
  }

  predicate HasBoth(m: Model, designator: string, livery: string) {
    m.designator == designator && m.livery == livery
  }

  lemma {:induction false} SameFinds(list: Models, a: Criterion, b: Criterion)
    requires forall m :: m in list ==> Meets(m, a) == Meets(m, b)
    ensures FindBy(list, a) == FindBy(list, b)
  {
    if list != [] {
      assert list[|list| - 1] in list;
      SameFinds(list[..|list| - 1], a, b);
    }
  }

  /** The swap makes no difference if and only if there is nothing to look for, or the two codes are the same, or no
      model
      has them in either order. */
  lemma LiverySwapIsHarmlessIff(remote: Model, list: Models)
    ensures ByLiveryAndAircraft(remote, list) == ByLiveryUnswapped(remote, list)
       <==> || remote.livery == "" || remote.designator == "" || remote.livery == remote.designator
            || forall m :: m in list ==>
                 !HasBoth(m, remote.designator, remote.livery) && !HasBoth(m, remote.livery, remote.designator)
  {
    var swapped := DesignatorAndLivery(remote.livery, remote.designator);
    var unswapped := DesignatorAndLivery(remote.designator, remote.livery);
    if forall m :: m in list ==> Meets(m, swapped) == Meets(m, unswapped) {
      SameFinds(list, swapped, unswapped);
    } else {
      var m :| m in list && Meets(m, swapped) != Meets(m, unswapped);
      FindByFindsOne(list, swapped, m);
      FindByFindsOne(list, unswapped, m);
    }
  }

  predicate IsCode(s: string) {
    forall i :: 0 <= i < |s| ==> IsUpperOrDigit(s[i])
  }

  /** Livery codes are looked up among the designators: a livery code with a dot, as all standard ones have, never
      matches, not even a model with the very designator and livery of the remote aircraft. */
  lemma LiveryFilterNeverMatches(remote: Model, list: Models)
    requires '.' in remote.livery && forall m :: m in list ==> IsCode(m.designator)
    ensures ByLiveryAndAircraft(remote, list) == Unreduced(list)
  {
    var i :| 0 <= i < |remote.livery| && remote.livery[i] == '.';
    forall m | m in list ensures m.designator != remote.livery {
      if |m.designator| == |remote.livery| { assert IsUpperOrDigit(m.designator[i]); }
    }
    NothingMeets(list, DesignatorAndLivery(remote.livery, remote.designator));
  }

  /** The candidates at the point where the military flag is looked at. */
  function BeforeMilitary(remote: Model, models: Models, mode: Mode, cats: Categories, logged: bool): Models {
    var r2 := IcaoStep(remote, LiveryStep(remote, Unreduced(models), mode), mode, logged);
    VtolStep(remote, CategoryStep(remote, r2, models, mode, cats), mode).list
  }

  /** The reduction ends before the flag is looked at: a livery matched, or the family did where only a log has it
      looked at. */
  predicate EndsEarly(remote: Model, models: Models, mode: Mode, logged: bool) {
    var r1 := LiveryStep(remote, Unreduced(models), mode);
    || (mode.byLivery && r1.reduced)
    || (!mode.byIcaoData && logged && mode.byFamily && IcaoStep(remote, r1, mode, logged).reduced)
  }

  /** With both flags set, a civil aircraft gets no military model and vice versa, unless there was no other candidate
      or the reduction ended before. */
  lemma MilitaryFlagIsRespected(remote: Model, models: Models, mode: Mode, cats: Categories, logged: bool)
    requires mode.byMilitary && mode.byCivilian && !EndsEarly(remote, models, mode, logged)
    ensures (forall m :: m in StepwiseReduce(remote, models, mode, cats, logged) ==> m.military == remote.military)
         || (forall m :: m in BeforeMilitary(remote, models, mode, cats, logged) ==> m.military != remote.military)
  {
    var r2 := IcaoStep(remote, LiveryStep(remote, Unreduced(models), mode), mode, logged);
    var before := VtolStep(remote, CategoryStep(remote, r2, models, mode, cats), mode);
    var sided := MilitaryStep(remote, before, mode);
    MilitaryStepSides(remote, before, mode);
    var combined := CombinedStep(remote, sided, mode).list;
    CombinedTypeIsSafe(remote, sided.list, mode);
    assert AllSteps(remote, models, mode, cats, logged) == combined;
    NarrowIsSafe(combined, Manufacturer(remote.manufacturer));
    assert forall m :: m in StepwiseReduce(remote, models, mode, cats, logged) ==> m in sided.list;
  }

  lemma MilitaryStepSides(remote: Model, r: Reduction, mode: Mode)
    requires mode.byMilitary && mode.byCivilian
    ensures (forall m :: m in MilitaryStep(remote, r, mode).list ==> m.military == remote.military)
         || (forall m :: m in r.list ==> m.military != remote.military)
  {
    NarrowIsSafe(r.list, MilitaryFlag(remote.military));
  }

  /** A model without a string that is of the family and also of the same type and manufacturer is listed twice. */
  lemma NamelessModelsAreDuplicated(m: Model)
    requires m.modelString == "" && m.family != ""
    requires Meets(m, CombinedAndManufacturer(m.combinedType, m.manufacturer))
    ensures ByFamilyNamed(m, m.family, true, [m]) == Reduction([m, m], true)
  {
    OneModel(m, Family(m.family));
    OneModel(m, CombinedAndManufacturer(m.combinedType, m.manufacturer));
    assert ModelStrings([m]) == {};
    OneModel(m, StringNotIn({}));
  }

  /** Both searches of the family filter find the model. */
  predicate FoundTwice(m: Model, remote: Model, family: string) {
    Meets(m, Family(family)) && Meets(m, CombinedAndManufacturer(remote.combinedType, remote.manufacturer))
  }

  /** The family filter lists a model more often than its input does if and only if both its searches find a model
      without a string. */
  lemma FamilyFilterDuplicatesIffNameless(remote: Model, family: string, pseudo: bool, list: Models)
    ensures !(multiset(ByFamilyNamed(remote, family, pseudo, list).list) <= multiset(list))
       <==> pseudo && exists m :: m in list && m.modelString == "" && FoundTwice(m, remote, family)
  {
    var c := CombinedAndManufacturer(remote.combinedType, remote.manufacturer);
    var r := ByFamilyNamed(remote, family, pseudo, list).list;
    forall m
      ensures multiset(r)[m] <= multiset(list)[m]
           || (pseudo && m in list && m.modelString == "" && FoundTwice(m, remote, family))
    {
      CopiesInFamily(remote, family, pseudo, list, m);
    }
    if m :| pseudo && m in list && m.modelString == "" && FoundTwice(m, remote, family) {
      CopiesInFamily(remote, family, pseudo, list, m);
      assert m in multiset(list);
    }
  }

  /** How often a model is listed that one of the searches finds. */
  lemma CopiesInFamily(remote: Model, family: string, pseudo: bool, list: Models, m: Model)
    ensures var n, copies := multiset(list)[m], multiset(ByFamilyNamed(remote, family, pseudo, list).list)[m];
            && (pseudo && m in list && m.modelString == "" && FoundTwice(m, remote, family) ==> copies == 2 * n)
            && (!(pseudo && m in list && m.modelString == "" && FoundTwice(m, remote, family)) ==> copies <= n)
  {
    var c := CombinedAndManufacturer(remote.combinedType, remote.manufacturer);
    var found, alike := FindBy(list, Family(family)), if pseudo then FindBy(list, c) else [];
    FindByCounts(list, Family(family), m);
    FindByCounts(list, c, m);
    FindByFindsOne(list, Family(family), m);
    assert m in list <==> m in multiset(list);
    CopiesJoined(list, found, alike, m);
  }

  /** A model of both parts is dropped from the second one if it has a string. */
  lemma CopiesJoined(list: Models, found: Models, alike: Models, m: Model)
    ensures var a, b := multiset(found)[m], multiset(alike)[m];
            var copies := multiset(Joined(list, found, alike).list)[m];
            found != [] || alike != [] ==>
              && a <= copies <= a + b
              && (m.modelString == "" ==> copies == a + b)
              && (m in found && m.modelString != "" ==> copies == a)
  {
    FindByCounts(alike, StringNotIn(ModelStrings(found)), m);
    if m.modelString == "" { NoStringIsNoKey(found, m); }
    if m in found && m.modelString != "" { assert Fold(m.modelString) in ModelStrings(found); }
  }

  lemma OneModel(m: Model, c: Criterion)
    ensures FindBy([m], c) == if Meets(m, c) then [m] else []
  {
    assert [m][..0] == [];
  }
}
