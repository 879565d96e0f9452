/** What each step of the stepwise reduction achieves in its result, told by the fields of the models. */
module ReductionLaws {
  import opened Common
  import opened ModelList
  import opened ModelReduction
  import opened ReductionSettings

  // ----- what the later steps leave -----

  lemma ManufacturerSubset(remote: Model, list: Models, m: Model)
    requires m in ByManufacturer(remote, list).list
    ensures m in list
  {
    FindByFindsOne(list, Manufacturer(remote.manufacturer), m);
  }

  lemma ResultIsFromSteps(remote: Model, models: Models, mode: Mode, cats: Categories, logged: bool, m: Model)
    requires m in StepwiseReduce(remote, models, mode, cats, logged)
    ensures m in AllSteps(remote, models, mode, cats, logged)
  {
    FindByFindsOne(AllSteps(remote, models, mode, cats, logged), Manufacturer(remote.manufacturer), m);
  }

  lemma CombinedSubset(remote: Model, r: Reduction, mode: Mode, m: Model)
    requires m in CombinedStep(remote, r, mode).list
    ensures m in r.list
  {
    CombinedTypeIsSafe(remote, r.list, mode);
  }

  lemma MilitarySubset(remote: Model, r: Reduction, mode: Mode, m: Model)
    requires m in MilitaryStep(remote, r, mode).list
    ensures m in r.list
  {
    FindByFindsOne(r.list, MilitaryFlag(remote.military), m);
  }

  lemma VtolSubset(remote: Model, r: Reduction, mode: Mode, m: Model)
    requires m in VtolStep(remote, r, mode).list
    ensures m in r.list
  {
    FindByFindsOne(r.list, Vtol, m);
  }

  /** The reduction up to and with the categories, unless it ended early. */
  function Categorised(remote: Model, models: Models, mode: Mode, cats: Categories, logged: bool): Reduction {
    var r2 := IcaoStep(remote, LiveryStep(remote, Unreduced(models), mode), mode, logged);
    CategoryStep(remote, r2, models, mode, cats)
  }

  lemma ResultIsFromLaterSteps(remote: Model, models: Models, mode: Mode, cats: Categories, logged: bool, m: Model)
    requires !EndsEarly(remote, models, mode, logged) && m in StepwiseReduce(remote, models, mode, cats, logged)
    ensures var hovering := VtolStep(remote, Categorised(remote, models, mode, cats, logged), mode);
            var sided := MilitaryStep(remote, hovering, mode);
            && m in Categorised(remote, models, mode, cats, logged).list && m in hovering.list && m in sided.list
            && m in CombinedStep(remote, sided, mode).list
  {
    ResultIsFromSteps(remote, models, mode, cats, logged, m);
    var categorised := Categorised(remote, models, mode, cats, logged);
    var hovering := VtolStep(remote, categorised, mode);
    var sided := MilitaryStep(remote, hovering, mode);
    assert m in CombinedStep(remote, sided, mode).list;
    CombinedSubset(remote, sided, mode, m);
    MilitarySubset(remote, hovering, mode, m);
    VtolSubset(remote, categorised, mode, m);
  }

  // ----- the manufacturer -----

  /** A candidate of the manufacturer lets no other one into the result. */
  lemma ManufacturerWins(remote: Model, models: Models, mode: Mode, cats: Categories, logged: bool, m: Model,
                         result: Model)
    requires mode.byManufacturer && remote.manufacturer != "" && m.manufacturer == remote.manufacturer
    requires m in AllSteps(remote, models, mode, cats, logged)
    requires result in StepwiseReduce(remote, models, mode, cats, logged)
    ensures result.manufacturer == remote.manufacturer
  {
    var list := AllSteps(remote, models, mode, cats, logged);
    var c := Manufacturer(remote.manufacturer);
    FindByFindsOne(list, c, m);
    FindByFindsOne(list, c, result);
    if |list| <= 1 { assert list == [list[0]]; }
  }

  /** In particular, if the setup has no other step, every model of the set is a candidate. */
  lemma ManufacturerAloneWins(remote: Model, models: Models, mode: Mode, cats: Categories, logged: bool, m: Model,
                              result: Model)
    requires !mode.byLivery && !mode.byIcaoData && !mode.byFamily && !mode.UsesCategories() && !mode.byVtol
    requires !mode.byMilitary && !mode.byCivilian && !mode.byCombinedType
    requires mode.byManufacturer && remote.manufacturer != "" && m.manufacturer == remote.manufacturer && m in models
    requires result in StepwiseReduce(remote, models, mode, cats, logged)
    ensures result in models && result.manufacturer == remote.manufacturer
  {
    ManufacturerWins(remote, models, mode, cats, logged, m, result);
    StepwiseReductionIsSafe(remote, models, mode, cats, logged);
  }

  /** With the manufacturer step, several results are either all of the manufacturer or none is. */
  lemma ManufacturerDecides(remote: Model, models: Models, mode: Mode, cats: Categories, logged: bool, a: Model,
                            b: Model)
    requires mode.byManufacturer && remote.manufacturer != ""
    requires var result := StepwiseReduce(remote, models, mode, cats, logged);
             |result| > 1 && a in result && b in result
    requires a.manufacturer == remote.manufacturer
    ensures b.manufacturer == remote.manufacturer
  {
    var list := AllSteps(remote, models, mode, cats, logged);
    var c := Manufacturer(remote.manufacturer);
    ManufacturerSubset(remote, list, a);
    FindByFindsOne(list, c, a);
    FindByFindsOne(list, c, b);
  }

  // ----- the livery -----

  /** A model with the swapped codes ends the reduction: only such models are left. */
  lemma LiveryDecides(remote: Model, models: Models, mode: Mode, cats: Categories, logged: bool, m: Model,
                      result: Model)
    requires mode.byLivery && remote.livery != "" && remote.designator != ""
    requires m in models && HasBoth(m, remote.livery, remote.designator)
    requires result in StepwiseReduce(remote, models, mode, cats, logged)
    ensures result in models && HasBoth(result, remote.livery, remote.designator)
  {
    var c := DesignatorAndLivery(remote.livery, remote.designator);
    ResultIsFromSteps(remote, models, mode, cats, logged, result);
    FindByFindsOne(models, c, m);
    FindByFindsOne(models, c, result);
  }

  // ----- VTOL, military, combined type -----

  /** If nothing was reduced before, an aircraft that takes off vertically gets such models if there are any. */
  lemma VtolDecides(remote: Model, models: Models, mode: Mode, cats: Categories, logged: bool, m: Model, result: Model)
    requires mode.byVtol && remote.vtol && !EndsEarly(remote, models, mode, logged)
    requires !Categorised(remote, models, mode, cats, logged).reduced
    requires m in Categorised(remote, models, mode, cats, logged).list && m.vtol
    requires result in StepwiseReduce(remote, models, mode, cats, logged)
    ensures result.vtol
  {
    var list := Categorised(remote, models, mode, cats, logged).list;
    ResultIsFromLaterSteps(remote, models, mode, cats, logged, result);
    FindByFindsOne(list, Vtol, m);
    FindByFindsOne(list, Vtol, result);
  }

  /** In particular if no step comes before, for every model of the set. */
  lemma VtolDecidesFirst(remote: Model, models: Models, mode: Mode, cats: Categories, logged: bool, m: Model,
                         result: Model)
    requires !mode.byLivery && !mode.byIcaoData && !mode.byFamily && !mode.UsesCategories()
    requires mode.byVtol && remote.vtol && m in models && m.vtol
    requires result in StepwiseReduce(remote, models, mode, cats, logged)
    ensures result.vtol
  {
    VtolDecides(remote, models, mode, cats, logged, m, result);
  }

  /** A model has nothing in common with the aircraft that the ICAO data could tell. */
  predicate IsStranger(m: Model, remote: Model) {
    && (remote.designator == "" || (m.designator != remote.designator && m.family != remote.designator))
    && (remote.family == "" || m.family != remote.family)
    && !IsAlike(m, remote)
    && m.airline != remote.airline
    && (remote.group < 0 || m.group != remote.group)
  }

  /** Or if the ICAO data tell nothing about any model of the set: they do not count as a reduction then. */
  lemma VtolDecidesAmongStrangers(remote: Model, models: Models, mode: Mode, cats: Categories, logged: bool, m: Model,
                                  result: Model)
    requires !mode.byLivery && mode.byIcaoData && !mode.UsesCategories()
    requires forall x :: x in models ==> IsStranger(x, remote)
    requires mode.byVtol && remote.vtol && m in models && m.vtol
    requires result in StepwiseReduce(remote, models, mode, cats, logged)
    ensures result.vtol
  {
    IcaoDataFindNoStrangers(remote, models, mode);
    VtolDecides(remote, models, mode, cats, logged, m, result);
  }

  lemma IcaoDataFindNoStrangers(remote: Model, list: Models, mode: Mode)
    requires forall x :: x in list ==> IsStranger(x, remote)
    ensures ByIcaoData(remote, list, mode, false) == Unreduced(list)
  {
    if remote.designator != "" { NothingMeets(list, Designator(remote.designator)); }
    AirlineFindsNoStrangers(remote, list, mode);
    FamilyFindsNoStrangers(remote, remote.family, list);
    FamilyFindsNoStrangers(remote, remote.designator, list);
  }

  lemma AirlineFindsNoStrangers(remote: Model, list: Models, mode: Mode)
    requires forall x :: x in list ==> IsStranger(x, remote)
    ensures ByAirline(remote, list, mode) == Unreduced(list)
  {
    NothingMeets(list, Airline(remote.airline));
    NothingMeets(list, AirlineGroup(remote.group));
  }

  lemma FamilyFindsNoStrangers(remote: Model, family: string, list: Models)
    requires forall x :: x in list ==> IsStranger(x, remote)
    requires family in {remote.family, remote.designator}
    ensures ByFamilyNamed(remote, family, true, list) == Unreduced(list)
  {
    NothingMeets(list, Family(family));
    NothingMeets(list, CombinedAndManufacturer(remote.combinedType, remote.manufacturer));
  }

  /** Neither flag applies to the aircraft: the candidates stay as they are. And an aircraft that does not take off
      vertically, or candidates that are reduced already, are not narrowed by that step. */
  lemma OtherAircraftAreNotNarrowed(remote: Model, r: Reduction, mode: Mode)
    ensures !remote.vtol || r.reduced || !mode.byVtol ==> VtolStep(remote, r, mode) == r
    ensures (remote.military && !mode.byMilitary) || (!remote.military && !mode.byCivilian) ==>
              MilitaryStep(remote, r, mode) == r
  {
  }

  /** Either flag alone works for its kind of aircraft. */
  lemma MilitaryDecides(remote: Model, models: Models, mode: Mode, cats: Categories, logged: bool, m: Model,
                        result: Model)
    requires if remote.military then mode.byMilitary else mode.byCivilian
    requires !EndsEarly(remote, models, mode, logged)
    requires m in BeforeMilitary(remote, models, mode, cats, logged) && m.military == remote.military
    requires result in StepwiseReduce(remote, models, mode, cats, logged)
    ensures result.military == remote.military
  {
    var list := BeforeMilitary(remote, models, mode, cats, logged);
    assert list == VtolStep(remote, Categorised(remote, models, mode, cats, logged), mode).list;
    ResultIsFromLaterSteps(remote, models, mode, cats, logged, result);
    SideDecides(remote, VtolStep(remote, Categorised(remote, models, mode, cats, logged), mode), mode, m, result);
  }

  lemma SideDecides(remote: Model, r: Reduction, mode: Mode, m: Model, result: Model)
    requires if remote.military then mode.byMilitary else mode.byCivilian
    requires m in r.list && m.military == remote.military && result in MilitaryStep(remote, r, mode).list
    ensures result.military == remote.military
  {
    FindByFindsOne(r.list, MilitaryFlag(remote.military), m);
    FindByFindsOne(r.list, MilitaryFlag(remote.military), result);
  }

  function BeforeCombined(remote: Model, models: Models, mode: Mode, cats: Categories, logged: bool): Models {
    MilitaryStep(remote, VtolStep(remote, Categorised(remote, models, mode, cats, logged), mode), mode).list
  }

  /** If a candidate has the combined type of the aircraft, all results have it. */
  lemma CombinedTypeDecides(remote: Model, models: Models, mode: Mode, cats: Categories, logged: bool, m: Model,
                            result: Model)
    requires mode.byCombinedType && IsValidCombinedType(remote.combinedType) && !EndsEarly(remote, models, mode, logged)
    requires m in BeforeCombined(remote, models, mode, cats, logged)
    requires MatchesCombinedType(m.combinedType, remote.combinedType)
    requires result in StepwiseReduce(remote, models, mode, cats, logged)
    ensures MatchesCombinedType(result.combinedType, remote.combinedType)
  {
    var list := BeforeCombined(remote, models, mode, cats, logged);
    var c := CombinedType(remote.combinedType);
    ResultIsFromLaterSteps(remote, models, mode, cats, logged, result);
    FindByFindsOne(list, c, m);
    RefinedSubset(remote, list, FindBy(list, c), mode, result);
    FindByFindsOne(list, c, result);
  }

  /** In particular, without earlier steps: the side of the aircraft, then its combined type on that side, decide among
      all models of the set. */
  lemma SideAndCombinedTypeDecide(remote: Model, models: Models, mode: Mode, cats: Categories, logged: bool, m: Model,
                                  result: Model)
    requires StartsWithSide(mode) && (if remote.military then mode.byMilitary else mode.byCivilian)
    requires m in models && m.military == remote.military
    requires result in StepwiseReduce(remote, models, mode, cats, logged)
    ensures result.military == remote.military
    ensures mode.byCombinedType && IsValidCombinedType(remote.combinedType)
            && MatchesCombinedType(m.combinedType, remote.combinedType) ==>
              MatchesCombinedType(result.combinedType, remote.combinedType)
  {
    NothingBeforeTheSide(remote, models, mode, cats, logged, m);
    MilitaryDecides(remote, models, mode, cats, logged, m, result);
    if mode.byCombinedType && IsValidCombinedType(remote.combinedType)
       && MatchesCombinedType(m.combinedType, remote.combinedType) {
      CombinedTypeDecides(remote, models, mode, cats, logged, m, result);
    }
  }

  /** No step is enabled before the one by the military flag. */
  predicate StartsWithSide(mode: Mode) {
    !mode.byLivery && !mode.byIcaoData && !mode.byFamily && !mode.UsesCategories() && !mode.byVtol
  }

  lemma NothingBeforeTheSide(remote: Model, models: Models, mode: Mode, cats: Categories, logged: bool, m: Model)
    requires StartsWithSide(mode) && m in models && m.military == remote.military
    ensures !EndsEarly(remote, models, mode, logged) && BeforeMilitary(remote, models, mode, cats, logged) == models
    ensures m in BeforeCombined(remote, models, mode, cats, logged)
  {
    FindByFindsOne(models, MilitaryFlag(remote.military), m);
  }

  lemma RefinedSubset(remote: Model, list: Models, found: Models, mode: Mode, m: Model)
    requires found != [] && m in Refined(remote, list, found, mode).list
    ensures m in found
  {
    AirlineIsSafe(remote, found, mode);
    if |found| > 1 { ManufacturerSubset(remote, ByAirline(remote, found, mode).list, m); }
  }

  /** And if there are several, those of the airline, then of the manufacturer, are preferred among them. */
  lemma CombinedTypeIsRefined(remote: Model, list: Models, mode: Mode, a: Model, b: Model)
    requires IsValidCombinedType(remote.combinedType) && IsValidAirline(remote.airline)
    requires remote.group < 0 || remote.groupDesignator == ""
    requires |FindBy(list, CombinedType(remote.combinedType))| > 1
    requires a in list && MatchesCombinedType(a.combinedType, remote.combinedType) && a.airline == remote.airline
    requires b in ByCombinedType(remote, list, mode).list
    ensures b.airline == remote.airline
  {
    var found := FindBy(list, CombinedType(remote.combinedType));
    TypedIsFound(list, remote.combinedType, a);
    TypedIsRefined(remote, list, mode);
    OwnAirlineIsRefined(remote, list, found, mode, a, b);
  }

  lemma TypedIsFound(list: Models, combinedType: string, m: Model)
    requires m in list && MatchesCombinedType(m.combinedType, combinedType)
    ensures m in FindBy(list, CombinedType(combinedType))
  {
    FindByFindsOne(list, CombinedType(combinedType), m);
  }

  lemma TypedIsRefined(remote: Model, list: Models, mode: Mode)
    requires IsValidCombinedType(remote.combinedType)
    ensures ByCombinedType(remote, list, mode)
         == Refined(remote, list, FindBy(list, CombinedType(remote.combinedType)), mode)
  {
  }

  lemma OwnAirlineIsRefined(remote: Model, list: Models, found: Models, mode: Mode, a: Model, b: Model)
    requires IsValidAirline(remote.airline) && (remote.group < 0 || remote.groupDesignator == "")
    requires |found| > 1 && a in found && a.airline == remote.airline && b in Refined(remote, list, found, mode).list
    ensures b.airline == remote.airline
  {
    var own := FindBy(found, Airline(remote.airline));
    FindByFindsOne(found, Airline(remote.airline), a);
    assert ByAirline(remote, found, mode) == Reduction(own, true);
    ManufacturerSubset(remote, own, b);
    FindByFindsOne(found, Airline(remote.airline), b);
  }

  predicate IsWildcard(c: char) {
    c in {' ', '-', '*'}
  }

  /** A complete code, such as L2J, is matched position by position, where a blank, a dash or a star stands for all. */
  lemma CodesMatchByPosition(mine: string, wanted: string)
    requires |mine| == 3 && mine[0] != '-' && '0' <= mine[1] <= '9'
    ensures MatchesCombinedType(mine, wanted)
       <==> |wanted| == 3 && forall i :: 0 <= i < 3 ==> IsWildcard(wanted[i]) || wanted[i] == mine[i]
  {
    if |wanted| == 3 {
      var wild := Wildcards(wanted);
      assert WildcardAt(wanted, 0) && WildcardAt(wanted, 1) && WildcardAt(wanted, 2);
      if forall i :: 0 <= i < 3 ==> !IsWildcard(wanted[i]) {
        assert wild == wanted;
      } else {
        assert wild[0] == '*' || wild[1] == '*' || wild[2] == '*';
      }
    }
  }

  /** The wanted position is open exactly if it holds a wildcard, else it is wanted as it is. */
  predicate WildcardAt(wanted: string, i: nat)
    requires i < |wanted|
  {
    Wildcards(wanted)[i] == if IsWildcard(wanted[i]) then '*' else wanted[i]
  }

  /** A model without a code matches only if kind and engine type are open, and no number of engines is asked for. */
  lemma NoCodeMatchesOpenCodes(wanted: string)
    ensures MatchesCombinedType("", wanted)
       <==> |wanted| == 3 && IsWildcard(wanted[0]) && !('0' <= wanted[1] <= '9') && IsWildcard(wanted[2])
  {
    if |wanted| == 3 { assert WildcardAt(wanted, 0) && WildcardAt(wanted, 1) && WildcardAt(wanted, 2); }
  }

  // ----- ICAO data -----

  /** The result comes from the ICAO step if no gliders are searched and the reduction did not end before. */
  lemma ResultIsFromIcaoStep(remote: Model, models: Models, mode: Mode, cats: Categories, logged: bool, result: Model)
    requires mode.byIcaoData && !mode.UsesCategories()
    requires !(mode.byLivery && ByLiveryAndAircraft(remote, models).reduced)
    requires result in StepwiseReduce(remote, models, mode, cats, logged)
    ensures result in ByIcaoData(remote, models, mode, false).list
  {
    assert LiveryStep(remote, Unreduced(models), mode) == Unreduced(models);
    ResultIsFromLaterSteps(remote, models, mode, cats, logged, result);
  }

  /** Without an airline the aircraft type decides, and without models of the type the family, if it is enabled. */
  lemma TypeOrFamilyDecides(remote: Model, models: Models, mode: Mode, cats: Categories, logged: bool, m: Model,
                            result: Model)
    requires mode.byIcaoData && !mode.UsesCategories() && !IsValidAirline(remote.airline)
    requires !(mode.byLivery && ByLiveryAndAircraft(remote, models).reduced)
    requires m in models && result in StepwiseReduce(remote, models, mode, cats, logged)
    ensures remote.designator != "" && m.designator == remote.designator ==> result.designator == remote.designator
    ensures mode.byFamily && remote.family != "" && m.family == remote.family
            && (forall x :: x in models ==> remote.designator == "" || x.designator != remote.designator) ==>
              result.family == remote.family || IsAlike(result, remote)
  {
    ResultIsFromIcaoStep(remote, models, mode, cats, logged, result);
    FindByFindsOne(models, Designator(remote.designator), m);
    FindByFindsOne(models, Designator(remote.designator), result);
    if mode.byFamily && (remote.designator == "" || forall x :: x in models ==> x.designator != remote.designator) {
      FamilyIsSearched(remote, models, mode);
      if remote.family != "" && m.family == remote.family { FamilyOrAlike(remote, models, m, result); }
    }
  }

  lemma FamilyOrAlike(remote: Model, list: Models, m: Model, result: Model)
    requires remote.family != "" && m in list && m.family == remote.family
    requires var r := ByFamily(remote, true, list);
             result in if r.reduced then r.list else list
    ensures result.family == remote.family || IsAlike(result, remote)
  {
    FamilyFilterSelects(remote, remote.family, list);
    assert Meets(m, Family(remote.family)) && ByFamilyNamed(remote, remote.family, true, list).reduced;
    AlikeMeets(result, remote);
  }

  lemma AlikeMeets(m: Model, remote: Model)
    ensures IsAlike(m, remote) <==> Meets(m, CombinedAndManufacturer(remote.combinedType, remote.manufacturer))
  {
  }

  /** If neither type nor family nor a model alike is found, the designator is taken for a family. */
  lemma DesignatorMayBeAFamily(remote: Model, models: Models, mode: Mode, cats: Categories, logged: bool, m: Model,
                               result: Model)
    requires mode.byIcaoData && mode.byFamily && !mode.UsesCategories() && !IsValidAirline(remote.airline)
    requires !(mode.byLivery && ByLiveryAndAircraft(remote, models).reduced)
    requires remote.designator != "" && m in models && m.family == remote.designator
    requires forall x :: x in models ==> x.designator != remote.designator && !IsAlike(x, remote)
                                         && (remote.family == "" || x.family != remote.family)
    requires result in StepwiseReduce(remote, models, mode, cats, logged)
    ensures result.family == remote.designator
  {
    ResultIsFromIcaoStep(remote, models, mode, cats, logged, result);
    FamilyIsSearched(remote, models, mode);
    DesignatorIsSearched(remote, models, m, result);
  }

  /** Without an airline and without models of the type, the ICAO data come down to the family. */
  lemma FamilyIsSearched(remote: Model, list: Models, mode: Mode)
    requires list != [] && mode.byIcaoData && mode.byFamily && !IsValidAirline(remote.airline)
    requires remote.designator == "" || forall x :: x in list ==> x.designator != remote.designator
    ensures var r := ByFamily(remote, true, list);
            ByIcaoData(remote, list, mode, false).list == if r.reduced then r.list else list
  {
    if remote.designator != "" { NothingMeets(list, Designator(remote.designator)); }
    assert ByAircraft(remote, list) == Unreduced(list);
  }

  lemma DesignatorIsSearched(remote: Model, list: Models, m: Model, result: Model)
    requires remote.designator != "" && m in list && m.family == remote.designator
    requires forall x :: x in list ==> !IsAlike(x, remote) && (remote.family == "" || x.family != remote.family)
    requires var r := ByFamily(remote, true, list);
             result in if r.reduced then r.list else list
    ensures result.family == remote.designator
  {
    NobodyOfFamily(remote, list);
    assert !(remote.family != "" && ByFamilyNamed(remote, remote.family, true, list).reduced);
    NobodyAlike(remote, list, m, result);
  }

  lemma NobodyOfFamily(remote: Model, list: Models)
    requires forall x :: x in list ==> !IsAlike(x, remote) && (remote.family == "" || x.family != remote.family)
    ensures !ByFamilyNamed(remote, remote.family, true, list).reduced
  {
    FamilyFilterSelects(remote, remote.family, list);
  }

  lemma NobodyAlike(remote: Model, list: Models, m: Model, result: Model)
    requires remote.designator != "" && m in list && m.family == remote.designator
    requires forall x :: x in list ==> !IsAlike(x, remote)
    requires var r := ByFamilyNamed(remote, remote.designator, true, list);
             result in if r.reduced then r.list else list
    ensures result.family == remote.designator
  {
    FamilyFilterSelects(remote, remote.designator, list);
    assert Meets(m, Family(remote.designator));
  }

  /** Without the pseudo family, exactly the models of the family are selected, if there are any. */
  lemma FamilyAloneSelects(remote: Model, family: string, list: Models)
    ensures var r := ByFamilyNamed(remote, family, false, list);
            && (r.reduced <==> family != "" && exists m :: m in list && m.family == family)
            && (forall m :: m in r.list <==> m in list && (r.reduced ==> m.family == family))
  {
    FoundOrNone(list, Family(family));
  }

  /** Same combined type and manufacturer, as far as they are known; if neither is, nothing is alike. */
  predicate IsAlike(m: Model, remote: Model) {
    && (remote.manufacturer != "" ==> m.manufacturer == remote.manufacturer)
    && (remote.combinedType != "" || remote.manufacturer == "" ==>
          MatchesCombinedType(m.combinedType, remote.combinedType))
  }

  /** With an airline and without a type or a family, the airline decides. */
  lemma AirlineDecides(remote: Model, models: Models, mode: Mode, cats: Categories, logged: bool, m: Model,
                       result: Model)
    requires mode.byIcaoData && !mode.UsesCategories() && !mode.byFamily && remote.designator == ""
    requires WithoutGroup(remote, mode) && IsValidAirline(remote.airline)
    requires !(mode.byLivery && ByLiveryAndAircraft(remote, models).reduced)
    requires m in models && m.airline == remote.airline && result in StepwiseReduce(remote, models, mode, cats, logged)
    ensures result.airline == remote.airline
  {
    ResultIsFromIcaoStep(remote, models, mode, cats, logged, result);
    AirlineFilterSelects(remote, models, mode);
  }

  /** Which of type and airline goes first matters if no model has both: the first filter decides. */
  lemma FirstFilterDecides(remote: Model, models: Models, mode: Mode, cats: Categories, logged: bool, m: Model,
                           result: Model)
    requires mode.byIcaoData && !mode.UsesCategories() && !mode.byFamily
    requires WithoutGroup(remote, mode)
    requires !(mode.byLivery && ByLiveryAndAircraft(remote, models).reduced)
    requires IsValidAirline(remote.airline) && remote.designator != ""
    requires m in models && result in StepwiseReduce(remote, models, mode, cats, logged)
    ensures mode.airlineFirst && m.airline == remote.airline ==> result.airline == remote.airline
    ensures !mode.airlineFirst && m.designator == remote.designator ==> result.designator == remote.designator
  {
    ResultIsFromIcaoStep(remote, models, mode, cats, logged, result);
    if mode.airlineFirst {
      if m.airline == remote.airline {
        AirlineFilterSelects(remote, models, mode);
        FindByFindsOne(ByAirline(remote, models, mode).list, Designator(remote.designator), result);
      }
    } else if m.designator == remote.designator {
      AircraftFilterSelects(remote, models);
      AirlineIsSafe(remote, ByAircraft(remote, models).list, mode);
    }
  }

  /** Another model of the list stands for `m`: one of the group with the same string, up to case. */
  predicate IsReplaced(m: Model, list: Models, group: int) {
    m.modelString != ""
    && exists g :: g in list && g.group == group && g.modelString != "" && Fold(g.modelString) == Fold(m.modelString)
  }

  /** With the airline group, as both default setups for the reduction ask for it, the aircraft type is searched first,
      and then airline and group together: the models of the group, and those of the airline that none of them stands
      for. */
  lemma GroupIsSelected(remote: Model, list: Models, mode: Mode, before: bool)
    requires mode.byIcaoData && !mode.airlineFirst && (mode.groupSameAsAirline || mode.groupIfNoAirline)
    requires IsValidAirline(remote.airline) && remote.designator != "" && remote.group >= 0
             && remote.groupDesignator != ""
    requires exists m :: m in list && m.designator == remote.designator && FliesFor(m, remote)
    ensures var r := ByIcaoData(remote, list, mode, before);
            var typed := FindBy(list, Designator(remote.designator));
            r.reduced && forall m :: m in r.list <==>
              && m in list && m.designator == remote.designator
              && (m.group == remote.group
                  || (m.airline == remote.airline && !IsReplaced(m, typed, remote.group)))
  {
    var typed := FindBy(list, Designator(remote.designator));
    var m :| m in list && m.designator == remote.designator && FliesFor(m, remote);
    FoundOrNone(list, Designator(remote.designator));
    assert m in typed;
    GroupIsJoined(remote, typed, mode, m);
    TypeIsFirst(remote, list, mode, before);
  }

  lemma GroupIsJoined(remote: Model, list: Models, mode: Mode, some: Model)
    requires mode.byIcaoData && (mode.groupSameAsAirline || mode.groupIfNoAirline)
    requires IsValidAirline(remote.airline) && remote.group >= 0 && remote.groupDesignator != ""
    requires some in list && FliesFor(some, remote)
    ensures var r := ByAirline(remote, list, mode);
            r.reduced && forall m :: m in r.list <==>
              && m in list
              && (m.group == remote.group || (m.airline == remote.airline && !IsReplaced(m, list, remote.group)))
  {
    var own, group := FindBy(list, Airline(remote.airline)), FindBy(list, AirlineGroup(remote.group));
    AirlineFilterNeeds(remote, list, mode, some);
    assert ByAirline(remote, list, mode).list == ReplaceOrAdd(own, group);
    forall m
      ensures m in ReplaceOrAdd(own, group) <==>
        m in list && (m.group == remote.group || (m.airline == remote.airline && !IsReplaced(m, list, remote.group)))
    {
      ReplacedMeansKey(list, group, remote.group, m);
      JoinedMember(list, own, group, remote, m, IsReplaced(m, list, remote.group));
    }
  }

  lemma JoinedMember(list: Models, own: Models, group: Models, remote: Model, m: Model, replaced: bool)
    requires own == FindBy(list, Airline(remote.airline)) && group == FindBy(list, AirlineGroup(remote.group))
    requires remote.group >= 0 && replaced == (Fold(m.modelString) in ModelStrings(group))
    ensures m in ReplaceOrAdd(own, group) <==>
      m in list && (m.group == remote.group || (m.airline == remote.airline && !replaced))
  {
    FindByFindsOne(list, Airline(remote.airline), m);
    FindByFindsOne(list, AirlineGroup(remote.group), m);
    MemberOfJoin(own, group, m);
  }

  lemma MemberOfJoin(list: Models, added: Models, m: Model)
    ensures m in ReplaceOrAdd(list, added)
       <==> m in added || (m in list && Fold(m.modelString) !in ModelStrings(added))
  {
    FindByFindsOne(list, StringNotIn(ModelStrings(added)), m);
    assert ModelStrings([]) == {};
  }

  lemma ReplacedMeansKey(list: Models, groupModels: Models, group: int, m: Model)
    requires groupModels == FindBy(list, AirlineGroup(group)) && group >= 0
    ensures Fold(m.modelString) in ModelStrings(groupModels) <==> IsReplaced(m, list, group)
  {
    FoundOrNone(list, AirlineGroup(group));
    if m.modelString == "" { NoStringIsNoKey(groupModels, m); }
    if Fold(m.modelString) in ModelStrings(groupModels) {
      var g :| g in groupModels && g.modelString != "" && Fold(g.modelString) == Fold(m.modelString);
      assert g in list && g.group == group;
    }
  }

  /** So under the default setups, if the set has the type with the airline or its group, every result is of the type,
      and of the airline or its group. */
  lemma TypeAndGroupDecide(remote: Model, models: Models, mode: Mode, cats: Categories, logged: bool, m: Model,
                           result: Model)
    requires mode.byIcaoData && !mode.airlineFirst && !mode.UsesCategories()
    requires !(mode.byLivery && ByLiveryAndAircraft(remote, models).reduced)
    requires IsValidAirline(remote.airline) && remote.designator != ""
    requires m in models && m.designator == remote.designator && FliesFor(m, remote)
    requires result in StepwiseReduce(remote, models, mode, cats, logged)
    ensures result.designator == remote.designator && FliesFor(result, remote)
  {
    ResultIsFromIcaoStep(remote, models, mode, cats, logged, result);
    TypeAndGroupAreFound(remote, models, mode, m, result);
  }

  lemma TypeAndGroupAreFound(remote: Model, list: Models, mode: Mode, m: Model, result: Model)
    requires mode.byIcaoData && !mode.airlineFirst && IsValidAirline(remote.airline) && remote.designator != ""
    requires m in list && m.designator == remote.designator && FliesFor(m, remote)
    requires result in ByIcaoData(remote, list, mode, false).list
    ensures result.designator == remote.designator && FliesFor(result, remote)
  {
    var typed := FindBy(list, Designator(remote.designator));
    FindByFindsOne(list, Designator(remote.designator), m);
    AirlineFilterNeeds(remote, typed, mode, m);
    TypeIsFirst(remote, list, mode, false);
    AirlineFilterFinds(remote, typed, mode, result);
    AirlineSubset(remote, typed, mode, result);
    FindByFindsOne(list, Designator(remote.designator), result);
  }

  lemma AirlineSubset(remote: Model, list: Models, mode: Mode, m: Model)
    requires m in ByAirline(remote, list, mode).list
    ensures m in list
  {
    AirlineIsSafe(remote, list, mode);
  }

  /** With the type first, and a model of the type for the airline or its group, the other searches are not needed. */
  lemma TypeIsFirst(remote: Model, list: Models, mode: Mode, before: bool)
    requires mode.byIcaoData && !mode.airlineFirst && remote.designator != ""
    requires var typed := FindBy(list, Designator(remote.designator));
             typed != [] && ByAirline(remote, typed, mode).reduced
    ensures var typed := FindBy(list, Designator(remote.designator));
            ByIcaoData(remote, list, mode, before) == Reduction(ByAirline(remote, typed, mode).list, true)
  {
    assert ByAircraft(remote, list) == Reduction(FindBy(list, Designator(remote.designator)), true);
  }

  // ----- gliders -----

  predicate IsOfLevel(m: Model, level: int) {
    m.category.Some? && m.category.value.firstLevel == level
  }

  predicate IsOfCategory(m: Model, categories: set<Category>) {
    m.category.Some? && m.category.value in categories
  }

  /** The gliders of the set that come closest: of the same category if there are any, else of a parallel one, else of a
      sibling (whatever its level), else any glider. */
  ghost predicate IsNearest(result: Model, models: Models, level: int, category: Category, cats: Categories) {
    var parallel, siblings := Related(cats.parallel, category), Related(cats.siblings, category);
    if exists m :: m in models && IsOfLevel(m, level) && IsOfCategory(m, {category}) then
      IsOfLevel(result, level) && IsOfCategory(result, {category})
    else if exists m :: m in models && IsOfLevel(m, level) && IsOfCategory(m, parallel) then
      IsOfLevel(result, level) && IsOfCategory(result, parallel)
    else if exists m :: m in models && IsOfCategory(m, siblings) then IsOfCategory(result, siblings)
    else IsOfLevel(result, level)
  }

  /** For a glider with the glider flag, if the set has gliders, only the nearest ones are left. */
  lemma NearestGlidersDecide(remote: Model, models: Models, mode: Mode, cats: Categories, logged: bool, m: Model,
                             result: Model)
    requires mode.byCategoryGlider && cats.known && cats.gliderLevel.Some? && cats.gliderLevel.value >= 0
    requires remote.category.Some? && !EndsEarly(remote, models, mode, logged)
    requires remote.designator == "GLID" || remote.category.value.firstLevel == cats.gliderLevel.value
    requires m in models && IsOfLevel(m, cats.gliderLevel.value)
    requires result in StepwiseReduce(remote, models, mode, cats, logged)
    ensures result in models && IsNearest(result, models, cats.gliderLevel.value, remote.category.value, cats)
    ensures Categorised(remote, models, mode, cats, logged).reduced
  {
    ResultIsFromLaterSteps(remote, models, mode, cats, logged, result);
    var level, category := cats.gliderLevel.value, remote.category.value;
    FoundOrNone(models, CategoryLevel(level));
    var gliders := FindBy(models, CategoryLevel(level));
    var r2 := IcaoStep(remote, LiveryStep(remote, Unreduced(models), mode), mode, logged);
    assert m in gliders;
    GlidersAreSearched(remote, r2.list, models, mode, cats);
    NearestAreNearest(models, gliders, level, category, cats, result);
  }

  lemma GlidersAreSearched(remote: Model, matched: Models, models: Models, mode: Mode, cats: Categories)
    requires mode.byCategoryGlider && cats.known && cats.gliderLevel.Some? && cats.gliderLevel.value >= 0
    requires remote.category.Some?
    requires remote.designator == "GLID" || remote.category.value.firstLevel == cats.gliderLevel.value
    requires FindBy(models, CategoryLevel(cats.gliderLevel.value)) != []
    ensures var gliders := FindBy(models, CategoryLevel(cats.gliderLevel.value));
            ByCategories(remote, matched, models, mode, cats) ==
              Reduction(NearestGliders(models, gliders, remote.category.value, cats), true)
  {
  }

  lemma NearestAreNearest(models: Models, gliders: Models, level: int, category: Category, cats: Categories,
                          result: Model)
    requires forall m :: m in gliders <==> m in models && IsOfLevel(m, level)
    requires result in NearestGliders(models, gliders, category, cats)
    ensures result in models && IsNearest(result, models, level, category, cats)
  {
    var parallel, siblings := Related(cats.parallel, category), Related(cats.siblings, category);
    FoundOrNone(gliders, CategoryIn({category}));
    if FindBy(gliders, CategoryIn({category})) == [] {
      FoundOrNone(gliders, CategoryIn(parallel));
      if FindBy(gliders, CategoryIn(parallel)) == [] { FoundOrNone(models, CategoryIn(siblings)); }
    }
  }

  /** Without the flag, or without categories, or for anything but a glider, the candidates stay as they are, whatever
      the other categories say. But where categories are used, it is forgotten that they had been reduced. */
  lemma OthersKeepTheirCandidates(remote: Model, r: Reduction, models: Models, mode: Mode, cats: Categories)
    requires || !mode.byCategoryGlider || !cats.known || remote.category.None? || cats.gliderLevel.None?
             || (remote.designator != "GLID"
                 && (cats.gliderLevel.value < 0 || remote.category.value.firstLevel != cats.gliderLevel.value))
    ensures CategoryStep(remote, r, models, mode, cats)
         == if mode.byCategoryGlider || mode.byCategoryMilitary then Reduction(r.list, false) else r
  {
  }

  predicate IsSubstitute(m: Model) {
    m.colorLivery && (m.designator in {"UHEL", "GLID", "ULAC"} || m.family in {"UHEL", "GLID", "ULAC"})
  }

  /** If the set has no gliders, a glider gets the colored ultralights among the candidates, without these landplanes
      with one piston engine, and without these all of them. */
  lemma SubstitutesForGliders(remote: Model, r: Reduction, models: Models, mode: Mode, cats: Categories, m: Model)
    requires mode.byCategoryGlider && cats.known && cats.gliderLevel.Some? && remote.category.Some?
    requires IsGlider(remote, cats) && forall x :: x in models ==> !IsOfLevel(x, cats.gliderLevel.value)
    ensures var list := CategoryStep(remote, r, models, mode, cats).list;
            m in list <==>
              && m in r.list
              && (if exists x :: x in r.list && IsSubstitute(x) then IsSubstitute(m)
                  else (exists x :: x in r.list && MatchesCombinedType(x.combinedType, "L1P")) ==>
                         MatchesCombinedType(m.combinedType, "L1P"))
  {
    NothingMeets(models, CategoryLevel(cats.gliderLevel.value));
    SubstitutesAreNarrowed(r.list, m);
    NarrowedMember(r.list, CombinedType("L1P"), m);
  }

  lemma SubstitutesAreNarrowed(list: Models, m: Model)
    ensures var r := Narrow(list, DesignatorOrFamilyWithColor(GLIDER_SUBSTITUTES));
            && (r.reduced <==> exists x :: x in list && IsSubstitute(x))
            && (r.reduced ==> (m in r.list <==> m in list && IsSubstitute(m)))
  {
    FoundOrNone(list, DesignatorOrFamilyWithColor(GLIDER_SUBSTITUTES));
    assert forall x: Model :: Meets(x, DesignatorOrFamilyWithColor(GLIDER_SUBSTITUTES)) <==> IsSubstitute(x);
  }

  lemma NarrowedMember(list: Models, c: Criterion, m: Model)
    ensures m in Narrow(list, c).list <==> m in list && ((exists x :: x in list && Meets(x, c)) ==> Meets(m, c))
  {
    FoundOrNone(list, c);
  }

  lemma FoundOrNone(list: Models, c: Criterion)
    ensures FindBy(list, c) == [] <==> forall m :: m in list ==> !Meets(m, c)
    ensures forall m :: m in FindBy(list, c) <==> m in list && Meets(m, c)
  {
    FindByFinds(list, c);
    if FindBy(list, c) != [] { assert FindBy(list, c)[0] in FindBy(list, c); }
  }
}
