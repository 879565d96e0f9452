/** The filters of the aircraft matcher. Each one narrows a list of models if that leaves any, and tells whether it
    did. */
module ModelReduction {
  import opened Common
  import opened ModelList

  datatype Mode = Mode(
    byModelString: bool, byIcaoData: bool, byFamily: bool, byLivery: bool, byCombinedType: bool, byManufacturer: bool,
    byMilitary: bool, byCivilian: bool, byVtol: bool,
    airlineFirst: bool, groupSameAsAirline: bool, groupIfNoAirline: bool,
    excludeNoDbData: bool, excludeNoExcluded: bool,
    byCategoryGlider: bool, byCategoryMilitary: bool,
    scoreIgnoreZeros: bool)
  {
    // these flags include the bit for ICAO data, and a test asks for all bits
    predicate AirlineFirst() { airlineFirst && byIcaoData }
    predicate GroupSameAsAirline() { groupSameAsAirline && byIcaoData }
    predicate GroupIfNoAirline() { groupIfNoAirline && byIcaoData }
    predicate UsesCategories() { byCategoryGlider || byCategoryMilitary }
  }

  /** The category tree as far as gliders need it; no level if there are no gliders. */
  datatype Categories = Categories(
    known: bool,
    gliderLevel: Option<int>,
    parallel: map<Category, set<Category>>,
    siblings: map<Category, set<Category>>)

  datatype Reduction = Reduction(list: Models, reduced: bool)

  function Unreduced(list: Models): Reduction {
    Reduction(list, false)
  }

  /** Keep what meets the criterion, or everything if nothing does. */
  function Narrow(list: Models, c: Criterion): Reduction {
    if FindBy(list, c) == [] then Unreduced(list) else Reduction(FindBy(list, c), true)
  }

  predicate IsValidAirline(a: string) {
    2 <= |a| <= 5 && forall i :: 0 <= i < |a| ==> IsUpperOrDigit(a[i])
  }

  predicate IsValidCombinedType(t: string) {
    |t| == 3 && t[0] in "AGHSLT" && '0' <= t[1] <= '9' && t[2] in "EJPT-"
  }

  /** The finder takes designator and livery in this order, but is called the other way round. */
  function ByLiveryAndAircraft(remote: Model, list: Models): Reduction {
    if remote.livery == "" then Unreduced(list) else Narrow(list, DesignatorAndLivery(remote.livery, remote.designator))
  }

  function ByManufacturer(remote: Model, list: Models): Reduction {
    if list == [] || remote.manufacturer == "" then Unreduced(list) else Narrow(list, Manufacturer(remote.manufacturer))
  }

  function ByAircraft(remote: Model, list: Models): Reduction {
    if list == [] || remote.designator == "" then Unreduced(list) else Narrow(list, Designator(remote.designator))
  }

  function ByFamilyNamed(remote: Model, family: string, pseudo: bool, list: Models): Reduction {
    if (family == "" && !pseudo) || list == [] then Unreduced(list)
    else
      var found := FindBy(list, Family(family));
      if found == [] && !pseudo then Unreduced(list)
      else
        var alike := if pseudo then FindBy(list, CombinedAndManufacturer(remote.combinedType, remote.manufacturer))
            else [];
        Joined(list, found, alike)
  }

  /** The models of the family, and those of the pseudo family with other strings. */
  function Joined(list: Models, found: Models, alike: Models): Reduction {
    if found == [] && alike == [] then Unreduced(list)
    else if found == [] then Reduction(alike, true)
    else Reduction(found + WithoutStringsOf(alike, found), true)
  }

  /** The family of the aircraft, then its designator taken as a family. */
  function ByFamily(remote: Model, pseudo: bool, list: Models): Reduction {
    if remote.family != "" && ByFamilyNamed(remote, remote.family, pseudo, list).reduced
    then ByFamilyNamed(remote, remote.family, pseudo, list)
    else ByFamilyNamed(remote, remote.designator, pseudo, list)
  }

  function ByAircraftOrFamily(remote: Model, pseudo: bool, list: Models, mode: Mode): Reduction {
    var r := ByAircraft(remote, list);
    if r.reduced || !mode.byFamily then r else ByFamily(remote, pseudo, list)
  }

  function ByAirline(remote: Model, list: Models, mode: Mode): Reduction {
    if list == [] || !IsValidAirline(remote.airline) then Unreduced(list)
    else
      var own := FindBy(list, Airline(remote.airline));
      var withGroup := mode.GroupSameAsAirline() || own == [] || mode.GroupIfNoAirline();
      var found := if withGroup && remote.group >= 0 && remote.groupDesignator != ""
                   then ReplaceOrAdd(own, FindBy(list, AirlineGroup(remote.group))) else own;
      if found == [] then Unreduced(list) else Reduction(found, true)
  }

  /** By airline and aircraft in the order of the setup. The search by family and airline forgets to tell that it
      reduced. */
  function ByIcaoData(remote: Model, list: Models, mode: Mode, before: bool): Reduction {
    if list == [] then Reduction(list, before)
    else if mode.AirlineFirst() then
      var r1 := ByAirline(remote, list, mode);
      var r2 := ByAircraftOrFamily(remote, true, r1.list, mode);
      if r1.reduced || r2.reduced then Reduction(r2.list, true) else Unreduced(list)
    else if mode.byIcaoData then
      var r1 := ByAircraftOrFamily(remote, true, list, mode);
      var r2 := ByAirline(remote, r1.list, mode);
      var r3 := ByAirline(remote, ByFamily(remote, true, list).list, mode);
      if IsValidAirline(remote.airline) && !r2.reduced && mode.byFamily && r3.reduced then Unreduced(r3.list)
      else if r1.reduced || r2.reduced then Reduction(r2.list, true)
      else Unreduced(list)
    else Unreduced(list)
  }

  function ByMilitaryFlag(remote: Model, list: Models): Reduction {
    Unreduced(Narrow(list, MilitaryFlag(remote.military)).list)
  }

  function ByCombinedType(remote: Model, list: Models, mode: Mode): Reduction {
    if !IsValidCombinedType(remote.combinedType) then Unreduced(list)
    else Refined(remote, list, FindBy(list, CombinedType(remote.combinedType)), mode)
  }

  /** Several models of the type are narrowed further by airline and manufacturer. */
  function Refined(remote: Model, list: Models, found: Models, mode: Mode): Reduction {
    if found == [] then Unreduced(list)
    else if |found| == 1 then Unreduced(found)
    else Reduction(ByManufacturer(remote, ByAirline(remote, found, mode).list).list, true)
  }

  predicate IsGlider(remote: Model, cats: Categories) {
    || remote.designator == "GLID"
    || (cats.gliderLevel.Some? && cats.gliderLevel.value >= 0 && remote.category.Some?
        && remote.category.value.firstLevel == cats.gliderLevel.value)
  }

  function Related(tree: map<Category, set<Category>>, c: Category): set<Category> {
    if c in tree then tree[c] else {}
  }

  const GLIDER_SUBSTITUTES: set<string> := {"UHEL", "GLID", "ULAC"}

  /** The nearest gliders of the whole set: same category, parallel branch, siblings, any. */
  function NearestGliders(models: Models, gliders: Models, category: Category, cats: Categories): Models {
    var same := FindBy(gliders, CategoryIn({category}));
    var parallel := FindBy(gliders, CategoryIn(Related(cats.parallel, category)));
    var siblings := FindBy(models, CategoryIn(Related(cats.siblings, category)));
    if same != [] then same else if parallel != [] then parallel else if siblings != [] then siblings else gliders
  }

  /** Gliders are searched in the whole set, everything else stays as it is. */
  function ByCategories(remote: Model, matched: Models, models: Models, mode: Mode, cats: Categories): Reduction {
    if !mode.UsesCategories() || !cats.known || remote.category.None? then Unreduced(matched)
    else if cats.gliderLevel.None? || !mode.byCategoryGlider || !IsGlider(remote, cats) then Unreduced(matched)
    else
      var gliders := FindBy(models, CategoryLevel(cats.gliderLevel.value));
      if gliders != [] then Reduction(NearestGliders(models, gliders, remote.category.value, cats), true)
      else
        var substitutes := Narrow(matched, DesignatorOrFamilyWithColor(GLIDER_SUBSTITUTES));
        if substitutes.reduced then substitutes else Narrow(matched, CombinedType("L1P"))
  }

  // --- stepwise reduction

  function LiveryStep(remote: Model, r: Reduction, mode: Mode): Reduction {
    if mode.byLivery then ByLiveryAndAircraft(remote, r.list) else r
  }

  /** Without ICAO data, the family is only looked at if the reduction is logged. */
  function IcaoStep(remote: Model, r: Reduction, mode: Mode, logged: bool): Reduction {
    if mode.byIcaoData then ByIcaoData(remote, r.list, mode, r.reduced)
    else if logged && mode.byFamily then ByFamily(remote, true, r.list)
    else r
  }

  function CategoryStep(remote: Model, r: Reduction, models: Models, mode: Mode, cats: Categories): Reduction {
    if mode.UsesCategories() then ByCategories(remote, r.list, models, mode, cats) else r
  }

  function VtolStep(remote: Model, r: Reduction, mode: Mode): Reduction {
    if !r.reduced && remote.vtol && FindBy(r.list, Vtol) != [] && mode.byVtol
        then Reduction(FindBy(r.list, Vtol), r.reduced) else r
  }

  function MilitaryStep(remote: Model, r: Reduction, mode: Mode): Reduction {
    if (mode.byMilitary && remote.military) || (mode.byCivilian && !remote.military)
        then ByMilitaryFlag(remote, r.list) else r
  }

  function CombinedStep(remote: Model, r: Reduction, mode: Mode): Reduction {
    if mode.byCombinedType then ByCombinedType(remote, r.list, mode) else r
  }

  /** The steps after the ICAO data, none of which ends the reduction early. */
  function LaterSteps(remote: Model, r: Reduction, models: Models, mode: Mode, cats: Categories): Models {
    var categorised := CategoryStep(remote, r, models, mode, cats);
    CombinedStep(remote, MilitaryStep(remote, VtolStep(remote, categorised, mode), mode), mode).list
  }

  function AllSteps(remote: Model, models: Models, mode: Mode, cats: Categories, logged: bool): Models {
    var r1 := LiveryStep(remote, Unreduced(models), mode);
    if mode.byLivery && r1.reduced then r1.list
    else
      var r2 := IcaoStep(remote, r1, mode, logged);
      if !mode.byIcaoData && logged && mode.byFamily && r2.reduced then r2.list
      else LaterSteps(remote, r2, models, mode, cats)
  }

  function StepwiseReduce(remote: Model, models: Models, mode: Mode, cats: Categories, logged: bool): Models {
    var list := AllSteps(remote, models, mode, cats, logged);
    if |list| > 1 && mode.byManufacturer then ByManufacturer(remote, list).list else list
  }

  // --- safety

  /** Nothing is invented and not everything is lost; models with strings are not duplicated either. */
  ghost predicate IsSafe(list: Models, result: Models) {
    && (forall m :: m in result ==> m in list)
    && (list != [] ==> result != [])
    && (AllHaveStrings(list) ==> multiset(result) <= multiset(list))
  }

  lemma SafeTransitive(a: Models, b: Models, c: Models)
    requires IsSafe(a, b) && IsSafe(b, c)
    ensures IsSafe(a, c)
  {
  }

  lemma NarrowIsSafe(list: Models, c: Criterion)
    ensures IsSafe(list, Narrow(list, c).list)
    ensures Narrow(list, c).reduced <==> exists m :: m in list && Meets(m, c)
    ensures Narrow(list, c).reduced ==> forall m :: m in Narrow(list, c).list ==> Meets(m, c)
  {
    FindByFinds(list, c);
    if FindBy(list, c) != [] { assert FindBy(list, c)[0] in FindBy(list, c); }
  }

  ghost predicate IsPart(list: Models, part: Models) {
    (forall m :: m in part ==> m in list) && multiset(part) <= multiset(list)
  }

  lemma FoundIsPart(list: Models, c: Criterion)
    ensures IsPart(list, FindBy(list, c))
  {
    FindByFinds(list, c);
  }

  /** Two parts joined without the strings of one of them in the other. */
  lemma JoinIsSafe(list: Models, a: Models, b: Models)
    requires IsPart(list, a) && IsPart(list, b) && b != []
    ensures IsSafe(list, WithoutStringsOf(a, b) + b) && IsSafe(list, b + WithoutStringsOf(a, b))
  {
    FoundIsPart(a, StringNotIn(ModelStrings(b)));
    if AllHaveStrings(list) { PartsFit(list, a, b); }
  }

  lemma JoinedIsSafe(list: Models, found: Models, alike: Models)
    requires IsPart(list, found) && IsPart(list, alike)
    ensures IsSafe(list, Joined(list, found, alike).list)
  {
    if found != [] { JoinIsSafe(list, alike, found); }
  }

  lemma FamilyNamedIsSafe(remote: Model, family: string, pseudo: bool, list: Models)
    ensures IsSafe(list, ByFamilyNamed(remote, family, pseudo, list).list)
  {
    var c := CombinedAndManufacturer(remote.combinedType, remote.manufacturer);
    FoundIsPart(list, Family(family));
    FoundIsPart(list, c);
    JoinedIsSafe(list, FindBy(list, Family(family)), FindBy(list, c));
    JoinedIsSafe(list, FindBy(list, Family(family)), []);
  }

  lemma FamilyIsSafe(remote: Model, pseudo: bool, list: Models)
    ensures IsSafe(list, ByFamily(remote, pseudo, list).list)
  {
    FamilyNamedIsSafe(remote, remote.family, pseudo, list);
    FamilyNamedIsSafe(remote, remote.designator, pseudo, list);
  }

  lemma AircraftOrFamilyIsSafe(remote: Model, pseudo: bool, list: Models, mode: Mode)
    ensures IsSafe(list, ByAircraftOrFamily(remote, pseudo, list, mode).list)
  {
    NarrowIsSafe(list, Designator(remote.designator));
    FamilyIsSafe(remote, pseudo, list);
  }

  lemma AirlineIsSafe(remote: Model, list: Models, mode: Mode)
    ensures IsSafe(list, ByAirline(remote, list, mode).list)
  {
    var own, group := FindBy(list, Airline(remote.airline)), FindBy(list, AirlineGroup(remote.group));
    FoundIsPart(list, Airline(remote.airline));
    FoundIsPart(list, AirlineGroup(remote.group));
    if group != [] { JoinIsSafe(list, own, group); }
  }

  lemma IcaoDataIsSafe(remote: Model, list: Models, mode: Mode, before: bool)
    ensures IsSafe(list, ByIcaoData(remote, list, mode, before).list)
  {
    if mode.AirlineFirst() {
      var first := ByAirline(remote, list, mode).list;
      AirlineIsSafe(remote, list, mode);
      AircraftOrFamilyIsSafe(remote, true, first, mode);
      SafeTransitive(list, first, ByAircraftOrFamily(remote, true, first, mode).list);
    } else {
      var first, family := ByAircraftOrFamily(remote, true, list, mode).list, ByFamily(remote, true, list).list;
      AircraftOrFamilyIsSafe(remote, true, list, mode);
      AirlineIsSafe(remote, first, mode);
      SafeTransitive(list, first, ByAirline(remote, first, mode).list);
      FamilyIsSafe(remote, true, list);
      AirlineIsSafe(remote, family, mode);
      SafeTransitive(list, family, ByAirline(remote, family, mode).list);
    }
  }

  lemma CombinedTypeIsSafe(remote: Model, list: Models, mode: Mode)
    ensures IsSafe(list, ByCombinedType(remote, list, mode).list)
  {
    FoundIsPart(list, CombinedType(remote.combinedType));
    RefinedIsSafe(remote, list, FindBy(list, CombinedType(remote.combinedType)), mode);
  }

  lemma RefinedIsSafe(remote: Model, list: Models, found: Models, mode: Mode)
    requires IsPart(list, found)
    ensures IsSafe(list, Refined(remote, list, found, mode).list)
  {
    var ofAirline := ByAirline(remote, found, mode).list;
    AirlineIsSafe(remote, found, mode);
    NarrowIsSafe(ofAirline, Manufacturer(remote.manufacturer));
    SafeTransitive(found, ofAirline, ByManufacturer(remote, ofAirline).list);
    if found != [] {
      assert IsSafe(list, found);
      SafeTransitive(list, found, ByManufacturer(remote, ofAirline).list);
    }
  }

  lemma NearestGlidersAreSafe(models: Models, level: int, category: Category, cats: Categories)
    requires FindBy(models, CategoryLevel(level)) != []
    ensures IsSafe(models, NearestGliders(models, FindBy(models, CategoryLevel(level)), category, cats))
  {
    var gliders := FindBy(models, CategoryLevel(level));
    FindByFinds(models, CategoryLevel(level));
    FindByFinds(gliders, CategoryIn({category}));
    FindByFinds(gliders, CategoryIn(Related(cats.parallel, category)));
    FindByFinds(models, CategoryIn(Related(cats.siblings, category)));
  }

  /** Relative to the whole set, because gliders are taken from there. */
  lemma CategoriesAreSafe(remote: Model, matched: Models, models: Models, mode: Mode, cats: Categories)
    requires IsSafe(models, matched)
    ensures IsSafe(models, ByCategories(remote, matched, models, mode, cats).list)
  {
    var substitutes, l1p := Narrow(matched, DesignatorOrFamilyWithColor(GLIDER_SUBSTITUTES)).list,
        Narrow(matched, CombinedType("L1P")).list;
    assert IsSafe(models, substitutes) by {
      NarrowIsSafe(matched, DesignatorOrFamilyWithColor(GLIDER_SUBSTITUTES));
      SafeTransitive(models, matched, substitutes);
    }
    assert IsSafe(models, l1p) by {
      NarrowIsSafe(matched, CombinedType("L1P"));
      SafeTransitive(models, matched, l1p);
    }
    if cats.gliderLevel.Some? && remote.category.Some? && FindBy(models, CategoryLevel(cats.gliderLevel.value)) != [] {
      NearestGlidersAreSafe(models, cats.gliderLevel.value, remote.category.value, cats);
    }
  }

  lemma LaterStepsAreSafe(remote: Model, r: Reduction, models: Models, mode: Mode, cats: Categories)
    requires IsSafe(models, r.list)
    ensures IsSafe(models, LaterSteps(remote, r, models, mode, cats))
  {
    var categorised := CategoryStep(remote, r, models, mode, cats);
    CategoriesAreSafe(remote, r.list, models, mode, cats);
    var hovering := VtolStep(remote, categorised, mode);
    FindByFinds(categorised.list, Vtol);
    SafeTransitive(models, categorised.list, hovering.list);
    var sided := MilitaryStep(remote, hovering, mode);
    NarrowIsSafe(hovering.list, MilitaryFlag(remote.military));
    SafeTransitive(models, hovering.list, sided.list);
    CombinedTypeIsSafe(remote, sided.list, mode);
    SafeTransitive(models, sided.list, CombinedStep(remote, sided, mode).list);
  }

  lemma FirstStepsAreSafe(remote: Model, models: Models, mode: Mode, logged: bool)
    ensures var r1 := LiveryStep(remote, Unreduced(models), mode);
            IsSafe(models, r1.list) && IsSafe(models, IcaoStep(remote, r1, mode, logged).list)
  {
    var r1 := LiveryStep(remote, Unreduced(models), mode);
    assert IsSafe(models, r1.list) by { NarrowIsSafe(models, DesignatorAndLivery(remote.livery, remote.designator)); }
    var r2 := IcaoStep(remote, r1, mode, logged);
    if mode.byIcaoData {
      IcaoDataIsSafe(remote, r1.list, mode, r1.reduced);
    } else {
      FamilyIsSafe(remote, true, r1.list);
    }
    assert IsSafe(r1.list, r2.list);
    SafeTransitive(models, r1.list, r2.list);
  }

  lemma AllStepsAreSafe(remote: Model, models: Models, mode: Mode, cats: Categories, logged: bool)
    ensures IsSafe(models, AllSteps(remote, models, mode, cats, logged))
  {
    var r1 := LiveryStep(remote, Unreduced(models), mode);
    var r2 := IcaoStep(remote, r1, mode, logged);
    FirstStepsAreSafe(remote, models, mode, logged);
    LaterStepsAreSafe(remote, r2, models, mode, cats);
  }

  /** For every combination of mode flags, the stepwise reduction of a non-empty set is a non-empty part of it. */
  lemma StepwiseReductionIsSafe(remote: Model, models: Models, mode: Mode, cats: Categories, logged: bool)
    ensures IsSafe(models, StepwiseReduce(remote, models, mode, cats, logged))
  {
    var list := AllSteps(remote, models, mode, cats, logged);
    AllStepsAreSafe(remote, models, mode, cats, logged);
    NarrowIsSafe(list, Manufacturer(remote.manufacturer));
    SafeTransitive(models, list, StepwiseReduce(remote, models, mode, cats, logged));
  }
}
