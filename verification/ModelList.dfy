/** Lists of aircraft models and their finders. Designators, codes and manufacturers are kept in the normal form their
    setters produce (trimmed, upper case); model strings are compared without regard to case. */
module ModelList {
  import opened Common

  datatype Category = Category(id: int, firstLevel: int)

  datatype ModelType = ManuallySet | ModelMatching | ModelMatchingDefault | OtherType

  /** `group` is negative for an airline without a group, `order` for a model without an order. */
  datatype Model = Model(
    modelString: string, alias: string,
    designator: string, family: string, combinedType: string, manufacturer: string, category: Option<Category>,
    airline: string, group: int, groupDesignator: string,
    livery: string, colorLivery: bool,
    military: bool, vtol: bool,
    hasDbKey: bool, excluded: bool, order: int,
    modelType: ModelType, callsign: Callsign)

  const NO_MODEL := Model("", "", "", "", "", "", None, "", -1, "", "", false, false, false, false, false, -1,
      OtherType, "")

  type Models = seq<Model>

  function LowerCase(c: char): char {
    if 'A' <= c <= 'Z' then c - 'A' + 'a' else c
  }

  /** The key of a model string in comparisons. */
  function Fold(s: string): string {
    seq(|s|, i requires 0 <= i < |s| => LowerCase(s[i]))
  }

  datatype Criterion =
    | HasModelString
    | HasDbKey
    | NotExcluded
    | StringNotIn(keys: set<string>)
    | Designator(designator: string)
    | Airline(airline: string)
    | AirlineGroup(group: int)
    | DesignatorAndLivery(designator: string, livery: string)
    | Family(family: string)
    | CombinedType(combinedType: string)
    | Manufacturer(manufacturer: string)
    | CombinedAndManufacturer(combinedType: string, manufacturer: string)
    | MilitaryFlag(military: bool)
    | Vtol
    | ColorLivery
    | CategoryLevel(level: int)
    | CategoryIn(categories: set<Category>)
    | DesignatorOrFamilyWithColor(designators: set<string>)

  /** Aircraft type, number of engines and engine type; blank, dash and star are wildcards in the wanted code. */
  predicate MatchesCombinedType(mine: string, wanted: string) {
    && |wanted| == 3
    && (mine == Wildcards(wanted) ||
        (&& '*' in Wildcards(wanted)
         && (Wildcards(wanted)[0] == '*' || (|mine| >= 1 && mine[0] != '-' && mine[0] == wanted[0]))
         && (Wildcards(wanted)[1] == '*' || EnginesCount(mine) == DigitValue(wanted[1]))
         && (Wildcards(wanted)[2] == '*' || (|mine| == 3 && mine[2] == wanted[2]))))
  }

  function Wildcards(wanted: string): (r: string)
    ensures |r| == |wanted|
  {
    seq(|wanted|, i requires 0 <= i < |wanted| => if wanted[i] in {' ', '-'} then '*' else wanted[i])
  }

  function DigitValue(c: char): int {
    if '0' <= c <= '9' then c as int - '0' as int else -1
  }

  function EnginesCount(combinedType: string): int {
    if |combinedType| < 2 then -1 else DigitValue(combinedType[1])
  }

  predicate Meets(m: Model, c: Criterion) {
    match c
    case HasModelString => m.modelString != ""
    case HasDbKey => m.hasDbKey
    case NotExcluded => !m.excluded
    case StringNotIn(keys) => Fold(m.modelString) !in keys
    case Designator(d) => m.designator == d
    case Airline(a) => m.airline == a
    case AirlineGroup(g) => g >= 0 && m.group == g
    case DesignatorAndLivery(d, l) => d != "" && m.designator == d && l != "" && m.livery == l
    case Family(f) => f != "" && m.family == f
    case CombinedType(t) => MatchesCombinedType(m.combinedType, t)
    case Manufacturer(n) => n != "" && m.manufacturer == n
    case CombinedAndManufacturer(t, n) =>
      if n == "" then MatchesCombinedType(m.combinedType, t)
      else if t == "" then m.manufacturer == n
      else MatchesCombinedType(m.combinedType, t) && m.manufacturer == n
    case MilitaryFlag(b) => m.military == b
    case Vtol => m.vtol
    case ColorLivery => m.colorLivery
    case CategoryLevel(l) => l >= 0 && m.category.Some? && m.category.value.firstLevel == l
    case CategoryIn(cs) => m.category.Some? && m.category.value in cs
    case DesignatorOrFamilyWithColor(ds) => m.colorLivery && (m.designator in ds || (m.family != "" && m.family in ds))
  }

  function FindBy(list: Models, c: Criterion): Models {
    if list == [] then []
    else FindBy(list[..|list| - 1], c) + if Meets(list[|list| - 1], c) then [list[|list| - 1]] else []
  }

  lemma {:induction false} FindByCounts(list: Models, c: Criterion, m: Model)
    ensures multiset(FindBy(list, c))[m] == if Meets(m, c) then multiset(list)[m] else 0
  {
    if list != [] {
      var front, last := list[..|list| - 1], list[|list| - 1];
      FindByCounts(front, c, m);
      assert list == front + [last];
    }
  }

  lemma FindByFindsOne(list: Models, c: Criterion, m: Model)
    ensures m in FindBy(list, c) <==> m in list && Meets(m, c)
  {
    FindByCounts(list, c, m);
    assert m in FindBy(list, c) <==> m in multiset(FindBy(list, c));
    assert m in list <==> m in multiset(list);
  }

  lemma FindByFinds(list: Models, c: Criterion)
    ensures forall m :: m in FindBy(list, c) <==> m in list && Meets(m, c)
    ensures multiset(FindBy(list, c)) <= multiset(list)
  {
    forall m ensures multiset(FindBy(list, c))[m] == if Meets(m, c) then multiset(list)[m] else 0 {
      FindByCounts(list, c, m);
    }
    forall m ensures m in FindBy(list, c) <==> m in list && Meets(m, c) { FindByFindsOne(list, c, m); }
  }

  lemma {:induction false} NothingMeets(list: Models, c: Criterion)
    requires forall m :: m in list ==> !Meets(m, c)
    ensures FindBy(list, c) == []
  {
    if list != [] {
      assert list[|list| - 1] in list;
      NothingMeets(list[..|list| - 1], c);
    }
  }

  /** The keys of the models that have a string. */
  function ModelStrings(list: Models): set<string> {
    set m | m in list && m.modelString != "" :: Fold(m.modelString)
  }

  lemma NoStringIsNoKey(list: Models, m: Model)
    requires m.modelString == ""
    ensures Fold(m.modelString) !in ModelStrings(list)
  {
    forall x | x in list && x.modelString != "" ensures Fold(x.modelString) != Fold(m.modelString) {
      assert |Fold(x.modelString)| == |x.modelString|;
    }
  }

  function WithoutStringsOf(list: Models, removed: Models): Models {
    FindBy(list, StringNotIn(ModelStrings(removed)))
  }

  function ReplaceOrAdd(list: Models, added: Models): Models {
    if added == [] then list else if list == [] then added else WithoutStringsOf(list, added) + added
  }

  ghost predicate AllHaveStrings(list: Models) {
    forall m :: m in list ==> m.modelString != ""
  }

  /** Two parts of a list, the first one without the strings of the second, fit into the list together. */
  lemma PartsFit(list: Models, a: Models, b: Models)
    requires multiset(a) <= multiset(list) && multiset(b) <= multiset(list) && AllHaveStrings(b)
    ensures multiset(WithoutStringsOf(a, b) + b) <= multiset(list)
    ensures multiset(b + WithoutStringsOf(a, b)) <= multiset(list)
  {
    var rest := WithoutStringsOf(a, b);
    FindByFinds(a, StringNotIn(ModelStrings(b)));
    forall m ensures multiset(rest)[m] + multiset(b)[m] <= multiset(list)[m] {
      if m in b {
        assert Fold(m.modelString) in ModelStrings(b);
        assert m !in multiset(rest) by { assert m !in rest; }
      }
    }
  }
}
