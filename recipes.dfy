/** The orientation recipe table and the menu lookups around it.

    A recipe gives the three lattice directions `a`, `b`, `c` of one domain
    slab in the bulk lattice basis, and the axis along which the two domain
    slabs of a wall are stacked. The table maps a space-group family and a
    domain-wall type to the recipes of the wall's two domains. */
module Recipes {
  import opened Common

  /** The domain-wall types; the Pmc2_1 ones are chosen by the digits 1-4. */
  datatype DomainWallAngle =
    | R180 | R71 | R109 | T180 | T90 | FDW
    | O120_HH_TT | O120_HT | O180 | O90 | ALL

  /** The text the user types to choose a wall type. */
  function Value(angle: DomainWallAngle): string
  {
    match angle
    case R180 => "R180"
    case R71 => "R71"
    case R109 => "R109"
    case T180 => "T180"
    case T90 => "T90"
    case FDW => "FDW"
    case O120_HH_TT => "1"
    case O120_HT => "2"
    case O180 => "3"
    case O90 => "4"
    case ALL => "ALL"
  }

  /** `list(DomainWallAngle)`: every member, in declaration order. */
  const AllAngles: seq<DomainWallAngle> :=
    [R180, R71, R109, T180, T90, FDW, O120_HH_TT, O120_HT, O180, O90, ALL]

  /** `DomainWallAngle(text)`: the member whose value is `text`, or `None`
      where Python raises `ValueError`. */
  function AngleOfValue(text: string): (r: Option<DomainWallAngle>)
    ensures r.Some? ==> Value(r.value) == text
    ensures r.None? ==> forall angle :: Value(angle) != text
  {
    if text == "R180" then Some(R180)
    else if text == "R71" then Some(R71)
    else if text == "R109" then Some(R109)
    else if text == "T180" then Some(T180)
    else if text == "T90" then Some(T90)
    else if text == "FDW" then Some(FDW)
    else if text == "1" then Some(O120_HH_TT)
    else if text == "2" then Some(O120_HT)
    else if text == "3" then Some(O180)
    else if text == "4" then Some(O90)
    else if text == "ALL" then Some(ALL)
    else None
  }

  /** Typing a member's value selects that member. */
  lemma AngleOfValueRoundTrip(angle: DomainWallAngle)
    ensures AngleOfValue(Value(angle)) == Some(angle)
  {
  }

  /** The space groups the tools know, in menu order. */
  datatype SpaceGroup = R3c | R3m | P4mm | Pmc2_1 | Pnma | P6_3cm

  /** The menu order `["R3c", "R3m", "P4mm", "Pmc2_1", "Pnma", "P6_3cm"]`. */
  const SpaceGroupOrder: seq<SpaceGroup> := [R3c, R3m, P4mm, Pmc2_1, Pnma, P6_3cm]

  /** The international symbol of a space group. */
  function Symbol(g: SpaceGroup): string
  {
    match g
    case R3c => "R3c"
    case R3m => "R3m"
    case P4mm => "P4mm"
    case Pmc2_1 => "Pmc2_1"
    case Pnma => "Pnma"
    case P6_3cm => "P6_3cm"
  }

  /** One recipe: three lattice directions and the stacking axis. */
  datatype Recipe = Recipe(a: Vec3, b: Vec3, c: Vec3, stackAxis: nat)

  /** Direction `k` (0 for a, 1 for b, 2 for c) of a recipe. */
  function Direction(r: Recipe, k: nat): Vec3
    requires k < 3
  {
    if k == 0 then r.a else if k == 1 then r.b else r.c
  }

  /** One key of a family's table and its recipes. */
  datatype WallEntry = WallEntry(angle: DomainWallAngle, recipes: seq<Recipe>)

  /** The shape every table entry has: a domain pair of two recipes that
      stack along the same axis, one of a, b, c. */
  predicate IsDomainPair(recipes: seq<Recipe>)
  {
    |recipes| == 2 && recipes[0].stackAxis == recipes[1].stackAxis && recipes[0].stackAxis < 3
  }

  /** The wall types of a family's table, in key order. */
  function WallTypes(family: seq<WallEntry>): (r: seq<DomainWallAngle>)
    ensures |r| == |family|
    ensures forall t :: 0 <= t < |family| ==> r[t] == family[t].angle
  {
    if |family| == 0 then [] else [family[0].angle] + WallTypes(family[1..])
  }

  /** A family's table: every entry is a domain pair, no key is repeated
      and `ALL` is not a key. */
  predicate WellFormedFamily(family: seq<WallEntry>)
  {
    && |family| > 0
    && (forall t :: 0 <= t < |family| ==> IsDomainPair(family[t].recipes) && family[t].angle != ALL)
    && (forall s, t :: 0 <= s < t < |family| ==> family[s].angle != family[t].angle)
  }

  /** `get_angles_dict(domain_size)[family]`, or `None` where the lookup
      raises `KeyError` (the table has no `P6_3cm` key). */
  function AnglesDict(d: real, g: SpaceGroup): (r: Option<seq<WallEntry>>)
    ensures r.Some? <==> g != P6_3cm
    ensures r.Some? ==> WellFormedFamily(r.value)
  {
    match g
    case R3m => Some([
      WallEntry(R180, [
        Recipe(Vec3(1.0, 1.0, 0.0), Vec3(0.0, 0.0, 1.0), Vec3(d, -d, 0.0), 2),
        Recipe(Vec3(-1.0, -1.0, 0.0), Vec3(0.0, 0.0, -1.0), Vec3(d, -d, 0.0), 2)]),
      WallEntry(R71, [
        Recipe(Vec3(d, d, 0.0), Vec3(0.0, 0.0, 1.0), Vec3(1.0, -1.0, 0.0), 0),
        Recipe(Vec3(d, d, 0.0), Vec3(0.0, 0.0, -1.0), Vec3(-1.0, 1.0, 0.0), 0)]),
      WallEntry(R109, [
        Recipe(Vec3(d, 0.0, 0.0), Vec3(0.0, 1.0, 0.0), Vec3(0.0, 0.0, 1.0), 0),
        Recipe(Vec3(d, 0.0, 0.0), Vec3(0.0, -1.0, 0.0), Vec3(0.0, 0.0, -1.0), 0)])])
    case R3c => Some([
      WallEntry(R109, [
        Recipe(Vec3(0.0, 1.0, 0.0), Vec3(1.0, 0.0, 0.0), Vec3(0.0, 0.0, d), 2),
        Recipe(Vec3(0.0, -1.0, 0.0), Vec3(-1.0, 0.0, 0.0), Vec3(0.0, 0.0, d), 2)]),
      WallEntry(R71, [
        Recipe(Vec3(1.0, -1.0, 0.0), Vec3(0.0, 0.0, 1.0), Vec3(d, d, 0.0), 2),
        Recipe(Vec3(-1.0, 1.0, 0.0), Vec3(0.0, 0.0, -1.0), Vec3(d, d, 0.0), 2)]),
      WallEntry(R180, [
        Recipe(Vec3(1.0, 1.0, 0.0), Vec3(0.0, 0.0, -1.0), Vec3(-d, d, 0.0), 2),
        Recipe(Vec3(-1.0, -1.0, 0.0), Vec3(0.0, 0.0, 1.0), Vec3(-d, d, 0.0), 2)])])
    case P4mm => Some([
      WallEntry(T180, [
        Recipe(Vec3(1.01, 0.0, 0.0), Vec3(0.0, d, 0.0), Vec3(0.0, 0.0, 1.01), 1),
        Recipe(Vec3(-1.01, 0.0, 0.0), Vec3(0.0, d, 0.0), Vec3(0.0, 0.0, -1.01), 1)]),
      WallEntry(T90, [
        Recipe(Vec3(0.0, 1.0, 0.0), Vec3(-1.0, 0.0, 1.0), Vec3(d, 0.0, d), 2),
        Recipe(Vec3(0.0, -1.0, 0.0), Vec3(1.0, 0.0, -1.0), Vec3(d, 0.0, d), 2)])])
    case Pnma => Some([
      WallEntry(FDW, [
        Recipe(Vec3(1.0, 1.0, 0.0), Vec3(0.0, 0.0, 1.0), Vec3(d, -d, 0.0), 2),
        Recipe(Vec3(-1.0, 1.0, 0.0), Vec3(0.0, 0.0, 1.0), Vec3(d, d, 0.0), 2)])])
    case Pmc2_1 => Some([
      WallEntry(O120_HH_TT, [
        Recipe(Vec3(-1.0, -2.0, 0.0), Vec3(2.0 * d, -1.0 * d, 0.0), Vec3(0.0, 0.0, 1.0), 1),
        Recipe(Vec3(-1.0, 2.0, 0.0), Vec3(-2.0 * d, -1.0 * d, 0.0), Vec3(0.0, 0.0, 1.0), 1)]),
      WallEntry(O120_HT, [
        Recipe(Vec3(-1.0 * d, -2.0 * d, 0.0), Vec3(2.0, -1.0, 0.0), Vec3(0.0, 0.0, 1.0), 0),
        Recipe(Vec3(-1.0 * d, 2.0 * d, 0.0), Vec3(-2.0, -1.0, 0.0), Vec3(0.0, 0.0, 1.0), 0)]),
      WallEntry(O180, [
        Recipe(Vec3(1.0, 0.0, 0.0), Vec3(0.0, d, 0.0), Vec3(0.0, 0.0, 1.0), 1),
        Recipe(Vec3(-1.0, 0.0, 0.0), Vec3(0.0, -d, 0.0), Vec3(0.0, 0.0, 1.0), 1)]),
      WallEntry(O90, [
        Recipe(Vec3(0.0, 1.0 * d, 0.0), Vec3(-1.0, 0.0, 0.0), Vec3(0.0, 0.0, 1.0), 0),
        Recipe(Vec3(-1.0 * d, 0.0, 0.0), Vec3(0.0, -1.0, 0.0), Vec3(0.0, 0.0, 1.0), 0)])])
    case P6_3cm => None
  }

  /** `here` is `unit` with its stacking direction scaled by `d`: same
      stacking axis, that direction `d` times the unit one, the other two
      directions equal. */
  predicate RecipeScales(here: Recipe, unit: Recipe, d: real)
  {
    && here.stackAxis == unit.stackAxis
    && here.a == (if unit.stackAxis == 0 then Scale(d, unit.a) else unit.a)
    && here.b == (if unit.stackAxis == 1 then Scale(d, unit.b) else unit.b)
    && here.c == (if unit.stackAxis == 2 then Scale(d, unit.c) else unit.c)
  }

  /** Two tables with the same keys in the same order whose recipes are
      related by `RecipeScales`. */
  predicate FamilyScales(here: seq<WallEntry>, unit: seq<WallEntry>, d: real)
  {
    && |here| == |unit|
    && forall t :: 0 <= t < |here| ==>
      && here[t].angle == unit[t].angle
      && |here[t].recipes| == |unit[t].recipes|
      && forall m :: 0 <= m < |here[t].recipes| ==> RecipeScales(here[t].recipes[m], unit[t].recipes[m], d)
  }

  /** The domain size enters every recipe only through its stacking
      direction, and linearly: at size `d` that direction is `d` times its
      value at size 1, and the other two directions do not depend on `d`.
      Keys are the same for every size. */
  lemma DomainSizeScalesStackingDirection(d: real, g: SpaceGroup)
    requires g != P6_3cm
    ensures FamilyScales(AnglesDict(d, g).value, AnglesDict(1.0, g).value, d)
  {
    match g
    case R3c => ScalesR3c(d);
    case R3m => ScalesR3m(d);
    case P4mm => ScalesP4mm(d);
    case Pmc2_1 => ScalesPmc21(d);
    case Pnma => ScalesPnma(d);
  }

  lemma ScalesR3c(d: real)
    ensures FamilyScales(AnglesDict(d, R3c).value, AnglesDict(1.0, R3c).value, d)
  {
    var here, unit := AnglesDict(d, R3c).value, AnglesDict(1.0, R3c).value;
    assert RecipeScales(here[0].recipes[0], unit[0].recipes[0], d);
    assert RecipeScales(here[0].recipes[1], unit[0].recipes[1], d);
    assert RecipeScales(here[1].recipes[0], unit[1].recipes[0], d);
    assert RecipeScales(here[1].recipes[1], unit[1].recipes[1], d);
    assert RecipeScales(here[2].recipes[0], unit[2].recipes[0], d);
    assert RecipeScales(here[2].recipes[1], unit[2].recipes[1], d);
  }

  lemma ScalesR3m(d: real)
    ensures FamilyScales(AnglesDict(d, R3m).value, AnglesDict(1.0, R3m).value, d)
  {
    var here, unit := AnglesDict(d, R3m).value, AnglesDict(1.0, R3m).value;
    assert RecipeScales(here[0].recipes[0], unit[0].recipes[0], d);
    assert RecipeScales(here[0].recipes[1], unit[0].recipes[1], d);
    assert RecipeScales(here[1].recipes[0], unit[1].recipes[0], d);
    assert RecipeScales(here[1].recipes[1], unit[1].recipes[1], d);
    assert RecipeScales(here[2].recipes[0], unit[2].recipes[0], d);
    assert RecipeScales(here[2].recipes[1], unit[2].recipes[1], d);
  }

  lemma ScalesP4mm(d: real)
    ensures FamilyScales(AnglesDict(d, P4mm).value, AnglesDict(1.0, P4mm).value, d)
  {
    var here, unit := AnglesDict(d, P4mm).value, AnglesDict(1.0, P4mm).value;
    assert RecipeScales(here[0].recipes[0], unit[0].recipes[0], d);
    assert RecipeScales(here[0].recipes[1], unit[0].recipes[1], d);
    assert RecipeScales(here[1].recipes[0], unit[1].recipes[0], d);
    assert RecipeScales(here[1].recipes[1], unit[1].recipes[1], d);
  }

  lemma ScalesPmc21(d: real)
    ensures FamilyScales(AnglesDict(d, Pmc2_1).value, AnglesDict(1.0, Pmc2_1).value, d)
  {
    var here, unit := AnglesDict(d, Pmc2_1).value, AnglesDict(1.0, Pmc2_1).value;
    assert RecipeScales(here[0].recipes[0], unit[0].recipes[0], d);
    assert RecipeScales(here[0].recipes[1], unit[0].recipes[1], d);
    assert RecipeScales(here[1].recipes[0], unit[1].recipes[0], d);
    assert RecipeScales(here[1].recipes[1], unit[1].recipes[1], d);
    assert RecipeScales(here[2].recipes[0], unit[2].recipes[0], d);
    assert RecipeScales(here[2].recipes[1], unit[2].recipes[1], d);
    assert RecipeScales(here[3].recipes[0], unit[3].recipes[0], d);
    assert RecipeScales(here[3].recipes[1], unit[3].recipes[1], d);
  }

  lemma ScalesPnma(d: real)
    ensures FamilyScales(AnglesDict(d, Pnma).value, AnglesDict(1.0, Pnma).value, d)
  {
  }

  /** `get_system_selection`: the menu number of a recognised international
      symbol, 7 (manual orientation) for any other. */
  function SystemSelection(symbol: string): (r: nat)
    ensures 1 <= r <= 7
    ensures r <= 6 ==> Symbol(SpaceGroupOrder[r - 1]) == symbol
    ensures r == 7 <==> forall g :: Symbol(g) != symbol
  {
    if symbol == "R3c" then 1
    else if symbol == "R3m" then 2
    else if symbol == "P4mm" then 3
    else if symbol == "Pmc2_1" then 4
    else if symbol == "Pnma" then 5
    else if symbol == "P6_3cm" then 6
    else 7
  }

  /** `space_groups[selection - 1]` with Python's indexing: negative
      indices count from the end, anything outside `-6..5` raises. */
  function SpaceGroupOfSelection(selection: int): (r: Result<SpaceGroup, RunError>)
    ensures r.Ok? <==> -5 <= selection <= 6
    ensures 1 <= selection <= 6 ==> r == Ok(SpaceGroupOrder[selection - 1])
    ensures -5 <= selection <= 0 ==> r == Ok(SpaceGroupOrder[selection + 5])
  {
    var i := selection - 1;
    if 0 <= i < 6 then Ok(SpaceGroupOrder[i])
    else if -6 <= i < 0 then Ok(SpaceGroupOrder[6 + i])
    else Err(IndexError)
  }

  /** The detected symbol's menu number picks the same space group back out
      of the menu list. */
  lemma SelectionRoundTrip(g: SpaceGroup)
    ensures SpaceGroupOfSelection(SystemSelection(Symbol(g))) == Ok(g)
  {
  }

  /** One line of the wall-type menu: a wall type, or the name of a
      separate builder script (for P6_3cm). */
  datatype MenuEntry = Wall(angle: DomainWallAngle) | Builder(name: string)

  /** `get_valid_angles` for a menu number. */
  function ValidAngles(selection: int): (r: seq<MenuEntry>)
    ensures Wall(ALL) in r <==> selection != 5 && selection != 6
    ensures |r| > 0 && (r[0].Builder? <==> selection == 6)
    ensures !(1 <= selection <= 6) ==>
      |r| == |AllAngles| && forall i :: 0 <= i < |r| ==> r[i] == Wall(AllAngles[i])
  {
    if selection == 1 then [Wall(R180), Wall(R71), Wall(R109), Wall(ALL)]
    else if selection == 2 then [Wall(R180), Wall(R71), Wall(R109), Wall(ALL)]
    else if selection == 3 then [Wall(T180), Wall(T90), Wall(ALL)]
    else if selection == 4 then [Wall(O120_HH_TT), Wall(O120_HT), Wall(O180), Wall(O90), Wall(ALL)]
    else if selection == 5 then [Wall(FDW)]
    else if selection == 6 then [Builder("NDW"), Builder("CDW")]
    else [Wall(R180), Wall(R71), Wall(R109), Wall(T180), Wall(T90), Wall(FDW),
          Wall(O120_HH_TT), Wall(O120_HT), Wall(O180), Wall(O90), Wall(ALL)]
  }

  /** For the five families with a table, the menu offers exactly the
      table's wall types, plus `ALL` except for Pnma. */
  lemma ValidAnglesMatchTable(selection: int, d: real)
    requires 1 <= selection <= 5
    ensures forall angle :: angle != ALL ==>
      (Wall(angle) in ValidAngles(selection) <==>
       angle in WallTypes(AnglesDict(d, SpaceGroupOrder[selection - 1]).value))
  {
    var g := SpaceGroupOrder[selection - 1];
    TableWallTypes(d, g);
    forall angle | angle != ALL
      ensures Wall(angle) in ValidAngles(selection) <==> angle in WallTypes(AnglesDict(d, g).value)
    {
    }
  }

  /** The keys of each family's table, in order. */
  lemma TableWallTypes(d: real, g: SpaceGroup)
    requires g != P6_3cm
    ensures WallTypes(AnglesDict(d, g).value) ==
      match g
      case R3c => [R109, R71, R180]
      case R3m => [R180, R71, R109]
      case P4mm => [T180, T90]
      case Pmc2_1 => [O120_HH_TT, O120_HT, O180, O90]
      case _ => [FDW]
  {
  }
}
