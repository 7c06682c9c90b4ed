/** Per-run usage caps on main ingredients and categories, and the draw weights. */
module Constraints {
  import opened Outcome
  import opened Menus

  /** Cap per main ingredient and per category; a key without an entry is unbounded. */
  datatype Caps = Caps(ingredient: map<string, nat>, category: map<string, nat>)

  const Seafood: string := "海鮮"
  const Beef: string := "牛肉"
  const Pork: string := "豚肉"
  const Chicken: string := "鶏肉"
  const CurryStew: string := "カレー・シチュー"
  const CookDo: string := "クックドゥ"
  const HotPot: string := "鍋"

  /** The caps of the current selector: 2/2/3/3 on ingredients, three categories at 1. */
  const AppCaps: Caps := Caps(
    map[Seafood := 2, Beef := 2, Pork := 3, Chicken := 3],
    map[CurryStew := 1, CookDo := 1, HotPot := 1])

  /** The caps of the chat-bot selector: hot pot is not capped. */
  const OldCaps: Caps := Caps(
    map[Seafood := 2, Beef := 2, Pork := 3, Chicken := 3],
    map[CurryStew := 1, CookDo := 1])

  /** The caps of the first selector: every capped ingredient at 2. */
  const LibCaps: Caps := Caps(
    map[Seafood := 2, Beef := 2, Pork := 2, Chicken := 2],
    map[CurryStew := 1, CookDo := 1])

  /** Dishes of `week` with this main ingredient. */
  function IngredientCount(week: seq<Menu>, ingredient: string): (n: nat)
    ensures n <= |week|
  {
    if |week| == 0 then 0
    else
      IngredientCount(week[..|week| - 1], ingredient)
        + (if week[|week| - 1].mainIngredient == ingredient then 1 else 0)
  }

  /** The category counter is bumped only for a truthy category: present and non-empty. */
  predicate CountsTowards(m: Menu, category: string)
  {
    m.category == Some(category) && category != ""
  }

  /** Dishes of `week` that bumped this category's counter. */
  function CategoryCount(week: seq<Menu>, category: string): (n: nat)
    ensures n <= |week|
  {
    if |week| == 0 then 0
    else
      CategoryCount(week[..|week| - 1], category)
        + (if CountsTowards(week[|week| - 1], category) then 1 else 0)
  }

  /** Adding `m` to the dishes chosen so far keeps every capped count within its cap. */
  predicate Admissible(m: Menu, chosen: seq<Menu>, caps: Caps)
  {
    && (m.mainIngredient in caps.ingredient ==>
          IngredientCount(chosen, m.mainIngredient) < caps.ingredient[m.mainIngredient])
    && (m.category.Some? && m.category.value in caps.category ==>
          CategoryCount(chosen, m.category.value) < caps.category[m.category.value])
  }

  /** No capped ingredient and no capped category is used more often than its cap allows. */
  predicate CapsRespected(week: seq<Menu>, caps: Caps)
  {
    && (forall k :: k in caps.ingredient ==> IngredientCount(week, k) <= caps.ingredient[k])
    && (forall k :: k in caps.category ==> CategoryCount(week, k) <= caps.category[k])
  }

  /** Admission is exactly the test that the caps still hold once `m` joins the dishes chosen
      so far, provided they held before and no cap is keyed by the empty category (a dish
      with category "" is tested against such a cap but never counted towards it). */
  lemma AdmissibleKeepsCaps(m: Menu, chosen: seq<Menu>, caps: Caps)
    requires CapsRespected(chosen, caps)
    requires "" !in caps.category
    ensures Admissible(m, chosen, caps) <==> CapsRespected(chosen + [m], caps)
  {
  }

  /** `tight` caps every key `loose` caps, at most as high. */
  predicate AtLeastAsStrict(tight: Caps, loose: Caps)
  {
    && (forall k :: k in loose.ingredient ==> k in tight.ingredient && tight.ingredient[k] <= loose.ingredient[k])
    && (forall k :: k in loose.category ==> k in tight.category && tight.category[k] <= loose.category[k])
  }

  /** How the three selectors' caps compare: the current and the first selector are each at
      least as strict as the chat-bot selector, the chat-bot selector is looser than the
      current one (hot pot), and the current one is looser than the first (pork, chicken).
      So every week within the current or the first selector's caps is within the chat-bot's. */
  lemma CapVariantsCompare()
    ensures AtLeastAsStrict(AppCaps, OldCaps) && AtLeastAsStrict(LibCaps, OldCaps)
    ensures !AtLeastAsStrict(OldCaps, AppCaps) && !AtLeastAsStrict(AppCaps, LibCaps)
    ensures forall week :: CapsRespected(week, AppCaps) ==> CapsRespected(week, OldCaps)
    ensures forall week :: CapsRespected(week, LibCaps) ==> CapsRespected(week, OldCaps)
  {
    assert HotPot !in OldCaps.category;
    assert AppCaps.ingredient[Pork] > LibCaps.ingredient[Pork];
  }

  /** Which of the two weight formulas a selector uses. */
  datatype WeightRule = Override | CappedProduct

  /** The current selector: weight 5 for a holiday-only dish on a weekend, then overridden
      to 5 for a non-storable dish on today or tomorrow, otherwise 1. */
  function OverrideWeight(m: Menu, isWeekend: bool, idx: nat): (w: nat)
    ensures w == 1 || w == 5
    ensures w == 5 <==> (m.holidayOnly && isWeekend) || (m.notStorable && idx <= 1)
  {
    var holidayWeight := if m.holidayOnly && isWeekend then 5 else 1;
    if m.notStorable && (idx == 0 || idx == 1) then 5 else holidayWeight
  }

  function Min(a: int, b: int): int
  {
    if a <= b then a else b
  }

  /** The earlier selectors: the product of the two boosts, capped at 5. It always equals the
      override formula. */
  function CappedProductWeight(m: Menu, isWeekend: bool, idx: nat): (w: nat)
    ensures w == OverrideWeight(m, isWeekend, idx)
  {
    var holidayBoost := if m.holidayOnly && isWeekend then 5 else 1;
    var freshBoost := if m.notStorable && (idx == 0 || idx == 1) then 5 else 1;
    Min(holidayBoost * freshBoost, 5)
  }

  function Weight(rule: WeightRule, m: Menu, isWeekend: bool, idx: nat): nat
  {
    match rule
    case Override => OverrideWeight(m, isWeekend, idx)
    case CappedProduct => CappedProductWeight(m, isWeekend, idx)
  }
}
