/** The catalog entry and the filters every selector applies before choosing. */
module Menus {
  import opened Outcome
  import opened Seqs

  /** One main dish of the catalog. `interval` and `cookingMethod` are carried but never read. */
  datatype Menu = Menu(
    name: string,
    season: string,
    holidayOnly: bool,
    notStorable: bool,
    interval: int,
    cookingMethod: string,
    mainIngredient: string,
    category: Option<string>)

  const Summer: string := "夏"
  const Winter: string := "冬"
  const SummerMonths: set<int> := {6, 7, 8, 9}
  const WinterMonths: set<int> := {11, 12, 1, 2, 3}

  /** A dish suits the month: summer dishes only in June to September, winter dishes only
      in November to March, every other season tag always. */
  predicate InSeason(m: Menu, month: int)
  {
    && (m.season == Summer ==> month in SummerMonths)
    && (m.season == Winter ==> month in WinterMonths)
  }

  function InSeasonFn(month: int): Menu -> bool
  {
    (m: Menu) => InSeason(m, month)
  }

  function NotTagged(season: string): Menu -> bool
  {
    (m: Menu) => m.season != season
  }

  /** `filter_menu_by_season`: two independent passes, one per seasonal tag. */
  function SeasonFilter(ms: seq<Menu>, month: int): (r: seq<Menu>)
    ensures forall m :: m in r <==> m in ms && InSeason(m, month)
  {
    var afterSummer := if month !in SummerMonths then Select(ms, NotTagged(Summer)) else ms;
    if month !in WinterMonths then Select(afterSummer, NotTagged(Winter)) else afterSummer
  }

  /** The two passes amount to one order-preserving filter by `InSeason`. */
  lemma {:induction false} SeasonFilterKeepsOrder(ms: seq<Menu>, month: int)
    ensures SeasonFilter(ms, month) == Select(ms, InSeasonFn(month))
    ensures IsSubsequence(SeasonFilter(ms, month), ms)
    ensures forall m ::
      multiset(SeasonFilter(ms, month))[m] == if InSeason(m, month) then multiset(ms)[m] else 0
  {
    if month !in SummerMonths && month !in WinterMonths {
      SelectSelect(ms, NotTagged(Summer), NotTagged(Winter));
      SelectCongruent(ms, Both(NotTagged(Summer), NotTagged(Winter)), InSeasonFn(month));
    } else if month !in SummerMonths {
      SelectCongruent(ms, NotTagged(Summer), InSeasonFn(month));
    } else {
      SelectCongruent(ms, NotTagged(Winter), InSeasonFn(month));
    }
    SelectIsSubsequence(ms, InSeasonFn(month));
    SelectCounts(ms, InSeasonFn(month));
  }

  /** What the if/elif season step keeps: "夏" only in June to September, "冬" only outside. */
  predicate InIfElifSeason(m: Menu, month: int)
  {
    && (m.season == Summer ==> month in SummerMonths)
    && (m.season == Winter ==> month !in SummerMonths)
  }

  /** The season step of the oldest weekly selector: an if/elif, so only one tag is ever
      dropped and every month outside June to September counts as winter. */
  function SeasonFilterIfElif(ms: seq<Menu>, month: int): (r: seq<Menu>)
    ensures forall m :: m in r <==> m in ms && InIfElifSeason(m, month)
  {
    if month !in SummerMonths then Select(ms, NotTagged(Summer))
    else if month !in WinterMonths then Select(ms, NotTagged(Winter))
    else ms
  }

  function IfElifKeepFn(month: int): Menu -> bool
  {
    (m: Menu) => InIfElifSeason(m, month)
  }

  /** The if/elif step is one order-preserving filter, so it keeps every surviving dish as
      often as the input holds it. */
  lemma SeasonFilterIfElifKeepsOrder(ms: seq<Menu>, month: int)
    ensures SeasonFilterIfElif(ms, month) == Select(ms, IfElifKeepFn(month))
    ensures IsSubsequence(SeasonFilterIfElif(ms, month), ms)
    ensures forall m ::
      multiset(SeasonFilterIfElif(ms, month))[m] == if InIfElifSeason(m, month) then multiset(ms)[m] else 0
  {
    if month !in SummerMonths {
      SelectCongruent(ms, NotTagged(Summer), IfElifKeepFn(month));
    } else {
      assert month !in WinterMonths;
      SelectCongruent(ms, NotTagged(Winter), IfElifKeepFn(month));
    }
    SelectIsSubsequence(ms, IfElifKeepFn(month));
    SelectCounts(ms, IfElifKeepFn(month));
  }

  /** The months (of 1 to 12) that fall in neither seasonal window. */
  const GapMonths: set<int> := {4, 5, 10}

  /** Outside April, May and October the two season steps agree on every catalog. */
  lemma SeasonVariantsAgreeOutsideGap(ms: seq<Menu>, month: int)
    requires 1 <= month <= 12 && month !in GapMonths
    ensures SeasonFilterIfElif(ms, month) == SeasonFilter(ms, month)
  {
    if month in SummerMonths {
      assert month !in WinterMonths;
    } else {
      assert month in WinterMonths;
    }
  }

  /** In April, May and October the if/elif step keeps winter dishes that the two-pass
      step drops. */
  lemma {:induction false} SeasonVariantsDifferInGap(month: int, dish: Menu)
    requires month in GapMonths && dish.season == Winter
    ensures dish in SeasonFilterIfElif([dish], month)
    ensures SeasonFilter([dish], month) == []
  {
    assert dish in [dish];
    var r := SeasonFilter([dish], month);
    if |r| > 0 {
      assert r[0] in r;
    }
  }

  /** Over months 1 to 12, the two season steps agree on every catalog exactly when the
      month is not April, May or October. */
  lemma SeasonVariantsDifferExactlyInGap(month: int)
    requires 1 <= month <= 12
    ensures (forall ms :: SeasonFilterIfElif(ms, month) == SeasonFilter(ms, month)) <==> month !in GapMonths
  {
    if month in GapMonths {
      var dish := Menu("鍋", Winter, false, false, 1, "", "豚肉", None);
      SeasonVariantsDifferInGap(month, dish);
    } else {
      forall ms ensures SeasonFilterIfElif(ms, month) == SeasonFilter(ms, month) {
        SeasonVariantsAgreeOutsideGap(ms, month);
      }
    }
  }

  function HolidayKeep(isWeekend: bool): Menu -> bool
  {
    (m: Menu) => !m.holidayOnly || isWeekend
  }

  function NotHolidayOnly(): Menu -> bool
  {
    (m: Menu) => !m.holidayOnly
  }

  /** `filter_menu_by_holiday`: on a weekend every dish stays; on a weekday exactly the
      holiday-only dishes go, the rest keeping their order. */
  function HolidayFilter(ms: seq<Menu>, isWeekend: bool): (r: seq<Menu>)
    ensures isWeekend ==> r == ms
    ensures !isWeekend ==> r == Select(ms, NotHolidayOnly())
    ensures IsSubsequence(r, ms)
    ensures forall m :: m in r <==> m in ms && (isWeekend || !m.holidayOnly)
  {
    SelectIsSubsequence(ms, HolidayKeep(isWeekend));
    if isWeekend then
      SelectAll(ms, HolidayKeep(isWeekend));
      Select(ms, HolidayKeep(isWeekend))
    else
      SelectCongruent(ms, HolidayKeep(isWeekend), NotHolidayOnly());
      Select(ms, HolidayKeep(isWeekend))
  }

  function NotRecent(recent: seq<string>): Menu -> bool
  {
    (m: Menu) => m.name !in recent
  }

  /** `[menu for menu in menu_list if menu.name not in recent_menu]`. */
  function RecencyFilter(ms: seq<Menu>, recent: seq<string>): (r: seq<Menu>)
    ensures IsSubsequence(r, ms)
    ensures forall m :: m in r <==> m in ms && m.name !in recent
    ensures forall m :: multiset(r)[m] == if m.name !in recent then multiset(ms)[m] else 0
  {
    SelectIsSubsequence(ms, NotRecent(recent));
    SelectCounts(ms, NotRecent(recent));
    Select(ms, NotRecent(recent))
  }

  /** Dish names are unique within the sequence. */
  predicate UniqueNames(ms: seq<Menu>)
  {
    forall i, j :: 0 <= i < j < |ms| ==> ms[i].name != ms[j].name
  }

  /** Filtering a catalog whose names are unique leaves names unique. */
  lemma {:induction false} FilterKeepsUniqueNames(ms: seq<Menu>, keep: Menu -> bool)
    requires UniqueNames(ms)
    ensures UniqueNames(Select(ms, keep))
  {
    if |ms| > 0 {
      FilterKeepsUniqueNames(ms[1..], keep);
      var tail := Select(ms[1..], keep);
      if keep(ms[0]) {
        var r := [ms[0]] + tail;
        forall j | 1 <= j < |r|
          ensures r[0].name != r[j].name
        {
          assert r[j] in tail;
          var k :| 0 <= k < |ms[1..]| && ms[1..][k] == r[j];
          assert ms[k + 1] == r[j];
        }
      }
    }
  }
}
