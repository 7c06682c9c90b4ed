/** The one-shot planners: one dish for today, or three suggestions for today. */
module Daily {
  import opened Outcome
  import opened Text
  import opened Seqs
  import opened Menus
  import opened Calendar
  import Weekly

  /** `random.sample(range(n), k)`: `k` positions below `n`. */
  type Sampler = (nat, nat) -> seq<nat>

  /** Positions below `n`, no position twice. */
  predicate DistinctPositions(ps: seq<nat>, n: nat)
  {
    && (forall i :: 0 <= i < |ps| ==> ps[i] < n)
    && (forall i, j :: 0 <= i < j < |ps| ==> ps[i] != ps[j])
  }

  /** A sample of `k <= n` positions has `k` distinct positions below `n`. */
  ghost predicate ValidSampler(sample: Sampler)
  {
    forall n: nat, k: nat :: k <= n ==> |sample(n, k)| == k && DistinctPositions(sample(n, k), n)
  }

  /** `weekday()` counts Monday as 0: days 5 and 6, Saturday and Sunday, are the weekend. */
  predicate IsWeekendDay(weekday: int)
  {
    weekday >= 5
  }

  /** The daily planners' weekend test on `weekday()` picks Saturday and Sunday, and agrees with
      the weekly planners' test on the day's label. */
  lemma WeekendTestsAgree(date: string, weekday: nat)
    requires weekday < 7
    ensures IsWeekendDay(weekday) <==> WeekdayAbbrs[weekday] == "Sat" || WeekdayAbbrs[weekday] == "Sun"
    ensures IsWeekendDay(weekday) <==> Weekly.WeekendFlags([DayLabel(date, weekday)])[0]
  {
    WeekendSuffix(date, weekday);
  }

  /** The current daily planner's pool: season, then holiday, then recency. */
  function TodaysPool(catalog: seq<Menu>, recent: seq<string>, month: int, weekday: int): seq<Menu>
  {
    RecencyFilter(HolidayFilter(SeasonFilter(catalog, month), IsWeekendDay(weekday)), recent)
  }

  /** `get_todays_dish`: one dish sampled from the pool; `random.sample` raises on an empty pool. */
  function TodaysDish(catalog: seq<Menu>, recent: seq<string>, month: int, weekday: int, sample: Sampler)
    : (r: Result<Menu>)
    requires ValidSampler(sample)
    ensures r.Err? <==> TodaysPool(catalog, recent, month, weekday) == []
    ensures r.Err? ==> r.error == InsufficientCandidates
    ensures r.Ok? ==> r.value in TodaysPool(catalog, recent, month, weekday)
    ensures r.Ok? ==>
      && r.value in catalog
      && InSeason(r.value, month)
      && (!IsWeekendDay(weekday) ==> !r.value.holidayOnly)
      && r.value.name !in recent
  {
    var pool := TodaysPool(catalog, recent, month, weekday);
    if |pool| < 1 then Err(InsufficientCandidates)
    else
      var ps := sample(|pool|, 1);
      Ok(pool[ps[0]])
  }

  /** `dishes[i]` sits at position `ps[i]` of `pool`. */
  predicate PickedAt(ps: seq<nat>, pool: seq<Menu>, dishes: seq<Menu>)
  {
    && |ps| == |dishes|
    && DistinctPositions(ps, |pool|)
    && forall i :: 0 <= i < |ps| ==> dishes[i] == pool[ps[i]]
  }

  /** The dishes sit at pairwise different positions of the pool. */
  ghost predicate DrawnFrom(dishes: seq<Menu>, pool: seq<Menu>)
  {
    exists ps :: PickedAt(ps, pool, dishes)
  }

  /** `"{k+1}. {menu.name}"` for each suggestion, numbered from 1. */
  function NumberedLines(dishes: seq<Menu>): (lines: seq<string>)
  {
    seq(|dishes|, k requires 0 <= k < |dishes| => NatToString(k + 1) + ". " + dishes[k].name)
  }

  /** The chat-bot daily planner's pool: season, then holiday; no recency exclusion. */
  function SuggestionPool(catalog: seq<Menu>, month: int, weekday: int): seq<Menu>
  {
    HolidayFilter(SeasonFilter(catalog, month), IsWeekendDay(weekday))
  }

  const SuggestionCount: nat := 3

  /** The numbered display: one line per suggestion. */
  function NumberedDisplay(dishes: seq<Menu>): (s: string)
    ensures |dishes| > 0 && (forall i :: 0 <= i < |dishes| ==> '\n' !in dishes[i].name) ==>
      Split(s, '\n') == NumberedLines(dishes)
  {
    var lines := NumberedLines(dishes);
    if |dishes| > 0 && forall i :: 0 <= i < |dishes| ==> '\n' !in dishes[i].name then
      assert forall i :: 0 <= i < |lines| ==> '\n' !in lines[i] by {
        forall i | 0 <= i < |lines| ensures '\n' !in lines[i] {
          assert lines[i] == NatToString(i + 1) + ". " + dishes[i].name;
        }
      }
      SplitJoin(lines, '\n');
      Join(lines, '\n')
    else
      Join(lines, '\n')
  }

  lemma ThreeNumberedLines(dishes: seq<Menu>)
    requires |dishes| == 3
    ensures NumberedLines(dishes) == ["1. " + dishes[0].name, "2. " + dishes[1].name, "3. " + dishes[2].name]
  {
    assert DigitChar(1) == '1' && DigitChar(2) == '2' && DigitChar(3) == '3';
    assert NatToString(1) == "1" && NatToString(2) == "2" && NatToString(3) == "3";
    var lines := NumberedLines(dishes);
    assert lines[0] == "1. " + dishes[0].name;
    assert lines[1] == "2. " + dishes[1].name;
    assert lines[2] == "3. " + dishes[2].name;
  }

  /** `get_todays_dish` of the chat-bot: raises when fewer than three dishes pass the filters,
      otherwise three dishes at distinct positions of the pool and their numbered display. */
  function TodaysSuggestions(catalog: seq<Menu>, month: int, weekday: int, sample: Sampler)
    : (r: Result<(seq<Menu>, string)>)
    requires ValidSampler(sample)
    ensures r.Err? <==> |SuggestionPool(catalog, month, weekday)| < SuggestionCount
    ensures r.Err? ==> r.error == InsufficientCandidates
    ensures r.Ok? ==> |r.value.0| == SuggestionCount && DrawnFrom(r.value.0, SuggestionPool(catalog, month, weekday))
    ensures r.Ok? ==> forall m :: m in r.value.0 ==>
      && m in catalog
      && InSeason(m, month)
      && (!IsWeekendDay(weekday) ==> !m.holidayOnly)
    ensures r.Ok? && (forall i :: 0 <= i < |r.value.0| ==> '\n' !in r.value.0[i].name) ==>
      Split(r.value.1, '\n') == ["1. " + r.value.0[0].name, "2. " + r.value.0[1].name, "3. " + r.value.0[2].name]
  {
    var pool := SuggestionPool(catalog, month, weekday);
    if |pool| < SuggestionCount then Err(InsufficientCandidates)
    else
      var ps := sample(|pool|, SuggestionCount);
      var dishes := seq(SuggestionCount, i requires 0 <= i < SuggestionCount => pool[ps[i]]);
      assert PickedAt(ps, pool, dishes);
      ThreeNumberedLines(dishes);
      Ok((dishes, NumberedDisplay(dishes)))
  }

  /** With unique catalog names, the three suggestions carry three different names. */
  lemma SuggestionsHaveDistinctNames(catalog: seq<Menu>, month: int, weekday: int, dishes: seq<Menu>)
    requires UniqueNames(catalog)
    requires DrawnFrom(dishes, SuggestionPool(catalog, month, weekday))
    ensures UniqueNames(dishes)
  {
    var seasonal := SeasonFilter(catalog, month);
    SeasonFilterKeepsOrder(catalog, month);
    FilterKeepsUniqueNames(catalog, InSeasonFn(month));
    FilterKeepsUniqueNames(seasonal, HolidayKeep(IsWeekendDay(weekday)));
    var pool := SuggestionPool(catalog, month, weekday);
    var ps :| PickedAt(ps, pool, dishes);
    forall i, j | 0 <= i < j < |dishes|
      ensures dishes[i].name != dishes[j].name
    {
      // Unique names speak of ordered index pairs, so take the two positions in order.
      assert ps[i] != ps[j];
      if ps[i] < ps[j] {
        assert pool[ps[i]].name != pool[ps[j]].name;
      } else {
        assert pool[ps[j]].name != pool[ps[i]].name;
      }
    }
  }
}
