# weekly-dish: the meal-selection engine and the ingredient aggregator, in Dafny

The repository plans main dishes from a catalog. A **weekly selector** (`get_weekly_dish`)
fills seven day slots, one dish each. It filters by season, by holiday-only dishes and by
recently eaten names. It caps how often a main ingredient or a category may appear, never
repeats a dish, and keeps non-storable dishes for today and tomorrow. It then draws one dish
per slot by weight. A **daily selector** (`get_todays_dish`) samples one dish, or three
numbered suggestions, from the filtered catalog. An **ingredient aggregator**
(`get_ingredients_for_menus`) keeps the ingredient rows of the chosen dishes and sums them per
(ingredient, unit).

The repository holds three generations of the selector. They are modelled side by side:

- `app/lib/recipe.py`: the current one. Caps are 2/2/3/3 on seafood, beef, pork and chicken, and 1 on curry/stew, Cook Do and hot pot. It also excludes recent dishes.
- `_old_linebot/lib/recipe.py`: the chat-bot one. Hot pot is not capped. It returns a display string.
- `lib/recipe.py`: the first one. Every capped ingredient has cap 2. Its season step is an if/elif.

Modules:

- `Outcome`: `Option`, the two errors and `Result`.
- `Text`: `"\n".join`, `str.split`, the first word of a line, `str(n)`, and Python's string order.
- `Seqs`: the order-preserving filter `Select` (a list comprehension with a condition) and subsequences.
- `Calendar`: the `%m/%d(%a)` day labels and the weekday abbreviations.
- `Menus`: the `Menu` record, the season, holiday and recency filters, and unique names.
- `Constraints`: the caps of the three selectors, the usage counts, admissibility and the two weight formulas.
- `Weekly`: the slot loop `SelectWeek` with its counter maps, and the three `get_weekly_dish` variants.
- `Daily`: both `get_todays_dish` variants.
- `Ingredients`: the filter, group-by and sum, and the display.

Randomness, the clock and the data store become inputs:

- `random.choices(candidates, weights)` is a `Chooser` oracle. It gets the candidate list and the weight list and returns an index into the candidates.
- `random.sample` is a `Sampler` oracle. It returns distinct positions.
- The month, the seven day labels (`%m/%d(%a)`) and today's weekday are parameters.
- The catalog, the recent names and the ingredient table are parameters too.

A weekly run therefore yields exactly one outcome per oracle. `SelectWeek` states that outcome
completely: every slot holds the oracle's draw from that slot's candidates, and the run fails
exactly when a slot along those draws has no candidate.

Points where the behaviour is easy to misread; the model follows the code in each:

- Aggregation filters with `df["menu"].isin(menu_names)`. A dish listed twice therefore contributes its rows once, not once per occurrence (`RepeatedDishCountsOnce`).
- The category counter is bumped under `if selected_menu.category:`. A present but empty category is never counted. The admission test, by contrast, checks any present category against its cap. No cap has an empty name, so this changes nothing observable. It is still modelled (`CountsTowards`).
- pandas `groupby` sorts its groups, so the aggregated entries come out in ascending (ingredient, unit) order by code point. The model keeps that order rather than treating the result as an unordered set.
- The current `get_todays_dish` has no guard of its own. `random.sample` raises on an empty pool, and the model returns `Err(InsufficientCandidates)` there rather than forbidding the input.
- Two season steps coexist. The first selector's if/elif keeps winter dishes in April, May and October; the later two-pass filter drops them. Each variant is modelled as written, and the difference is proved.

## Model

| member | source | states |
|---|---|---|
| Menus.SeasonFilter | app/lib/recipe.py:57-64 | a dish survives iff it is in the input and its tag suits the month: "夏" only in months 6–9, "冬" only in months 11–3, any other tag always |
| Menus.SeasonFilterKeepsOrder | _old_linebot/lib/recipe.py:30-37 | the two passes equal one order-preserving filter by the seasonal predicate, so the result is a subsequence of the input and holds every in-season dish exactly as often as the input does (same code in both later selectors) |
| Menus.SeasonFilterIfElif | lib/recipe.py:76-79 | a "夏" dish survives iff the month is in 6–9, a "冬" dish survives iff the month is NOT in 6–9, every other dish survives |
| Menus.SeasonFilterIfElifKeepsOrder | lib/recipe.py:76-79 | the if/elif step equals one order-preserving filter by that rule, so the result is a subsequence and holds each surviving dish exactly as often as the input does |
| Menus.SeasonVariantsAgreeOutsideGap | lib/recipe.py:76-79 | for months 1–12 other than 4, 5, 10 the if/elif step and the two-pass filter give the same list for every catalog |
| Menus.SeasonVariantsDifferInGap | lib/recipe.py:76-79 | in months 4, 5 and 10 a "冬" dish survives the if/elif step but not the two-pass filter |
| Menus.SeasonVariantsDifferExactlyInGap | app/lib/recipe.py:60-63 | over months 1–12 the two season steps agree on every catalog iff the month is not 4, 5 or 10 |
| Menus.HolidayFilter | app/lib/recipe.py:67-68 | on a weekend the input comes back unchanged; on a weekday the result is exactly the input's non-holiday-only dishes in order; always a subsequence |
| Menus.RecencyFilter | app/lib/recipe.py:95 | an order-preserving subsequence holding exactly the dishes whose name is not in the recent list, each as often as the input holds it |
| Constraints.OverrideWeight | app/lib/recipe.py:119-120 | the weight is 1 or 5, and 5 iff (holiday-only and weekend) or (not storable and slot 0 or 1) |
| Constraints.CappedProductWeight | _old_linebot/lib/recipe.py:97 | `min(a*b, 5)` with boosts in {1,5} equals the override weight for every dish, weekend flag and slot |
| Constraints.AdmissibleKeepsCaps | app/lib/recipe.py:104-110 | when the picks so far respect the caps (and no cap is keyed by the empty category), a dish passes the cap tests iff the caps still hold with it added |
| Constraints.CapVariantsCompare | _old_linebot/lib/recipe.py:51-60 | the current and the first selector's caps are each at least as strict as the chat-bot's; the chat-bot's is looser than the current (hot pot uncapped) and the current looser than the first (pork, chicken at 3); hence every week within the current or the first selector's caps is within the chat-bot's |
| Weekly.Candidates | app/lib/recipe.py:101-114 | a dish is a slot's candidate iff it is in the pool, allowed by the holiday flag, within every cap given the earlier picks, not picked yet, and storable when the slot index is above 1 |
| Weekly.Weights | app/lib/recipe.py:119-120 | one weight per candidate, each 1 or 5, and 5 exactly for a holiday-only dish on a weekend or a non-storable dish in slot 0 or 1, under either weight formula |
| Weekly.TrackerAgrees | app/lib/recipe.py:104-110 | while the counter maps equal the counts over the picks, the admission filter read off the counters keeps the same dishes, in the same order, as the cap test on the picks themselves |
| Weekly.WeekendFlagsOfLabels | app/lib/recipe.py:91-98 | on the `%m/%d(%a)` labels of consecutive days starting from any weekday, slot i is flagged as weekend iff its day is a Saturday or a Sunday |
| Weekly.CountersAfterChoice | app/lib/recipe.py:124-126 | after a pick the main-ingredient counter rises by one and the category counter rises only for a present, non-empty category, so the counters keep equal to the counts over the picks (a missing category is never counted) |
| Weekly.SelectWeek | app/lib/recipe.py:97-126 | with the counter maps kept equal to the counts of the picks so far: success gives 7 dishes, each the oracle's draw from its slot's candidates; failure is `SelectionExhausted` with no list, and happens iff some slot along the draws has no candidate |
| Weekly.DrawsDetermineWeek | app/lib/recipe.py:121-122 | two runs following the same oracle agree on every slot both have filled |
| Weekly.AdmittedWeekIsWellFormed | app/lib/recipe.py:104-114 | seven slots each holding one of its candidates are pairwise unequal, respect every ingredient and category cap, are storable from slot 2 on, hold no holiday-only dish on a weekday, and come from the pool |
| Weekly.WeekDisplay | _old_linebot/lib/recipe.py:106 | when no label or name holds a newline, the display splits into exactly 7 lines, line i being `day_i + " " + name_i` |
| Weekly.AppWeeklyDish | app/lib/recipe.py:71-128 | a successful week is well formed under caps 2/2/3/3 and three categories at 1, every dish is in the catalog, in season and not recent, and follows the draws from the season- and recency-filtered pool; it fails iff that pool is exhausted along the draws |
| Weekly.OldWeeklyDish | _old_linebot/lib/recipe.py:44-107 | as above with hot pot uncapped, no recency exclusion (the pool is the season-filtered catalog) and the capped-product weight, plus the 7-line display |
| Weekly.LibWeeklyDish | lib/recipe.py:55-116 | as above with all capped ingredients at 2 and the pool filtered by the if/elif season step, plus the 7-line display |
| Weekly.DistinctDishesHaveDistinctNames | tests/test_dishes.py:27-30 | pairwise unequal catalog dishes have pairwise different names when the catalog's names are unique |
| Daily.WeekendTestsAgree | app/lib/recipe.py:134-135 | for a `weekday()` value 0–6 the daily test `weekday >= 5` (also _old_linebot/lib/recipe.py:118-119) holds iff the day's abbreviation is Sat or Sun, and agrees with the weekly test `endswith("(Sat)") or endswith("(Sun)")` on that day's label |
| Daily.TodaysDish | app/lib/recipe.py:131-144 | fails with `InsufficientCandidates` iff the season→holiday→recency pool is empty; otherwise the dish is in that pool, in the catalog, in season, not recent, and not holiday-only on a weekday |
| Daily.NumberedDisplay | _old_linebot/lib/recipe.py:129 | a non-empty list without newlines in names displays as one line `"k. name"` per dish, k counting from 1 |
| Daily.TodaysSuggestions | _old_linebot/lib/recipe.py:110-131 | fails iff fewer than 3 dishes pass season and holiday filters; otherwise 3 dishes at pairwise different pool positions, each in the catalog, in season, not holiday-only on a weekday, displayed as lines "1. ", "2. ", "3. " + name |
| Daily.SuggestionsHaveDistinctNames | _old_linebot/lib/recipe.py:128 | with unique catalog names the three suggestions carry three different names |
| Ingredients.Contributing | lib/ingredients.py:10-11 | a row contributes iff it is in the table and its menu is the name of some chosen dish |
| Ingredients.ContributingCounts | lib/ingredients.py:11-12 | the filtered rows are a subsequence of the table, in table order, holding every matching row exactly as often as the table does and no other row, so a repeated row is summed in full |
| Ingredients.DistinctKeys | lib/ingredients.py:12 | the group keys are strictly ascending by (ingredient, unit) and are exactly the keys of the rows |
| Ingredients.Aggregate | lib/ingredients.py:10-21 | entries are strictly ascending by key, their keys are exactly the contributing rows' (ingredient, unit) pairs, each number is the sum over the contributing rows with that key, and no dishes give no entries |
| Ingredients.OneEntryPerKey | lib/ingredients.py:14-21 | no two entries share an (ingredient, unit) pair |
| Ingredients.SumForIsTotalOfGroup | lib/ingredients.py:12 | a group's sum is the total of exactly the rows with that ingredient and unit, so the same ingredient under another unit adds nothing to it |
| Ingredients.SameNamesSameAggregate | lib/ingredients.py:10-11 | the result depends only on the set of chosen dish names |
| Ingredients.RepeatedDishCountsOnce | lib/ingredients.py:11 | listing a chosen dish a second time does not change the result |
| Ingredients.DistinctRowsAreEntries | _old_linebot/tests/test_menu.py:18-53 | when the contributing rows have pairwise different keys (e.g. one dish), the entries are exactly those rows |
| Ingredients.TwoStewsShareOnions | _old_linebot/tests/test_menu.py:83-125 | two stews each needing one onion (and a third, unchosen dish) give the single entry 玉ねぎ 2 個 |
| Ingredients.EntryLines | lib/ingredients.py:23 | one line per entry; its first word is the entry's name when the name has no space, and it holds a newline iff the name, the printed number or the unit does |
| Ingredients.IngredientsForMenus | lib/ingredients.py:10-25 | the entries are the aggregate; no dishes give no entries, and no entries (no dishes, or no matching rows) give an empty display; otherwise, when no name, printed number or unit holds a newline, the display splits into exactly the lines `name + " " + number + unit`, one per entry in order (names may hold spaces); when in addition no name holds a space, each line's first word is its entry's name |
| Text.SplitJoin | _old_linebot/tests/test_menu.py:19 | splitting a newline-joined non-empty list of newline-free lines gives the lines back |
| Text.JoinSplit | _old_linebot/tests/test_menu.py:19 | joining the pieces of a split gives the text back |
| Text.FirstTokenOfLine | _old_linebot/tests/test_menu.py:19 | the first space-separated word of `name + " " + rest` is `name` when the name has no space |
| Text.DecimalRoundTrip | _old_linebot/lib/recipe.py:129 | the decimal rendering of a number reads back as that number |

## Left out

- Data-store access is not modelled: `get_menu_data`, `get_recent_menu`, `get_ingredients_data`, `register_dish_history`, `get_bigquery_client` and the credential code. This is external I/O. The catalog, the recent names and the ingredient table are parameters instead.
- The chat-bot webhook (`main.py`), the dashboard pages (`app/app.py`, `app/weekly_dishes.py`, `app/daily_dishes.py`, `app/register_dishes.py`) and `app/lib/cache.py` are not modelled. They are presentation, session state and caching. The dashboard's per-day shopping total groups by ingredient name alone; it is UI code and is not part of this model.
- `datetime.today()` and the `%m/%d` part of `strftime` are not modelled. The month, the seven day labels and the weekday are parameters. `Calendar.WeekLabels` builds labels from given dates and a starting weekday to state what the weekend flags mean, with `%a` in the C locale. The weekly selectors require exactly seven labels, as the code always builds them with `range(7)`.
- The probability distributions of `random.choices` and `random.sample` are not modelled. The draws are oracles, and only the oracle's range is assumed: an index into the candidates, or distinct positions. The weights are computed and handed to the oracle, but proportional sampling is not verified.
- Callers that pass the whole (menus, dates) pair as the recent list are not modelled. The recent list is a list of names, as the signature says.
- Number formatting is not modelled: `format_number` and the way pandas prints a summed number. The aggregator's display takes a `show` function for numbers. Quantities are exact reals, so there is no float rounding.
- pandas' handling of missing values is not modelled: groups with a null key are dropped, and null numbers are skipped when summing. In the model, ingredient names and units are always strings and numbers are always present.
- `interval` and `cookingMethod` are never read by name, as in the code. They still take part in whole-record equality: the no-repeat test `menu not in weekly_menu` compares every field, and so does the model's `m !in chosen`. Two catalog rows that differ only in `interval` are two different dishes.
- The error message texts of the `ValueError`s are not modelled. Only which error is raised is kept.
