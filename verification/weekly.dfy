/** The seven-day planner: one dish per day slot, drawn by weight from the dishes the
    holiday filter, the caps, the no-repeat rule and the storability rule leave. */
module Weekly {
  import opened Outcome
  import opened Text
  import opened Seqs
  import opened Menus
  import opened Constraints
  import opened Calendar

  const DaysPerWeek: nat := 7

  /** `random.choices(candidates, weights=weights, k=1)`, as the index it picks. */
  type Chooser = (seq<Menu>, seq<nat>) -> nat

  /** Every draw from a non-empty candidate list lands inside it. */
  ghost predicate ValidChooser(pick: Chooser)
  {
    forall c: seq<Menu>, w: seq<nat> :: 0 < |c| && |c| == |w| ==> pick(c, w) < |c|
  }

  /** Counter lookup with `defaultdict(int)` semantics. */
  function Lookup(counts: map<string, nat>, key: string): nat
  {
    if key in counts then counts[key] else 0
  }

  /** Not yet chosen this week, and within every cap given the dishes already chosen. */
  function AdmitFn(chosen: seq<Menu>, caps: Caps): Menu -> bool
  {
    (m: Menu) => Admissible(m, chosen, caps) && m !in chosen
  }

  function StorableFn(): Menu -> bool
  {
    (m: Menu) => !m.notStorable
  }

  /** The dishes slot `idx` may draw from, given the dishes `chosen` for the earlier slots. */
  function Candidates(pool: seq<Menu>, isWeekend: bool, idx: nat, chosen: seq<Menu>, caps: Caps): (c: seq<Menu>)
    ensures forall m :: m in c <==>
      && m in pool
      && (isWeekend || !m.holidayOnly)
      && Admissible(m, chosen, caps)
      && m !in chosen
      && (idx > 1 ==> !m.notStorable)
  {
    var allowed := Select(HolidayFilter(pool, isWeekend), AdmitFn(chosen, caps));
    if idx > 1 then Select(allowed, StorableFn()) else allowed
  }

  /** The weight of each candidate, position for position. */
  function Weights(cands: seq<Menu>, isWeekend: bool, idx: nat, rule: WeightRule): (ws: seq<nat>)
    ensures |ws| == |cands|
    ensures forall i :: 0 <= i < |ws| ==> ws[i] == 1 || ws[i] == 5
    ensures forall i :: 0 <= i < |ws| ==>
      (ws[i] == 5 <==> (cands[i].holidayOnly && isWeekend) || (cands[i].notStorable && idx <= 1))
  {
    seq(|cands|, i requires 0 <= i < |cands| => Weight(rule, cands[i], isWeekend, idx))
  }

  /** Slot `i` of `week` holds the dish the oracle drew from that slot's candidates. */
  predicate DrawnAt(pool: seq<Menu>, weekend: seq<bool>, caps: Caps, rule: WeightRule, pick: Chooser,
                    week: seq<Menu>, i: nat)
    requires i < |week| <= |weekend|
  {
    var c := Candidates(pool, weekend[i], i, week[..i], caps);
    var p := pick(c, Weights(c, weekend[i], i, rule));
    p < |c| && week[i] == c[p]
  }

  /** Every slot of `week` so far holds the oracle's draw. */
  predicate FollowsDraws(pool: seq<Menu>, weekend: seq<bool>, caps: Caps, rule: WeightRule, pick: Chooser,
                         week: seq<Menu>)
  {
    && |week| <= |weekend|
    && forall i :: 0 <= i < |week| ==> DrawnAt(pool, weekend, caps, rule, pick, week, i)
  }

  /** Every slot of `week` holds one of that slot's candidates. */
  predicate Admits(pool: seq<Menu>, weekend: seq<bool>, caps: Caps, week: seq<Menu>)
  {
    && |week| <= |weekend|
    && forall i :: 0 <= i < |week| ==> week[i] in Candidates(pool, weekend[i], i, week[..i], caps)
  }

  /** Following the draws some slot finds no candidate. */
  ghost predicate Exhausts(pool: seq<Menu>, weekend: seq<bool>, caps: Caps, rule: WeightRule, pick: Chooser)
  {
    exists week :: StuckAfter(pool, weekend, caps, rule, pick, week)
  }

  predicate StuckAfter(pool: seq<Menu>, weekend: seq<bool>, caps: Caps, rule: WeightRule, pick: Chooser,
                       week: seq<Menu>)
  {
    && |week| < |weekend|
    && FollowsDraws(pool, weekend, caps, rule, pick, week)
    && Candidates(pool, weekend[|week|], |week|, week, caps) == []
  }

  /** What the week promises: seven pairwise different dishes, the caps respected, only
      storable dishes after tomorrow, and no holiday-only dish on a weekday. */
  predicate WellFormedWeek(week: seq<Menu>, weekend: seq<bool>, caps: Caps)
  {
    && |week| == DaysPerWeek == |weekend|
    && (forall i, j :: 0 <= i < j < |week| ==> week[i] != week[j])
    && CapsRespected(week, caps)
    && (forall i :: 1 < i < |week| ==> !week[i].notStorable)
    && (forall i :: 0 <= i < |week| && !weekend[i] ==> !week[i].holidayOnly)
  }

  lemma DrawsAreAdmitted(pool: seq<Menu>, weekend: seq<bool>, caps: Caps, rule: WeightRule, pick: Chooser,
                         week: seq<Menu>)
    requires FollowsDraws(pool, weekend, caps, rule, pick, week)
    ensures Admits(pool, weekend, caps, week)
  {
    forall i | 0 <= i < |week|
      ensures week[i] in Candidates(pool, weekend[i], i, week[..i], caps)
    {
      assert DrawnAt(pool, weekend, caps, rule, pick, week, i);
    }
  }

  /** The oracle fixes the week: two runs following its draws agree on their common slots. */
  lemma {:induction false} DrawsDetermineWeek(pool: seq<Menu>, weekend: seq<bool>, caps: Caps, rule: WeightRule,
                                              pick: Chooser, a: seq<Menu>, b: seq<Menu>)
    requires FollowsDraws(pool, weekend, caps, rule, pick, a)
    requires FollowsDraws(pool, weekend, caps, rule, pick, b)
    requires |a| <= |b|
    ensures a == b[..|a|]
    decreases |a|
  {
    if |a| > 0 {
      var n := |a| - 1;
      var a' := a[..n];
      assert FollowsDraws(pool, weekend, caps, rule, pick, a') by {
        forall i | 0 <= i < n
          ensures DrawnAt(pool, weekend, caps, rule, pick, a', i)
        {
          assert DrawnAt(pool, weekend, caps, rule, pick, a, i);
          assert a'[..i] == a[..i];
        }
      }
      DrawsDetermineWeek(pool, weekend, caps, rule, pick, a', b);
      assert DrawnAt(pool, weekend, caps, rule, pick, a, n);
      assert DrawnAt(pool, weekend, caps, rule, pick, b, n);
      assert b[..n] == b[..|a|][..n];
      assert a == a' + [a[n]];
      assert b[..|a|] == b[..n] + [b[n]];
    }
  }

  lemma ExtendDraws(pool: seq<Menu>, weekend: seq<bool>, caps: Caps, rule: WeightRule, pick: Chooser,
                    week: seq<Menu>, m: Menu)
    requires FollowsDraws(pool, weekend, caps, rule, pick, week)
    requires |week| < |weekend|
    requires DrawnAt(pool, weekend, caps, rule, pick, week + [m], |week|)
    ensures FollowsDraws(pool, weekend, caps, rule, pick, week + [m])
  {
    var w := week + [m];
    forall i | 0 <= i < |w|
      ensures DrawnAt(pool, weekend, caps, rule, pick, w, i)
    {
      if i < |week| {
        assert DrawnAt(pool, weekend, caps, rule, pick, week, i);
        assert w[..i] == week[..i];
      }
    }
  }

  lemma {:induction false} CapsHoldOnPrefix(pool: seq<Menu>, weekend: seq<bool>, caps: Caps, week: seq<Menu>, n: nat)
    requires Admits(pool, weekend, caps, week)
    requires n <= |week|
    ensures CapsRespected(week[..n], caps)
  {
    if n > 0 {
      CapsHoldOnPrefix(pool, weekend, caps, week, n - 1);
      var prefix := week[..n];
      assert prefix[..n - 1] == week[..n - 1];
      var m := week[n - 1];
      assert m in Candidates(pool, weekend[n - 1], n - 1, week[..n - 1], caps);
      assert Admissible(m, week[..n - 1], caps);
    }
  }

  /** A week whose every slot holds one of its candidates keeps every promise of the planner,
      and every dish comes from the pool. */
  lemma {:induction false} AdmittedWeekIsWellFormed(pool: seq<Menu>, weekend: seq<bool>, caps: Caps, week: seq<Menu>)
    requires Admits(pool, weekend, caps, week)
    requires |week| == DaysPerWeek == |weekend|
    ensures WellFormedWeek(week, weekend, caps)
    ensures forall m :: m in week ==> m in pool
  {
    CapsHoldOnPrefix(pool, weekend, caps, week, |week|);
    assert week[..|week|] == week;
    forall i, j | 0 <= i < j < |week|
      ensures week[i] != week[j]
    {
      assert week[j] in Candidates(pool, weekend[j], j, week[..j], caps);
      assert week[i] == week[..j][i];
    }
    forall m | m in week
      ensures m in pool
    {
      var i :| 0 <= i < |week| && week[i] == m;
      assert week[i] in Candidates(pool, weekend[i], i, week[..i], caps);
    }
    forall i | 0 <= i < |week|
      ensures week[i] in Candidates(pool, weekend[i], i, week[..i], caps)
    {
    }
  }

  /** The counters mirror the chosen week: `used_ingredients_counts` and `used_category_counts`. */
  ghost predicate CountersMatch(week: seq<Menu>, ingCount: map<string, nat>, catCount: map<string, nat>)
  {
    && (forall k :: Lookup(ingCount, k) == IngredientCount(week, k))
    && (forall k :: Lookup(catCount, k) == CategoryCount(week, k))
  }

  /** The admission test as the loop evaluates it, on the counters. */
  function TrackerFn(ingCount: map<string, nat>, catCount: map<string, nat>, chosen: seq<Menu>, caps: Caps): Menu -> bool
  {
    (m: Menu) =>
      && (m.mainIngredient in caps.ingredient ==>
            Lookup(ingCount, m.mainIngredient) < caps.ingredient[m.mainIngredient])
      && (m.category.None? || m.category.value !in caps.category ||
            Lookup(catCount, m.category.value) < caps.category[m.category.value])
      && m !in chosen
  }

  lemma TrackerAgrees(pool: seq<Menu>, isWeekend: bool, idx: nat, week: seq<Menu>,
                      ingCount: map<string, nat>, catCount: map<string, nat>, caps: Caps)
    requires CountersMatch(week, ingCount, catCount)
    ensures Select(HolidayFilter(pool, isWeekend), TrackerFn(ingCount, catCount, week, caps))
         == Select(HolidayFilter(pool, isWeekend), AdmitFn(week, caps))
  {
    var ms := HolidayFilter(pool, isWeekend);
    forall m | m in ms
      ensures TrackerFn(ingCount, catCount, week, caps)(m) == AdmitFn(week, caps)(m)
    {
      assert Lookup(ingCount, m.mainIngredient) == IngredientCount(week, m.mainIngredient);
      if m.category.Some? {
        assert Lookup(catCount, m.category.value) == CategoryCount(week, m.category.value);
      }
    }
    SelectCongruent(ms, TrackerFn(ingCount, catCount, week, caps), AdmitFn(week, caps));
  }

  lemma CountersAfterChoice(week: seq<Menu>, ingCount: map<string, nat>, catCount: map<string, nat>, m: Menu)
    requires CountersMatch(week, ingCount, catCount)
    ensures CountersMatch(week + [m],
                          ingCount[m.mainIngredient := Lookup(ingCount, m.mainIngredient) + 1],
                          if m.category.Some? && m.category.value != ""
                          then catCount[m.category.value := Lookup(catCount, m.category.value) + 1]
                          else catCount)
  {
    var w := week + [m];
    assert w[..|w| - 1] == week;
    forall k ensures IngredientCount(w, k) == IngredientCount(week, k) + (if m.mainIngredient == k then 1 else 0) {
    }
    forall k ensures CategoryCount(w, k) == CategoryCount(week, k) + (if CountsTowards(m, k) then 1 else 0) {
    }
  }

  /** `get_weekly_dish`'s loop over the seven day slots, on a pool already filtered for the
      whole week. It fails exactly when, following the oracle's draws, some slot is left
      without a candidate; otherwise every slot holds the oracle's draw from its candidates. */
  method SelectWeek(pool: seq<Menu>, weekend: seq<bool>, caps: Caps, rule: WeightRule, pick: Chooser)
    returns (r: Result<seq<Menu>>)
    requires |weekend| == DaysPerWeek
    requires ValidChooser(pick)
    ensures r.Ok? ==> |r.value| == DaysPerWeek && FollowsDraws(pool, weekend, caps, rule, pick, r.value)
    ensures r.Err? ==> r.error == SelectionExhausted
    ensures r.Err? <==> Exhausts(pool, weekend, caps, rule, pick)
  {
    var week: seq<Menu> := [];
    var ingCount: map<string, nat> := map[];
    var catCount: map<string, nat> := map[];
    var idx := 0;
    while idx < DaysPerWeek
      invariant idx == |week| <= DaysPerWeek
      invariant FollowsDraws(pool, weekend, caps, rule, pick, week)
      invariant CountersMatch(week, ingCount, catCount)
    {
      var isWeekend := weekend[idx];
      var cands := Select(HolidayFilter(pool, isWeekend), TrackerFn(ingCount, catCount, week, caps));
      if idx > 1 {
        cands := Select(cands, StorableFn());
      }
      TrackerAgrees(pool, isWeekend, idx, week, ingCount, catCount, caps);
      assert cands == Candidates(pool, isWeekend, idx, week, caps);
      if |cands| == 0 {
        assert StuckAfter(pool, weekend, caps, rule, pick, week);
        return Err(SelectionExhausted);
      }
      var weights := Weights(cands, isWeekend, idx, rule);
      var chosen := cands[pick(cands, weights)];
      assert (week + [chosen])[..idx] == week;
      ExtendDraws(pool, weekend, caps, rule, pick, week, chosen);
      CountersAfterChoice(week, ingCount, catCount, chosen);
      week := week + [chosen];
      ingCount := ingCount[chosen.mainIngredient := Lookup(ingCount, chosen.mainIngredient) + 1];
      if chosen.category.Some? && chosen.category.value != "" {
        catCount := catCount[chosen.category.value := Lookup(catCount, chosen.category.value) + 1];
      }
      idx := idx + 1;
    }
    NeverStuck(pool, weekend, caps, rule, pick, week);
    return Ok(week);
  }

  /** Along the draws of a complete week, every earlier slot had a candidate. */
  lemma CompleteWeekHadCandidates(pool: seq<Menu>, weekend: seq<bool>, caps: Caps, rule: WeightRule, pick: Chooser,
                                  week: seq<Menu>, w: seq<Menu>)
    requires |week| == |weekend|
    requires FollowsDraws(pool, weekend, caps, rule, pick, week)
    requires FollowsDraws(pool, weekend, caps, rule, pick, w)
    requires |w| < |weekend|
    ensures week[|w|] in Candidates(pool, weekend[|w|], |w|, w, caps)
  {
    DrawsDetermineWeek(pool, weekend, caps, rule, pick, w, week);
    assert DrawnAt(pool, weekend, caps, rule, pick, week, |w|);
  }

  /** A complete week following the draws rules out a stuck slot along the same draws. */
  lemma NeverStuck(pool: seq<Menu>, weekend: seq<bool>, caps: Caps, rule: WeightRule, pick: Chooser, week: seq<Menu>)
    requires |week| == |weekend|
    requires FollowsDraws(pool, weekend, caps, rule, pick, week)
    ensures !Exhausts(pool, weekend, caps, rule, pick)
  {
    forall w | |w| < |weekend| && FollowsDraws(pool, weekend, caps, rule, pick, w)
      ensures Candidates(pool, weekend[|w|], |w|, w, caps) != []
    {
      CompleteWeekHadCandidates(pool, weekend, caps, rule, pick, week, w);
    }
  }

  /** The day labels `%m/%d(%a)` of the seven slots decide which are weekend slots. */
  function WeekendFlags(days: seq<string>): (flags: seq<bool>)
    ensures |flags| == |days|
  {
    seq(|days|, i requires 0 <= i < |days| => EndsWith(days[i], "(Sat)") || EndsWith(days[i], "(Sun)"))
  }

  /** On the labels of seven consecutive days the flags mark exactly the Saturday and the
      Sunday, whichever day the week starts on. */
  lemma WeekendFlagsOfLabels(dates: seq<string>, start: nat)
    requires start < 7
    ensures forall i :: 0 <= i < |dates| ==>
      (WeekendFlags(WeekLabels(dates, start))[i] <==> (start + i) % 7 >= 5)
  {
    forall i | 0 <= i < |dates|
      ensures WeekendFlags(WeekLabels(dates, start))[i] <==> (start + i) % 7 >= 5
    {
      WeekendSuffix(dates[i], (start + i) % 7);
    }
  }

  /** `"{day} {menu.name}"` per slot, in slot order. */
  function DayLines(days: seq<string>, week: seq<Menu>): (lines: seq<string>)
    requires |days| == |week|
  {
    seq(|week|, i requires 0 <= i < |week| => days[i] + " " + week[i].name)
  }

  predicate NoNewlines(days: seq<string>, week: seq<Menu>)
  {
    && (forall i :: 0 <= i < |days| ==> '\n' !in days[i])
    && (forall i :: 0 <= i < |week| ==> '\n' !in week[i].name)
  }

  /** The weekly display string has one line per slot, the day label then the dish name. */
  function WeekDisplay(days: seq<string>, week: seq<Menu>): (s: string)
    requires |days| == |week| == DaysPerWeek
    ensures NoNewlines(days, week) ==> Split(s, '\n') == DayLines(days, week)
  {
    var lines := DayLines(days, week);
    if NoNewlines(days, week) then
      assert forall i :: 0 <= i < |lines| ==> '\n' !in lines[i];
      SplitJoin(lines, '\n');
      Join(lines, '\n')
    else
      Join(lines, '\n')
  }

  /** `get_weekly_dish` of the current selector: season and recency filters once, then the
      loop with caps 2/2/3/3 and three categories at 1, and the override weight. */
  method AppWeeklyDish(catalog: seq<Menu>, recent: seq<string>, month: int, days: seq<string>, pick: Chooser)
    returns (r: Result<seq<Menu>>)
    requires |days| == DaysPerWeek
    requires ValidChooser(pick)
    ensures r.Ok? ==> WellFormedWeek(r.value, WeekendFlags(days), AppCaps)
    ensures r.Ok? ==> forall m :: m in r.value ==> m in catalog && InSeason(m, month) && m.name !in recent
    ensures r.Ok? ==> FollowsDraws(RecencyFilter(SeasonFilter(catalog, month), recent), WeekendFlags(days),
                                   AppCaps, Override, pick, r.value)
    ensures r.Err? <==> Exhausts(RecencyFilter(SeasonFilter(catalog, month), recent), WeekendFlags(days),
                                 AppCaps, Override, pick)
    ensures r.Err? ==> r.error == SelectionExhausted
  {
    var pool := RecencyFilter(SeasonFilter(catalog, month), recent);
    r := SelectWeek(pool, WeekendFlags(days), AppCaps, Override, pick);
    if r.Ok? {
      DrawsAreAdmitted(pool, WeekendFlags(days), AppCaps, Override, pick, r.value);
      AdmittedWeekIsWellFormed(pool, WeekendFlags(days), AppCaps, r.value);
    }
  }

  /** `get_weekly_dish` of the chat-bot selector: season filter only (no recency exclusion),
      caps without hot pot, the capped-product weight, and the display string. */
  method OldWeeklyDish(catalog: seq<Menu>, month: int, days: seq<string>, pick: Chooser)
    returns (r: Result<(seq<Menu>, string)>)
    requires |days| == DaysPerWeek
    requires ValidChooser(pick)
    ensures r.Ok? ==> WellFormedWeek(r.value.0, WeekendFlags(days), OldCaps)
    ensures r.Ok? ==> forall m :: m in r.value.0 ==> m in catalog && InSeason(m, month)
    ensures r.Ok? ==> FollowsDraws(SeasonFilter(catalog, month), WeekendFlags(days), OldCaps, CappedProduct, pick, r.value.0)
    ensures r.Ok? && NoNewlines(days, r.value.0) ==> Split(r.value.1, '\n') == DayLines(days, r.value.0)
    ensures r.Err? <==> Exhausts(SeasonFilter(catalog, month), WeekendFlags(days), OldCaps, CappedProduct, pick)
    ensures r.Err? ==> r.error == SelectionExhausted
  {
    var pool := SeasonFilter(catalog, month);
    var week := SelectWeek(pool, WeekendFlags(days), OldCaps, CappedProduct, pick);
    match week
    case Err(e) =>
      r := Err(e);
    case Ok(w) =>
      DrawsAreAdmitted(pool, WeekendFlags(days), OldCaps, CappedProduct, pick, w);
      AdmittedWeekIsWellFormed(pool, WeekendFlags(days), OldCaps, w);
      r := Ok((w, WeekDisplay(days, w)));
  }

  /** `get_weekly_dish` of the first selector: the if/elif season step, no recency exclusion,
      every capped ingredient at 2, the capped-product weight, and the display string. */
  method LibWeeklyDish(catalog: seq<Menu>, month: int, days: seq<string>, pick: Chooser)
    returns (r: Result<(seq<Menu>, string)>)
    requires |days| == DaysPerWeek
    requires ValidChooser(pick)
    ensures r.Ok? ==> WellFormedWeek(r.value.0, WeekendFlags(days), LibCaps)
    ensures r.Ok? ==> forall m :: m in r.value.0 ==> m in catalog && m in SeasonFilterIfElif(catalog, month)
    ensures r.Ok? ==> FollowsDraws(SeasonFilterIfElif(catalog, month), WeekendFlags(days), LibCaps, CappedProduct, pick, r.value.0)
    ensures r.Ok? && NoNewlines(days, r.value.0) ==> Split(r.value.1, '\n') == DayLines(days, r.value.0)
    ensures r.Err? <==> Exhausts(SeasonFilterIfElif(catalog, month), WeekendFlags(days), LibCaps, CappedProduct, pick)
    ensures r.Err? ==> r.error == SelectionExhausted
  {
    var pool := SeasonFilterIfElif(catalog, month);
    var week := SelectWeek(pool, WeekendFlags(days), LibCaps, CappedProduct, pick);
    match week
    case Err(e) =>
      r := Err(e);
    case Ok(w) =>
      DrawsAreAdmitted(pool, WeekendFlags(days), LibCaps, CappedProduct, pick, w);
      AdmittedWeekIsWellFormed(pool, WeekendFlags(days), LibCaps, w);
      r := Ok((w, WeekDisplay(days, w)));
  }

  /** With unique catalog names, a week of pairwise different catalog dishes has seven
      different dish names. */
  lemma DistinctDishesHaveDistinctNames(catalog: seq<Menu>, week: seq<Menu>)
    requires UniqueNames(catalog)
    requires forall m :: m in week ==> m in catalog
    requires forall i, j :: 0 <= i < j < |week| ==> week[i] != week[j]
    ensures UniqueNames(week)
  {
    forall i, j | 0 <= i < j < |week|
      ensures week[i].name != week[j].name
    {
      assert week[i] in week && week[j] in week;
      var a :| 0 <= a < |catalog| && catalog[a] == week[i];
      var b :| 0 <= b < |catalog| && catalog[b] == week[j];
      // Unique names speak of ordered index pairs, so take the two positions in order.
      assert a != b;
      if a < b {
        assert catalog[a].name != catalog[b].name;
      } else {
        assert catalog[b].name != catalog[a].name;
      }
    }
  }
}
