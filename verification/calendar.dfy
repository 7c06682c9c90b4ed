/** Day labels of the weekly planners (`strftime("%m/%d(%a)")`) and the weekday numbers of
    the daily ones (`weekday()`, Monday being 0). */
module Calendar {
  import opened Text

  /** `%a` in the C locale, indexed by `weekday()`. */
  const WeekdayAbbrs: seq<string> := ["Mon", "Tue", "Wed", "Thu", "Fri", "Sat", "Sun"]

  /** The label of a day whose `%m/%d` part is `date` and whose `weekday()` is `weekday`. */
  function DayLabel(date: string, weekday: nat): string
    requires weekday < 7
  {
    date + "(" + WeekdayAbbrs[weekday] + ")"
  }

  /** `[(today + timedelta(days=i)).strftime("%m/%d(%a)") for i in range(7)]`, today's
      `weekday()` being `start`; the `%m/%d` parts come from the clock. */
  function WeekLabels(dates: seq<string>, start: nat): (labels: seq<string>)
    requires start < 7
    ensures |labels| == |dates|
  {
    seq(|dates|, i requires 0 <= i < |dates| => DayLabel(dates[i], (start + i) % 7))
  }

  /** A label ends in "(Sat)" or "(Sun)" exactly when its day is a Saturday or a Sunday,
      whatever the date part holds. */
  lemma WeekendSuffix(date: string, weekday: nat)
    requires weekday < 7
    ensures EndsWith(DayLabel(date, weekday), "(Sat)") || EndsWith(DayLabel(date, weekday), "(Sun)")
        <==> weekday >= 5
  {
    var text := DayLabel(date, weekday);
    var tail := "(" + WeekdayAbbrs[weekday] + ")";
    assert |tail| == 5;
    assert text[|text| - |tail|..] == tail;
    if weekday < 5 {
      assert tail[1] == WeekdayAbbrs[weekday][0] != 'S';
      assert tail != "(Sat)" && tail != "(Sun)";
    }
  }
}
