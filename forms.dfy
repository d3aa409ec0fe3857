/**
 * The period filter of abitur/forms.py: a submitted period code chooses which application
 * dates the listing shows, counted back from today.
 */
module Forms {
  import opened Wrappers
  import opened Calendar

  const LastThreeDays := "default"
  const LastWeek := "week"
  const LastMonth := "month"
  const All := "all"

  /** The values of `PERIOD_CHOICES`. */
  const Choices := [LastThreeDays, LastWeek, LastMonth, All]

  /** A `Q` object over `application_date`. */
  datatype Condition =
    | OnOrAfter(ordinal: int)   // application_date__gte: the date whose ordinal this is
    | MonthIs(month: int)       // application_date__month
    | Always                    // Q()

  predicate Admits(c: Condition, d: Date)
    requires IsValid(d)
  {
    match c
    case OnOrAfter(o) => Ordinal(d) >= o
    case MonthIs(m) => d.month == m
    case Always => true
  }

  /**
   * What the optional `ChoiceField` makes of the submitted value: nothing or the empty text
   * clean to "", a listed choice is kept, anything else is a validation error (`None`).
   */
  function CleanPeriod(value: Option<string>): (r: Option<string>)
    ensures r.Some? <==> value.None? || value.value == "" || value.value in Choices
    ensures r.Some? && value.Some? ==> r.value == value.value
    ensures r == Some("") <==> value.None? || value.value == ""
  {
    match value
    case None => Some("")
    case Some(v) => if v == "" || v in Choices then Some(v) else None
  }

  /**
   * `is_valid()` of a form bound to a request whose `period` parameter is `value`, with
   * `today` for `date.today()`; `get_period()` returns it unchanged.
   */
  function PeriodCondition(value: Option<string>, today: Date): (c: Condition)
    requires IsValid(today)
    ensures c.OnOrAfter? ==> c.ordinal == Ordinal(today) - 7 || c.ordinal == Ordinal(today) - 3
    ensures c.MonthIs? ==> c.month == today.month
  {
    match CleanPeriod(value)
    case Some(period) =>
      if period == LastWeek then OnOrAfter(Ordinal(today) - 7)
      else if period == LastMonth then MonthIs(today.month)
      else if period == All then Always
      else OnOrAfter(Ordinal(today) - 3)
    case None => OnOrAfter(Ordinal(today) - 3)
  }

  /** 'week' admits exactly the dates at most seven days before today, and later ones. */
  lemma WeekAdmits(today: Date, d: Date)
    requires IsValid(today) && IsValid(d)
    ensures Admits(PeriodCondition(Some(LastWeek), today), d) <==> Ordinal(d) >= Ordinal(today) - 7
  {
  }

  /** 'month' admits exactly the dates in today's month, of any year. */
  lemma MonthAdmits(today: Date, d: Date)
    requires IsValid(today) && IsValid(d)
    ensures Admits(PeriodCondition(Some(LastMonth), today), d) <==> d.month == today.month
  {
  }

  /** 'all' admits every date. */
  lemma AllAdmits(today: Date, d: Date)
    requires IsValid(today) && IsValid(d)
    ensures Admits(PeriodCondition(Some(All), today), d)
  {
  }

  /**
   * No period, an empty one, 'default' and any value outside the choices all give the
   * three-day filter.
   */
  lemma DefaultAdmits(value: Option<string>, today: Date, d: Date)
    requires IsValid(today) && IsValid(d)
    requires value.None? || value.value !in [LastWeek, LastMonth, All]
    ensures PeriodCondition(value, today) == OnOrAfter(Ordinal(today) - 3)
    ensures Admits(PeriodCondition(value, today), d) <==> Ordinal(d) >= Ordinal(today) - 3
  {
  }

  /** Whatever the default filter shows, the week filter shows too. */
  lemma DefaultWithinWeek(value: Option<string>, today: Date, d: Date)
    requires IsValid(today) && IsValid(d)
    requires value.None? || value.value !in [LastWeek, LastMonth, All]
    requires Admits(PeriodCondition(value, today), d)
    ensures Admits(PeriodCondition(Some(LastWeek), today), d)
  {
    DefaultAdmits(value, today, d);
  }
}
