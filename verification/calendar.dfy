/**
 * Calendar dates as Python's `datetime.date` has them (proleptic Gregorian,
 * years 1 to 9999), adding days as `date + timedelta(days=n)` does, and the
 * month-start walk of the chart widgets: from the first of `date_from`'s month,
 * step by "+32 days, then day 1" while the date is not after `date_to`.
 */
module Calendar {
  import opened Wrappers

  const MinYear := 1
  const MaxYear := 9999

  datatype Date = Date(year: int, month: int, day: int)

  predicate IsLeapYear(y: int) {
    (y % 4 == 0 && y % 100 != 0) || y % 400 == 0
  }

  function DaysInMonth(y: int, m: int): int
    requires 1 <= m <= 12
  {
    if m == 2 then (if IsLeapYear(y) then 29 else 28)
    else if m == 4 || m == 6 || m == 9 || m == 11 then 30
    else 31
  }

  /** A date `datetime.date` can represent. */
  predicate IsValid(d: Date) {
    && MinYear <= d.year <= MaxYear
    && 1 <= d.month <= 12
    && 1 <= d.day <= DaysInMonth(d.year, d.month)
  }

  /** Date comparison `a <= b`. */
  predicate LessEq(a: Date, b: Date) {
    || a.year < b.year
    || (a.year == b.year && a.month < b.month)
    || (a.year == b.year && a.month == b.month && a.day <= b.day)
  }

  /** Months counted from January of year 0; consecutive months have consecutive indices. */
  function MonthIndex(d: Date): int {
    d.year * 12 + d.month - 1
  }

  /** The first day of the month with the given index. */
  function MonthStart(index: int): Date {
    Date(index / 12, index % 12 + 1, 1)
  }

  /** `d.replace(day=1)`. */
  function FirstOfMonth(d: Date): Date {
    d.(day := 1)
  }

  /** The following calendar day, not bounded by `MaxYear`. */
  function NextDay(d: Date): Date
    requires 1 <= d.month <= 12
  {
    if d.day < DaysInMonth(d.year, d.month) then d.(day := d.day + 1)
    else if d.month < 12 then Date(d.year, d.month + 1, 1)
    else Date(d.year + 1, 1, 1)
  }

  /** `n` calendar days after `d`, not bounded by `MaxYear`. */
  function DaysLater(d: Date, n: nat): (r: Date)
    requires 1 <= d.month <= 12
    ensures 1 <= r.month <= 12
    decreases n
  {
    if n == 0 then d else DaysLater(NextDay(d), n - 1)
  }

  /** `d + timedelta(days=n)`: `None` where Python raises `OverflowError` past year 9999. */
  function AddDays(d: Date, n: nat): Option<Date>
    requires IsValid(d)
  {
    var r := DaysLater(d, n);
    if r.year <= MaxYear then Some(r) else None
  }

  // ---------------------------------------------------------------------------
  // Why "+32 days, then day 1" moves to the next month
  // ---------------------------------------------------------------------------

  lemma DaysInMonthRange(y: int, m: int)
    requires 1 <= m <= 12
    ensures 28 <= DaysInMonth(y, m) <= 31
  {
  }

  lemma {:induction false} DaysLaterAdd(d: Date, a: nat, b: nat)
    requires 1 <= d.month <= 12
    ensures DaysLater(d, a + b) == DaysLater(DaysLater(d, a), b)
    decreases a
  {
    if a > 0 {
      DaysLaterAdd(NextDay(d), a - 1, b);
    }
  }

  /** Within a month, adding `n` days adds `n` to the day of the month. */
  lemma {:induction false} DaysLaterWithinMonth(d: Date, n: nat)
    requires 1 <= d.month <= 12 && 1 <= d.day
    requires d.day + n <= DaysInMonth(d.year, d.month)
    ensures DaysLater(d, n) == d.(day := d.day + n)
    decreases n
  {
    if n > 0 {
      DaysLaterWithinMonth(d.(day := d.day + 1), n - 1);
    }
  }

  /**
   * From the first of any month, 32 days later is in the following month
   * (day 2 to 5), because every month has 28 to 31 days.
   */
  lemma FirstPlus32(d: Date)
    requires 1 <= d.month <= 12 && d.day == 1
    ensures MonthIndex(DaysLater(d, 32)) == MonthIndex(d) + 1
    ensures 2 <= DaysLater(d, 32).day <= 5
  {
    var n := DaysInMonth(d.year, d.month);
    DaysInMonthRange(d.year, d.month);
    DaysLaterAdd(d, n - 1, 32 - (n - 1));
    DaysLaterWithinMonth(d, n - 1);
    var last := d.(day := n);
    assert DaysLater(last, 32 - (n - 1)) == DaysLater(NextDay(last), 32 - n);
    var next := NextDay(last);
    assert next.day == 1 && MonthIndex(next) == MonthIndex(d) + 1;
    DaysInMonthRange(next.year, next.month);
    DaysLaterWithinMonth(next, 32 - n);
  }

  /** From the first of any month up to November 9999, "+32 days, then day 1" gives the first of the next month. */
  lemma NextMonthStart(d: Date)
    requires MinYear <= d.year <= MaxYear && 1 <= d.month <= 12 && d.day == 1
    ensures AddDays(d, 32).None? <==> d.year == MaxYear && d.month == 12
    ensures AddDays(d, 32).Some? ==>
              var n := FirstOfMonth(AddDays(d, 32).value);
              && n.day == 1 && 1 <= n.month <= 12 && MinYear <= n.year <= MaxYear
              && MonthIndex(n) == MonthIndex(d) + 1
  {
    FirstPlus32(d);
  }

  lemma MonthIndexOfStart(index: int)
    ensures MonthIndex(MonthStart(index)) == index
    ensures 1 <= MonthStart(index).month <= 12 && MonthStart(index).day == 1
  {
  }

  lemma MonthStartOfIndex(d: Date)
    requires 1 <= d.month <= 12 && d.day == 1
    ensures MonthStart(MonthIndex(d)) == d
  {
  }

  /** For a first-of-month date, comparison with any date is comparison of months. */
  lemma FirstOfMonthLessEq(c: Date, b: Date)
    requires 1 <= c.month <= 12 && c.day == 1
    requires 1 <= b.month <= 12 && 1 <= b.day
    ensures LessEq(c, b) <==> MonthIndex(c) <= MonthIndex(b)
  {
  }

  // ---------------------------------------------------------------------------
  // The month-start walk
  // ---------------------------------------------------------------------------

  /** The exception the walk can raise: `date + timedelta` past 31 December 9999. */
  datatype CalendarError = OverflowError

  /** The number of months from `dateFrom`'s month to `dateTo`'s month, both included (0 when `dateTo` is earlier). */
  function MonthSpan(dateFrom: Date, dateTo: Date): nat {
    if MonthIndex(dateTo) < MonthIndex(dateFrom) then 0 else MonthIndex(dateTo) - MonthIndex(dateFrom) + 1
  }

  /** The dates the walk produces when it does not overflow: one first-of-month per month of the span. */
  function MonthStartsSpec(dateFrom: Date, dateTo: Date): seq<Date> {
    seq(MonthSpan(dateFrom, dateTo), i => MonthStart(MonthIndex(dateFrom) + i))
  }

  /**
   * The `while current_date <= last_date` loop of `_add_month_start_transactions`:
   * it raises exactly when it reaches December 9999, whose "+32 days" is past
   * the last representable date.
   */
  method MonthStarts(dateFrom: Date, dateTo: Date) returns (r: Result<seq<Date>, CalendarError>)
    requires IsValid(dateFrom) && IsValid(dateTo)
    ensures r.Err? <==> (dateTo.year == MaxYear && dateTo.month == 12 && MonthIndex(dateFrom) <= MonthIndex(dateTo))
    ensures r.Ok? ==> r.value == MonthStartsSpec(dateFrom, dateTo)
  {
    var current := FirstOfMonth(dateFrom);
    var dates: seq<Date> := [];
    FirstOfMonthLessEq(current, dateTo);
    while LessEq(current, dateTo)
      invariant 1 <= current.month <= 12 && current.day == 1 && MinYear <= current.year <= MaxYear
      invariant MonthIndex(current) == MonthIndex(dateFrom) + |dates|
      invariant |dates| > 0 ==> MonthIndex(current) <= MonthIndex(dateTo) + 1
      invariant forall i :: 0 <= i < |dates| ==> dates[i] == MonthStart(MonthIndex(dateFrom) + i)
      decreases MonthIndex(dateTo) + 1 - MonthIndex(current)
    {
      FirstOfMonthLessEq(current, dateTo);
      MonthStartOfIndex(current);
      dates := dates + [current];
      NextMonthStart(current);
      var later := AddDays(current, 32);
      if later.None? {
        return Err(OverflowError);
      }
      current := FirstOfMonth(later.value);
      FirstOfMonthLessEq(current, dateTo);
    }
    assert |dates| == MonthSpan(dateFrom, dateTo);
    r := Ok(dates);
  }

  /**
   * Every date of the walk is a valid first of a month no later than
   * `dateTo`; the first is the first of `dateFrom`'s month; each next one is
   * exactly one month later; and every month of the span occurs exactly once.
   */
  lemma MonthStartsProperties(dateFrom: Date, dateTo: Date)
    requires IsValid(dateFrom) && IsValid(dateTo)
    ensures var ds := MonthStartsSpec(dateFrom, dateTo);
      && (forall i :: 0 <= i < |ds| ==> ds[i].day == 1 && 1 <= ds[i].month <= 12 && LessEq(ds[i], dateTo))
      && (ds != [] ==> ds[0] == FirstOfMonth(dateFrom))
      && (ds == [] <==> !LessEq(FirstOfMonth(dateFrom), dateTo))
      && (forall i :: 0 <= i < |ds| - 1 ==> MonthIndex(ds[i + 1]) == MonthIndex(ds[i]) + 1)
      && (forall m :: MonthIndex(dateFrom) <= m <= MonthIndex(dateTo) ==> MonthStart(m) in ds)
      && (forall i, j :: 0 <= i < j < |ds| ==> MonthIndex(ds[i]) < MonthIndex(ds[j]))
  {
    var ds := MonthStartsSpec(dateFrom, dateTo);
    FirstOfMonthLessEq(FirstOfMonth(dateFrom), dateTo);
    forall i | 0 <= i < |ds|
      ensures ds[i].day == 1 && 1 <= ds[i].month <= 12 && LessEq(ds[i], dateTo)
      ensures MonthIndex(ds[i]) == MonthIndex(dateFrom) + i
    {
      MonthIndexOfStart(MonthIndex(dateFrom) + i);
      FirstOfMonthLessEq(ds[i], dateTo);
    }
    if ds != [] {
      MonthStartOfIndex(FirstOfMonth(dateFrom));
    }
    forall m | MonthIndex(dateFrom) <= m <= MonthIndex(dateTo)
      ensures MonthStart(m) in ds
    {
      assert ds[m - MonthIndex(dateFrom)] == MonthStart(m);
    }
  }
}
