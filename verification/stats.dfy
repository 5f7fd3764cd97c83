/**
 * The statistics widgets (widgets/stats/bar_chart.py and
 * widgets/stats/overview_stats.py): both pad the transaction rows with one
 * zero-amount row per month from `date_from`'s month to `date_to`'s month,
 * and the overview widget sums the effective amounts of expenses
 * (`amount < 0`) and incomes (`amount > 0`) into its `stats` dictionary.
 */
module Stats {
  import opened Wrappers
  import opened Calendar

  /** A data-frame row: the bar chart's frame has no `amount` column, so there it is `None` (NaN after the concat). */
  datatype Row = Row(date: Date, amount: Option<real>, effectiveAmount: real)

  /** A transaction as the overview widget reads it. */
  datatype StatTransaction = StatTransaction(date: Date, amount: real, effectiveAmount: real)

  /**
   * The exceptions of `_add_month_start_transactions`: `None.replace` when
   * `date_from` is not set, `date <= None` when `date_to` is not set, and
   * `date + timedelta` past the year 9999.
   */
  datatype WidgetError = AttributeError | TypeError | DateOverflowError

  const DateFrom := "date_from"
  const DateTo := "date_to"

  /** Filter parameters hold real calendar dates. */
  predicate DatesValid(filterParams: map<string, Date>) {
    forall k :: k in filterParams ==> IsValid(filterParams[k])
  }

  /** The zero row added for a month start. */
  function PaddingRow(d: Date): Row {
    Row(d, Some(0.0), 0.0)
  }

  /** What `_add_month_start_transactions` returns or raises, given the filter parameters. */
  function PaddedRows(filterParams: map<string, Date>, rows: seq<Row>): Result<seq<Row>, WidgetError>
    requires DatesValid(filterParams)
  {
    if DateFrom !in filterParams then Err(AttributeError)
    else if DateTo !in filterParams then Err(TypeError)
    else
      var dateFrom, dateTo := filterParams[DateFrom], filterParams[DateTo];
      if dateTo.year == MaxYear && dateTo.month == 12 && MonthIndex(dateFrom) <= MonthIndex(dateTo) then Err(DateOverflowError)
      else
        var starts := MonthStartsSpec(dateFrom, dateTo);
        Ok(rows + seq(|starts|, i requires 0 <= i < |starts| => PaddingRow(starts[i])))
  }

  /**
   * The padded frame keeps the original rows, in order, in front; after them
   * come only zero rows, one per month of the span, each dated the first of
   * its month, no later than `date_to`, in consecutive months starting with
   * `date_from`'s month.
   */
  lemma PaddedRowsProperties(filterParams: map<string, Date>, rows: seq<Row>)
    requires DatesValid(filterParams)
    requires DateFrom in filterParams && DateTo in filterParams
    ensures var dateFrom, dateTo := filterParams[DateFrom], filterParams[DateTo];
      var r := PaddedRows(filterParams, rows);
      r.Ok? ==>
        && |r.value| == |rows| + MonthSpan(dateFrom, dateTo)
        && r.value[..|rows|] == rows
        && (forall i :: |rows| <= i < |r.value| ==>
              && r.value[i].amount == Some(0.0) && r.value[i].effectiveAmount == 0.0
              && r.value[i].date.day == 1 && LessEq(r.value[i].date, dateTo)
              && MonthIndex(r.value[i].date) == MonthIndex(dateFrom) + (i - |rows|))
        && (|r.value| > |rows| ==> r.value[|rows|].date == FirstOfMonth(dateFrom))
        && (|r.value| == |rows| <==> !LessEq(FirstOfMonth(dateFrom), dateTo))
  {
    var dateFrom, dateTo := filterParams[DateFrom], filterParams[DateTo];
    var starts := MonthStartsSpec(dateFrom, dateTo);
    MonthStartsProperties(dateFrom, dateTo);
    var r := PaddedRows(filterParams, rows);
    if r.Ok? {
      forall i | |rows| <= i < |r.value|
        ensures r.value[i].date == starts[i - |rows|]
        ensures MonthIndex(r.value[i].date) == MonthIndex(dateFrom) + (i - |rows|)
      {
        MonthIndexOfStart(MonthIndex(dateFrom) + (i - |rows|));
      }
    }
  }

  /** The padding covers each month of the span exactly once. */
  lemma PaddingCoversEachMonthOnce(filterParams: map<string, Date>, rows: seq<Row>, m: int)
    requires DatesValid(filterParams)
    requires DateFrom in filterParams && DateTo in filterParams
    requires PaddedRows(filterParams, rows).Ok?
    requires MonthIndex(filterParams[DateFrom]) <= m <= MonthIndex(filterParams[DateTo])
    ensures var padded := PaddedRows(filterParams, rows).value;
      exists i :: |rows| <= i < |padded| && padded[i] == PaddingRow(MonthStart(m))
    ensures var padded := PaddedRows(filterParams, rows).value;
      forall i, j :: |rows| <= i < j < |padded| ==> padded[i].date != padded[j].date
  {
    var dateFrom := filterParams[DateFrom];
    var padded := PaddedRows(filterParams, rows).value;
    PaddedRowsProperties(filterParams, rows);
    var i := |rows| + (m - MonthIndex(dateFrom));
    MonthIndexOfStart(m);
    assert padded[i].date == MonthStart(m);
  }

  /** `BarChartWidget`: only its padding of the frame is modelled. */
  class BarChartWidget {
    const filterParams: map<string, Date>

    constructor (filterParams: map<string, Date>)
      ensures this.filterParams == filterParams
    {
      this.filterParams := filterParams;
    }

    /** `_add_month_start_transactions` of the bar chart. */
    method AddMonthStartTransactions(rows: seq<Row>) returns (r: Result<seq<Row>, WidgetError>)
      requires DatesValid(filterParams)
      ensures r == PaddedRows(filterParams, rows)
    {
      if DateFrom !in filterParams {
        return Err(AttributeError);
      }
      if DateTo !in filterParams {
        return Err(TypeError);
      }
      var dates := MonthStarts(filterParams[DateFrom], filterParams[DateTo]);
      if dates.Err? {
        return Err(DateOverflowError);
      }
      var padding := seq(|dates.value|, i requires 0 <= i < |dates.value| => PaddingRow(dates.value[i]));
      r := Ok(rows + padding);
    }
  }

  /** The sum of `effectiveAmount` over the transactions whose `amount` satisfies `keep`. */
  function SumWhere(ts: seq<StatTransaction>, keep: real -> bool): real {
    if ts == [] then 0.0
    else SumWhere(ts[..|ts| - 1], keep) + (if keep(ts[|ts| - 1].amount) then ts[|ts| - 1].effectiveAmount else 0.0)
  }

  /** `filter(amount__lt=0).aggregate(Sum("effective_amount")) or 0`. */
  function SumOfExpenses(ts: seq<StatTransaction>): real {
    SumWhere(ts, a => a < 0.0)
  }

  /** `filter(amount__gt=0).aggregate(Sum("effective_amount")) or 0`. */
  function SumOfIncomes(ts: seq<StatTransaction>): real {
    SumWhere(ts, a => a > 0.0)
  }

  const SumExpensesKey := "sum_of_expenses"
  const SumIncomesKey := "sum_of_incomes"
  const NetSumKey := "net_sum"

  /** The three sums `_calculate_stats` stores (before formatting). */
  function SumStats(ts: seq<StatTransaction>): (stats: map<string, real>)
    ensures stats.Keys == {SumExpensesKey, SumIncomesKey, NetSumKey}
    ensures stats[NetSumKey] == stats[SumIncomesKey] + stats[SumExpensesKey]
    ensures stats[SumExpensesKey] == SumOfExpenses(ts) && stats[SumIncomesKey] == SumOfIncomes(ts)
  {
    var expenses := SumOfExpenses(ts);
    var incomes := SumOfIncomes(ts);
    map[SumExpensesKey := expenses, SumIncomesKey := incomes, NetSumKey := incomes + expenses]
  }

  function AsRow(t: StatTransaction): Row {
    Row(t.date, Some(t.amount), t.effectiveAmount)
  }

  /** `OverviewStatsWidget`: the sums it stores in `stats`; the monthly averages are not modelled. */
  class OverviewStatsWidget {
    const transactions: seq<StatTransaction>
    const filterParams: map<string, Date>
    var stats: map<string, real>
    /** The exception `__init__` raises, if any. */
    var raised: Option<WidgetError>

    /**
     * `__init__`: `stats` stays empty when there are no transactions;
     * otherwise `_calculate_stats` fills it, unless the padding raises.
     */
    constructor (transactions: seq<StatTransaction>, filterParams: map<string, Date>)
      requires DatesValid(filterParams)
      ensures this.transactions == transactions && this.filterParams == filterParams
      ensures |transactions| == 0 ==> stats == map[] && raised.None?
      ensures |transactions| > 0 ==>
                var padded := PaddedRows(filterParams, seq(|transactions|, i requires 0 <= i < |transactions| => AsRow(transactions[i])));
                && (padded.Err? ==> raised == Some(padded.error) && stats == map[])
                && (padded.Ok? ==> raised.None? && stats == SumStats(transactions))
    {
      this.transactions := transactions;
      this.filterParams := filterParams;
      stats := map[];
      raised := None;
      new;
      if |transactions| > 0 {
        raised := CalculateStats();
      }
    }

    /** `_add_month_start_transactions` of the overview widget. */
    method AddMonthStartTransactions(rows: seq<Row>) returns (r: Result<seq<Row>, WidgetError>)
      requires DatesValid(filterParams)
      ensures r == PaddedRows(filterParams, rows)
    {
      if DateFrom !in filterParams {
        return Err(AttributeError);
      }
      if DateTo !in filterParams {
        return Err(TypeError);
      }
      var dates := MonthStarts(filterParams[DateFrom], filterParams[DateTo]);
      if dates.Err? {
        return Err(DateOverflowError);
      }
      var padding := seq(|dates.value|, i requires 0 <= i < |dates.value| => PaddingRow(dates.value[i]));
      r := Ok(rows + padding);
    }

    /**
     * `_calculate_stats`: the sums are computed first, then the frame is
     * padded; `stats` is assigned only when the padding does not raise.
     */
    method CalculateStats() returns (error: Option<WidgetError>)
      requires DatesValid(filterParams)
      modifies this`stats
      ensures var padded := PaddedRows(filterParams, seq(|transactions|, i requires 0 <= i < |transactions| => AsRow(transactions[i])));
        && (padded.Err? ==> error == Some(padded.error) && stats == old(stats))
        && (padded.Ok? ==> error.None? && stats == SumStats(transactions))
    {
      var expenses := SumOfExpenses(transactions);
      var incomes := SumOfIncomes(transactions);
      var netSum := incomes + expenses;
      var rows := seq(|transactions|, i requires 0 <= i < |transactions| => AsRow(transactions[i]));
      var padded := AddMonthStartTransactions(rows);
      if padded.Err? {
        return Some(padded.error);
      }
      stats := map[SumExpensesKey := expenses, SumIncomesKey := incomes, NetSumKey := netSum];
      error := None;
    }
  }

  lemma {:induction false} SumWhereAppend(a: seq<StatTransaction>, b: seq<StatTransaction>, keep: real -> bool)
    ensures SumWhere(a + b, keep) == SumWhere(a, keep) + SumWhere(b, keep)
    decreases |b|
  {
    if b == [] {
      assert a + b == a;
    } else {
      assert (a + b)[..|a + b| - 1] == a + b[..|b| - 1];
      SumWhereAppend(a, b[..|b| - 1], keep);
    }
  }

  /** The sums of a concatenation are the sums of the parts. */
  lemma SumsAppend(a: seq<StatTransaction>, b: seq<StatTransaction>)
    ensures SumOfExpenses(a + b) == SumOfExpenses(a) + SumOfExpenses(b)
    ensures SumOfIncomes(a + b) == SumOfIncomes(a) + SumOfIncomes(b)
  {
    SumWhereAppend(a, b, a => a < 0.0);
    SumWhereAppend(a, b, a => a > 0.0);
  }

  /**
   * The expense and income sums partition the total by sign of `amount`:
   * together with the zero-amount transactions they give the total
   * effective amount, so a zero-amount transaction is in neither.
   */
  lemma {:induction false} SumsSplitBySign(ts: seq<StatTransaction>)
    ensures SumOfExpenses(ts) + SumOfIncomes(ts) + SumWhere(ts, a => a == 0.0) == SumWhere(ts, a => true)
  {
    if ts != [] {
      SumsSplitBySign(ts[..|ts| - 1]);
    }
  }

  /** Transactions whose `amount` is zero change neither sum. */
  lemma ZeroAmountsCountInNeither(ts: seq<StatTransaction>, t: StatTransaction)
    requires t.amount == 0.0
    ensures SumOfExpenses(ts + [t]) == SumOfExpenses(ts)
    ensures SumOfIncomes(ts + [t]) == SumOfIncomes(ts)
  {
    assert (ts + [t])[..|ts + [t]| - 1] == ts;
  }

  /** Without transactions with a negative amount the expense sum is 0, as `or 0` makes the missing aggregate. */
  lemma {:induction false} NoExpensesSumToZero(ts: seq<StatTransaction>)
    requires forall i :: 0 <= i < |ts| ==> ts[i].amount >= 0.0
    ensures SumOfExpenses(ts) == 0.0
  {
    if ts != [] {
      NoExpensesSumToZero(ts[..|ts| - 1]);
    }
  }

  /** Without transactions with a positive amount the income sum is 0. */
  lemma {:induction false} NoIncomesSumToZero(ts: seq<StatTransaction>)
    requires forall i :: 0 <= i < |ts| ==> ts[i].amount <= 0.0
    ensures SumOfIncomes(ts) == 0.0
  {
    if ts != [] {
      NoIncomesSumToZero(ts[..|ts| - 1]);
    }
  }
}
