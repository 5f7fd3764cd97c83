# CashmoneyDjango core, modelled in Dafny

CashmoneyDjango is a personal-finance application. It imports bank
transactions from CSV exports. It then categorises each transaction by
matching keyword rules against a "categorisation string" built from the
transaction's text fields, and shows statistics in dashboard widgets. This
project models the decision logic of that core and proves properties of it:

- `categorization.dfy` (module `Categorization`) covers `CategorizationService`
  and `CategorizationResult`:
  - rule normalisation in the constructor;
  - the categorisation string;
  - the self-transfer check;
  - include/exclude keyword matching;
  - resolution of zero, one or several matches into a result.
- `csv_import.dfy` (module `CsvImport`) covers the `import_transactions` view:
  - trailing-delimiter cleaning;
  - per-row field extraction;
  - one transaction per row;
  - a single bulk insert;
  - statuses 201/500/405.
- `legacy_match.dfy` (module `LegacyMatch`) and `keyword_query.dfy` (module
  `KeywordQuery`) cover the two older keyword matchers.
- `filters.dfy` (module `Filters`) covers the filter-parameter store
  (`BaseFilter`) and the ordered merge of `FilterManager`.
- `calendar.dfy` (module `Calendar`) holds calendar dates. It also holds the
  month-start walk of the chart widgets, including why "first of the month
  + 32 days, then day 1" always reaches the next month.
- `stats.dfy` (module `Stats`) covers the widgets' zero-row padding and the
  overview widget's expense, income and net sums.
- `text.dfy` (module `Text`) models the Python string operations the code
  relies on: `lower`, `replace(" ", "")`, `in`, `strip`/`rstrip`, `join` and
  `splitlines`. `wrappers.dfy` (module `Wrappers`) holds `Option` and `Result`.

The source's classes are Dafny classes, whose methods are proved against
specification functions:

- `CategorizationService`
- `BaseFilter` and `FilterManager`, whose methods change their dictionaries
- the two chart widgets; `BarChartWidget` keeps its filter parameters
  unchanged after construction, and `OverviewStatsWidget` fills its `stats`
  dictionary in place
- the transaction table the view appends to

The loops of the source are `for`/`while` loops with invariants. Database
reads are inputs: the keyword table, the own account numbers, the CSV
mappings and the bank accounts. Library calls are function parameters:
`ast.literal_eval`, `bytes.decode`, `pandas.read_csv`, `datetime.strptime`,
`float` and `bulk_create`. For the first five, `None` stands for "the call
raised". `bulk_create` is a function to `bool`, where `false` stands for "the
call raised".

### Behaviour of the code worth knowing

- **Amount.** A missing or unparseable amount is not reported per row.
  - An unparseable cell (including an empty one) becomes `None`, because the
    `ValueError` is caught.
  - An absent amount column reaches `float(None)`. Its `TypeError` is not
    caught, so the whole request fails with status 500 (`ParseAmount`,
    `AmountSpec`).
- **Dates.** An empty or absent cell gives `None`, for the submission date
  and for the transaction date alike. Both dates use the fixed format `%d.%m.%Y`
  (`DateCellSpec`).
- **Errors.** The first exception in any row aborts the whole import, stores
  nothing and answers 500 (`BuildAllSpec`,
  `ImportTransactions`).
- **Counterparty account.** The account number and the bank code are copied
  unchanged into two separate fields. Every other text field is copied the
  same way, and a field without a cell is `None`; in particular the currency
  has no default (`ExtractRowCopiesCells`).
- **Blank terms.** An include list that is empty after dropping empty
  terms never matches (`InertKeywordNeverMatches`). A term made only of
  spaces, however, is kept and normalises to "", which occurs in every
  string. Such a term is always satisfied as an include term
  (`BlankIncludeTermMatchesEverything`) and vetoes every match as an exclude
  term (`BlankExcludeTermVetoes`). In the legacy matcher a blank value
  matches every string (`BlankValueMatchesEverything`).

## Model

| member | source | states |
|---|---|---|
| Categorization.ToDict | core/services.py:14-19 | the dictionary holds exactly the result's subcategory, want_need_investment and ignore |
| Categorization.CategorizationService.constructor | core/services.py:23-42 | the optimised keywords are the stored keywords, in store order, each with its normalised include and exclude terms; the own account numbers are the stored ones |
| Categorization.NormalizeTermsSpec | core/services.py:35-36 | the normalised terms are exactly the lower-cased, space-free forms of the non-empty raw terms, each in normal form; the list is empty iff every raw term is empty |
| Categorization.NonDictRulesAreEmpty | core/services.py:28-30 | a keyword whose rules are not a dictionary has no include and no exclude terms |
| Categorization.CategorizationService.GetCategorizationString | core/services.py:44-61 | the result is the " \| "-join of the non-empty values of the listed fields, in list order; a field text that cannot be evaluated means no fields |
| Categorization.KeptValuesAppend | core/services.py:57-60 | the parts for a concatenated field list are the parts of each piece, in order |
| Categorization.KeptValuesSpec | core/services.py:57-60 | every part is the non-empty value of a listed field; there are no parts iff every listed field is None, "" or absent |
| Categorization.KeptValuesAllPresent | core/services.py:57-60 | when every listed field has a non-empty value, the parts are those values in list order |
| Categorization.JoinOfNonEmpty | core/services.py:61 | a join of non-empty parts is empty iff there are no parts |
| Categorization.CategorizationStringEmptyIff | core/services.py:57-61 | the categorisation string is empty iff no listed field has a non-empty value |
| Categorization.UnparseableFieldsGiveEmptyString | core/services.py:49-55 | a field text that fails to evaluate gives the empty categorisation string |
| Categorization.CategorizationService.ApplyCategorization | core/services.py:63-128 | the result is the self-transfer result when the counterparty account is an own account, otherwise the resolution of the keywords matched against the normalised string |
| Categorization.MatchedKeywordsAppend | core/services.py:82-98 | the matches of a concatenated keyword list are those of each piece, in keyword order |
| Categorization.MatchedKeywordsMembership | core/services.py:80-98 | a keyword is matched iff some entry of the list carries it and matches; there are never more matches than keywords |
| Categorization.AllOccurIff | core/services.py:91 | the all-include test holds iff every non-empty raw include term, normalised, occurs in the string |
| Categorization.AnyOccursIff | core/services.py:95 | the any-exclude test holds iff some non-empty raw exclude term, normalised, occurs in the string |
| Categorization.KeywordMatchedIff | core/services.py:79-98 | a keyword of the table is matched iff it has a non-empty include term, all its include terms occur in the normalised string and none of its exclude terms does |
| Categorization.InertKeywordNeverMatches | core/services.py:87-88 | a keyword with no non-empty include term never matches |
| Categorization.BlankIncludeTermMatchesEverything | core/services.py:87-98 | a keyword of the table with at least one non-empty include term, all of them made only of spaces, and no non-empty exclude term matches every categorisation string |
| Categorization.BlankExcludeTermVetoes | core/services.py:93-98 | a keyword of the table with a non-empty exclude term made only of spaces never matches any categorisation string |
| Categorization.ResolveNoMatch | core/services.py:101-103 | no match gives is_uncategorized with every other field at its default |
| Categorization.ResolveAgreeing | core/services.py:105-124 | when all matches prescribe the same triple (in particular a single match), that triple is adopted, with neither flag set |
| Categorization.ResolveOverlapIff | core/services.py:112-128 | overlap holds iff two matches prescribe different triples, and then the triple is (None, None, False); uncategorised holds iff nothing matched; the two flags never hold together |
| Categorization.ResolveDependsOnlyOnOutcomes | core/services.py:113-128 | the result depends only on the set of prescribed triples, not on the order or repetition of the matches |
| Categorization.SelfTransferWins | core/services.py:69-76 | a self-transfer yields ignore=True with every other field at its default, whatever the keywords say |
| Text.RemoveSpacesSpec | core/services.py:35-36 | removing spaces leaves no space, never lengthens, and introduces no character |
| Text.RemoveSpacesAppend | core/services.py:35-36 | removing spaces distributes over concatenation |
| Text.LowerAppend | core/services.py:79 | lower-casing distributes over concatenation |
| Text.RemoveSpacesOfLower | core/services.py:79 | lower-casing and removing spaces commute |
| Text.NormalizeIsNormal | core/services.py:79 | a normalised string has no space and no upper-case letter |
| Text.NormalOfNormal | core/services.py:79 | normalising a string that has no space and no upper-case letter changes nothing |
| Text.NormalizeIdempotent | core/services.py:79 | normalising twice equals normalising once |
| Text.NormalizeIgnoresCase | core/base/utils/utils.py:9 | normalisation ignores case |
| Text.NormalizeIgnoresSpaces | core/base/utils/utils.py:9 | normalisation ignores an inserted space |
| Text.EmptyIsContained | core/services.py:91 | the empty string occurs in every string |
| Text.RStripBySpec | core/base/views.py:26 | rstrip keeps a prefix, removes only characters of the set, and leaves no such character at the end |
| Text.LStripBySpec | core/base/views.py:71 | lstrip keeps a suffix, removes only characters of the set, and leaves no such character at the start |
| Text.StripSpec | core/base/views.py:71 | strip keeps a slice of the string with no whitespace at either end, and cuts off only whitespace before and after it |
| Text.SplitLinesFromNoBreaks | core/base/views.py:26 | no line produced by splitlines contains a line break |
| LegacyMatch.GetMatchingKeywordObjs | core/base/utils/utils.py:5-12 | a None string gives None; otherwise the result is the set of keywords whose normalised value occurs in the normalised string |
| LegacyMatch.MatchingKeywordsSpec | core/base/utils/utils.py:6-10 | the result is drawn from the keyword table and holds a keyword iff its normalised value occurs in the normalised string |
| LegacyMatch.InsensitiveToCaseAndSpaces | core/base/utils/utils.py:9 | lower-casing the string or inserting a space into it leaves the result unchanged |
| Text.RemoveSpacesOfBlank | core/base/utils/utils.py:9 | a value made only of spaces loses every character when spaces are removed, and normalises to "" |
| LegacyMatch.BlankValueMatchesEverything | core/base/utils/utils.py:9 | a keyword whose value is empty or only spaces matches every string |
| KeywordQuery.GetMatchingKeywordObjs | core/utils.py:6-17 | the result is the union, over the strings that are not None, of the keywords each one selects |
| KeywordQuery.MatchingMembership | core/utils.py:7-17 | a keyword is in the result iff some string that is not None selects it; an empty list gives an empty result |
| KeywordQuery.SubstringIsMatched | core/utils.py:12-15 | a keyword whose value is a case-sensitive substring of some string is in the result |
| KeywordQuery.UnmatchedStringSelectsAll | core/utils.py:11-15 | a string that no keyword occurs in makes the result the whole keyword table, because the empty query filters nothing |
| KeywordQuery.OrderAndRepetitionIrrelevant | core/utils.py:9-15 | the result depends only on the set of strings that are not None |
| Filters.BaseFilter.constructor | widgets/filters/base.py:2-3 | a new filter has no parameters |
| Filters.BaseFilter.GetParam | widgets/filters/base.py:9-11 | the stored value, or None exactly when the key is absent |
| Filters.BaseFilter.SetParam | widgets/filters/base.py:5-7 | afterwards the key maps to the value, overwriting any earlier one, and every other key is unchanged |
| Filters.BaseFilter.ClearParams | widgets/filters/base.py:13-15 | afterwards no key has a value, so clearing again changes nothing |
| Filters.FilterManager.constructor | widgets/filters/manager.py:5-7 | a new manager has no filters |
| Filters.FilterManager.AddFilter | widgets/filters/manager.py:9-13 | a non-filter raises TypeError and changes nothing; a filter is stored under the key, a new key is appended to the insertion order, and an existing key keeps its position |
| Filters.FilterManager.GetCombinedParams | widgets/filters/manager.py:23-31 | the result is the filters' parameters merged in insertion order; no filter changes |
| Filters.CombineKeys | widgets/filters/manager.py:28-31 | the merged keys are exactly the union of the filters' keys |
| Filters.CombineLastWins | widgets/filters/manager.py:29-30 | on a shared key, the value of the last filter that sets it wins |
| Calendar.DaysInMonthRange | widgets/stats/bar_chart.py:37-38 | every month has 28 to 31 days |
| Calendar.DaysLaterAdd | widgets/stats/bar_chart.py:37 | adding a+b days equals adding a days, then b days |
| Calendar.DaysLaterWithinMonth | widgets/stats/bar_chart.py:37 | within a month, adding n days adds n to the day |
| Calendar.FirstPlus32 | widgets/stats/bar_chart.py:37-38 | the first of any month plus 32 days lies in the next month, on day 2 to 5 |
| Calendar.NextMonthStart | widgets/stats/bar_chart.py:37-38 | from the first of a month, +32 days then day 1 gives the first of the next month; it overflows exactly in December 9999 |
| Calendar.MonthIndexOfStart | widgets/stats/bar_chart.py:38 | month starts and month indices correspond one to one |
| Calendar.MonthStartOfIndex | widgets/stats/bar_chart.py:38 | a first-of-month date is the month start of its own index |
| Calendar.FirstOfMonthLessEq | widgets/stats/bar_chart.py:33 | for a first-of-month date, being no later than a date means being in no later a month |
| Calendar.MonthStarts | widgets/stats/bar_chart.py:27-38 | the loop ends; it raises exactly when date_to is in December 9999 and date_from's month is not later; otherwise it yields one month start per month of the span |
| Calendar.MonthStartsProperties | widgets/stats/bar_chart.py:30-38 | every walked date is a first of a month no later than date_to; the first is the first of date_from's month, and there are none iff that is after date_to; consecutive dates are one month apart; every month of the span occurs exactly once |
| Stats.PaddedRowsProperties | widgets/stats/bar_chart.py:26-48 | the padded frame keeps the original rows first, then one zero row per month of the span, dated the first of consecutive months no later than date_to |
| Stats.PaddingCoversEachMonthOnce | widgets/stats/bar_chart.py:33-48 | every month of the span has its zero row, and no two padding rows share a date |
| Stats.BarChartWidget.constructor | widgets/stats/bar_chart.py:10-12 | the widget keeps the filter parameters |
| Stats.BarChartWidget.AddMonthStartTransactions | widgets/stats/bar_chart.py:26-48 | a missing date_from raises AttributeError and a missing date_to raises TypeError; otherwise the padded frame, or the overflow error |
| Stats.OverviewStatsWidget.AddMonthStartTransactions | widgets/stats/overview_stats.py:98-120 | the same padding as the bar chart |
| Stats.OverviewStatsWidget.constructor | widgets/stats/overview_stats.py:18-24 | with no transactions stats stays empty; otherwise the sums are stored unless the padding raises |
| Stats.OverviewStatsWidget.CalculateStats | widgets/stats/overview_stats.py:26-84 | stats receives the expense, income and net sums unless the padding raises, in which case stats is unchanged |
| Stats.SumStats | widgets/stats/overview_stats.py:27-39 | exactly the three keys, with the net sum equal to the income sum plus the expense sum |
| Stats.SumWhereAppend | widgets/stats/overview_stats.py:27-38 | a filtered sum over a concatenation is the sum of the parts |
| Stats.SumsAppend | widgets/stats/overview_stats.py:27-38 | the expense and income sums of a concatenation are the sums of the parts |
| Stats.SumsSplitBySign | widgets/stats/overview_stats.py:27-38 | expenses plus incomes plus the zero-amount transactions give the total effective amount |
| Stats.ZeroAmountsCountInNeither | widgets/stats/overview_stats.py:27-38 | a zero-amount transaction changes neither sum |
| Stats.NoExpensesSumToZero | widgets/stats/overview_stats.py:27-32 | with no negative amount the expense sum is 0 |
| Stats.NoIncomesSumToZero | widgets/stats/overview_stats.py:33-38 | with no positive amount the income sum is 0 |
| CsvImport.CleanLinesSpec | core/base/views.py:24-26 | each cleaned line is its raw line minus trailing delimiter characters (whitespace when no delimiter is set), otherwise unchanged, and holds no line break |
| CsvImport.DateCellSpec | core/base/views.py:47-53 | a date is None iff its cell is empty or absent; otherwise it is what strptime with %d.%m.%Y gives, or an error |
| CsvImport.AmountSpec | core/base/views.py:55-61 | a present amount cell never fails; float sees it with commas turned into dots; an empty cell gives None; only an absent cell fails |
| CsvImport.OtherNoteSpec | core/base/views.py:70-71 | other_note is the space-join of the columns' cells with only whitespace cut off at either end, and has none left there; it is the join itself when that has no surrounding whitespace; no columns give "" |
| CsvImport.ExtractRowCopiesCells | core/base/views.py:45-107 | a built transaction copies every configured text cell unchanged (None without a cell; account number and bank code separately; no default currency), holds the parsed dates and amount and the built other note, and takes an existing bank account from the mapping |
| CsvImport.CollectOk | core/base/views.py:40-110 | a loop that finishes holds one value per step, in order |
| CsvImport.CollectFirstError | core/base/views.py:40-110 | a loop that fails does so with the error of its first failing step |
| CsvImport.CollectStopsAtError | core/base/views.py:40-110 | once a prefix fails, the whole loop fails with the same error |
| CsvImport.BuildAllSpec | core/base/views.py:39-110 | the row loop succeeds iff every row does, then with one transaction per row in row order; otherwise with the first failing row's error |
| CsvImport.NoRowsNoBankAccountLookup | core/base/views.py:40-66 | a file with no rows succeeds even if the bank account does not exist |
| CsvImport.UnknownBankAccountFailsEveryRow | core/base/views.py:65-66 | with an unknown bank account every non-empty file fails |
| CsvImport.TransactionStore.ImportTransactions | core/base/views.py:12-119 | a non-POST gets 405 and changes nothing; a POST gets 201 with its transactions appended, or 500 with the error and the table unchanged |
| CsvImport.ImportOneTransactionPerRow | core/base/views.py:39-112 | a successful import creates exactly one transaction per parsed row, in row order |

## Left out

- `Lower`: models `str.lower()` on ASCII letters only. Other Unicode case mappings are not modelled. `isspace` does use Python's full list of whitespace characters.
- The keyword table's ordering by `description` is the store's job. The model takes the keyword sequence in the order given.
- Transaction data values are modelled as strings or `None`. `str()` of other Python values is not modelled.
- Keyword rule terms are modelled as strings, and `include`/`exclude` as lists of strings, absent or present. An absent key means `[]`, and a non-dictionary `rules` means no terms. These JSON shapes are not represented:
  - a present-but-null `include`/`exclude`, which makes the source raise when it iterates it;
  - non-string terms: the `if r` filter drops the falsy ones (`None`, `0`, `false`, `[]`, `{}`), and a truthy one raises at `.lower()`;
  - an `include`/`exclude` that is a JSON string: the source iterates it character by character, each character becoming a term;
  - an `include`/`exclude` that is a number or a boolean, which the source fails to iterate;
  - an `include`/`exclude` that is a dictionary, whose keys the source iterates as terms.
- The subcategory is modelled by its identifier; `want_need_investment` by the four choices.
- `import_transactions` leaves these out:
  - `print(raw_data)`;
  - how Django converts the posted `id`, which arrives here as an optional number;
  - the message text `str(e)`, which is represented by the kind of error;
  - how `read_csv` interprets `header`, `encoding` and `on_bad_lines`, which are passed to the parse parameter;
  - mapping values of unexpected JSON types.
- `bulk_create` is taken to be all-or-nothing.
- Dates are `datetime.date` values. The time of day of the `datetime` that `strptime` returns is not modelled.
- `OverviewStatsWidget.CalculateStats`: stores the three sums as numbers. The `f"{:,.0f}"` formatting and the three monthly-average keys are not modelled: pandas group means are floating-point library code.
- `BarChartWidget.make_df`, `place_widget`, `_get_first_date` and `_get_last_date` are pandas and Streamlit rendering, and are not modelled. So are `OverviewStatsWidget.place_widget` and `FilterManager.place_widgets`.
- `pd.Timestamp` range limits on the padding dates are not modelled. Amounts are real numbers, not `Decimal` or floats.
- Filter parameter values are of an arbitrary type; the chart widgets take them to be valid dates.
