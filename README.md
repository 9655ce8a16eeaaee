# Ledger reporting of the ExpenseTracker API, in Dafny

ExpenseTracker is a Django REST service. Users keep accounts, categories and
income/expense transactions in it. Its reporting endpoints turn a user's ledger
into figures:

- `summary` and the `TransactionFilter` period filters of the transaction views;
- `dashboard` and `quick_stats`;
- `with_stats` of the category views;
- `balance_history` and `summary` of the account views;
- the `Account.current_balance` property.

This project models that reporting core on an in-memory ledger (a sequence of
transaction records) with today's date passed in. It also models the ownership
guards that decide which records get into the ledger: `Transaction.save` and
`TransactionSerializer.validate`.

Modules, from the bottom up:

- `Dates` — Python's `datetime.date` arithmetic on the proleptic Gregorian
  calendar: `toordinal()`, `weekday()` (Monday = 0), `+ timedelta(days=n)` and
  `+ relativedelta(months=k)`.
- `Periods` — every date window the views build from a keyword (today,
  yesterday, this/last week, this/last month, quarter, this/last year, trailing
  days). Each window carries what it covers in its contract.
- `Seqs`, `Sorting`, `Grouping` — `filter`, `aggregate(Sum)`, `count()`,
  `values(...).annotate(...)` and `order_by('-total')`.
  - Groups appear in the order their key first appears.
  - They are then sorted stably, largest first.
  - `list.sort(key=..., reverse=True)` is the same stable sort.
- `Ledger` — the records, money as integer cents, and income/expense totals,
  counts and net.
- `AccountModel` — `current_balance` and the `(title, user)` uniqueness of
  accounts.
- `TransactionModel` — `save` as a class holding the table. It appends only
  when both ownership guards pass.
- `TransactionSerializer` — `validate`.
- `TransactionViews`, `DashboardViews`, `AccountViews`, `CategoryViews` — each
  endpoint with its own copy of the period dispatch, as the source has it. The
  loops of `dashboard`, `balance_history` and `with_stats` are methods with
  loop invariants, proved against the functions that specify them.
- `PeriodAgreement` — how the dispatch copies relate. They agree on `today`,
  `week`, `month` and `year`, and they part ways on the other keywords.

The choices of `transaction_type` (api/models/transaction.py:5-8) are income
and expense, but the column is a plain `CharField` whose choices the database
does not enforce.
`current_balance` ignores a record of any other type, while `balance_history`
subtracts it. The model follows the code and keeps such records as
`TxType.Other`.

## Model

| member | source | states |
|---|---|---|
| Dates.AddDays | api/views/transaction_views.py:71 | `d + timedelta(days=n)`, for any sign of `n`, is a valid date exactly `n` ordinals from `d` |
| Dates.AddDaysUnique | api/views/transaction_views.py:104-111 | the valid date `n` ordinals on from `d` is unique: it is `AddDays(d, n)` |
| Dates.WeekdayShift | api/views/transaction_views.py:74 | moving `n` days moves `weekday()` by `n` round the week |
| Dates.ThisMonday | api/views/transaction_views.py:74 | going back `today.weekday()` days lands on a Monday |
| Dates.LastMonday | api/views/transaction_views.py:78 | going back `today.weekday() + 7` days lands on a Monday |
| Dates.SundayAfter | api/views/transaction_views.py:75 | six days after a Monday is a Sunday |
| Dates.OrdinalOrder | api/views/transaction_views.py:76 | date comparison (the bounds of a `__range` lookup) agrees with ordinal comparison |
| Dates.DateKeyOrder | api/views/dashboard_views.py:76 | the numeric sort key of a date orders dates as Python compares them, and is injective |
| Dates.FirstOfMonth | api/views/transaction_views.py:82 | `replace(day=1)` gives a valid first of the same month |
| Dates.AddMonths | api/views/transaction_views.py:83 | `+ relativedelta(months=k)` lands `k` months on, keeping the day unless the month is too short, and then taking that month's last day |
| Dates.MonthIndexOrder | api/views/dashboard_views.py:81 | firsts of months compare as their month numbers do |
| Periods.SingleDay | api/views/transaction_views.py:68-69 | `[d, d]` contains `d` and nothing else |
| Periods.Yesterday | api/views/transaction_views.py:70-72 | the window is the single day one ordinal before today |
| Periods.Week | api/views/transaction_views.py:73-76 | Monday to Sunday, seven days, starting `weekday()` days before today, containing today |
| Periods.LastWeek | api/views/transaction_views.py:77-80 | Monday to Sunday, starting exactly 7 days before this week's Monday and ending the day before it |
| Periods.CalendarMonth | api/views/dashboard_views.py:81-82 | from a first of month to that month's last day: contains exactly the dates of that month |
| Periods.Month | api/views/transaction_views.py:81-84 | first to last day of today's month; contains exactly the dates of that month |
| Periods.LastMonth | api/views/transaction_views.py:85-89 | the whole previous calendar month, December of the previous year in January |
| Periods.Quarter | api/views/transaction_views.py:90-93 | starts on day 1 of month 1, 4, 7 or 10 of today's year, contains today's month and ends on the last day of start month + 2 |
| Periods.QuarterExample | api/views/transaction_views.py:90-93 | the quarter of 2024-05-10 is 2024-04-01 to 2024-06-30 |
| Periods.Year | api/views/transaction_views.py:94-97 | contains exactly the valid dates of today's year |
| Periods.LastYear | api/views/transaction_views.py:98-102 | contains exactly the valid dates of the previous year |
| Periods.TrailingDays | api/views/transaction_views.py:103-111 | `[today - n, today]`: the `n + 1` days ending today |
| Periods.ContainsByOrdinal | api/views/transaction_views.py:76 | an inclusive window is an interval of ordinals |
| Seqs.Filter | api/views/transaction_views.py:69 | a filter keeps only rows that satisfy it, never more copies than the input has |
| Seqs.FilterMember | api/views/transaction_views.py:69 | a row is kept iff it is in the input and satisfies the predicate |
| Seqs.FilterSplit | api/views/transaction_views.py:139-151 | a filter and its negation split the rows, every row going to exactly one side |
| Seqs.SumPermutation | api/models/account.py:21-25 | an aggregate `Sum` does not depend on row order |
| Seqs.SumSplit | api/models/account.py:22-25 | the rows a filter keeps and those it drops add up to the whole sum |
| Seqs.Reversed | api/views/dashboard_views.py:101 | `reverse()` puts element `i` at position `len - 1 - i` |
| Seqs.Take | api/views/dashboard_views.py:107 | `[:n]` is a prefix of length `min(n, len)` |
| Sorting.InsertSorted | api/views/category_views.py:83 | inserting into a list sorted largest first keeps it sorted |
| Sorting.InsertStable | api/views/category_views.py:83 | an inserted element goes before the equal-keyed elements, which keep their order |
| Sorting.SortDesc | api/views/category_views.py:83 | the stable descending sort is a permutation, is sorted largest first, and keeps the input order among equal keys |
| Sorting.TopProperties | api/views/dashboard_views.py:104-107 | the first `n` after sorting are `min(n, len)` rows of the input, largest first, none smaller than a row left out |
| Sorting.TopDominates | api/views/dashboard_views.py:74-76 | a row left out of the first `n` has a key no larger than any row kept |
| Grouping.GroupByEntries | api/views/transaction_views.py:235-236 | each group holds the total and count of exactly the rows with its key, at least one row |
| Grouping.GroupByDistinct | api/views/transaction_views.py:235-236 | no key has two groups |
| Grouping.GroupByCovers | api/views/transaction_views.py:239-240 | every row's key has a group |
| Grouping.GroupByConserves | api/views/transaction_views.py:239-240 | group totals add up to the total of the rows, counts to the number of rows |
| Grouping.DistinctTitlesPermutation | api/views/transaction_views.py:236 | sorting the groups keeps their titles distinct |
| Grouping.BreakdownTotals | api/views/dashboard_views.py:51-55 | the breakdown is sorted by total, largest first, and its totals and counts add up to those of the rows |
| Grouping.BreakdownGroups | api/views/dashboard_views.py:51-55 | the breakdown has one group per key of the rows, with that key's total and count |
| Ledger.ResolveType | api/models/transaction.py:5-16 | an absent type is `expense`; a given label is accepted iff it is `income` or `expense` |
| Ledger.ResolveTypeLabel | api/models/transaction.py:5-8 | each choice is accepted back from its own label |
| Ledger.StampKeyOrder | api/models/transaction.py:43 | the `created_at` sort key orders by date, then by time of day |
| Ledger.TotalsWithoutRows | api/views/transaction_views.py:228-231 | the `or 0`: with no income (expense) rows, the income (expense) total and count are 0 |
| Ledger.NetIsSignedSum | api/views/transaction_views.py:232 | income less expenses is the sum of `+amount` for income, `-amount` for expense and 0 for other types |
| Ledger.AggregatesPermutation | api/views/transaction_views.py:228-231 | totals and counts do not depend on row order |
| Ledger.FiguresProperties | api/views/dashboard_views.py:44-48 | net is the signed total; totals are 0 without rows of their type; the figures do not depend on row order |
| Ledger.CountsAddUp | api/views/transaction_views.py:253-255 | with only income and expense rows, the count is the income count plus the expense count |
| Ledger.AmountsAddUp | api/views/category_views.py:72 | with only income and expense rows, the unsigned total is the income total plus the expense total |
| AccountModel.CurrentBalanceSigned | api/models/account.py:16-27 | the balance is `initial` plus the signed amounts of the account's rows, other types counting nothing |
| AccountModel.CurrentBalanceWithoutRows | api/models/account.py:22-25 | an account without rows has its initial amount as balance |
| AccountModel.CurrentBalancePermutation | api/models/account.py:21-27 | the balance does not depend on ledger order |
| AccountModel.CurrentBalanceAppend | api/models/account.py:21-27 | one more record of any date moves its own account by its signed amount and no other account |
| AccountModel.TotalChange | api/views/account_views.py:48-50 | total current less total initial is the sum of the accounts' changes |
| AccountModel.AddAccount | api/models/account.py:10 | an insert fails iff the user already has that title; otherwise it appends, and uniqueness is kept |
| TransactionModel.SaveGuard | api/models/transaction.py:57-60 | no error iff category and account are the user's; the category error wins when both differ |
| TransactionModel.TransactionTable.constructor | api/models/transaction.py:55-61 | the table starts empty and consistent |
| TransactionModel.TransactionTable.Save | api/models/transaction.py:55-61 | a refused record leaves the table unchanged; an accepted one is appended as given; every stored row stays owned |
| TransactionSerializer.Validate | api/serializers/transaction_serializer.py:30-41 | accepted iff the category and the account, where present, are the user's; the category is checked first; the data comes back unchanged |
| TransactionSerializer.ValidateAgreesWithSave | api/serializers/transaction_serializer.py:34-39 | for full data, validation and `save` accept the same records and report the same first failure |
| TransactionViews.PeriodFilterWindow | api/views/transaction_views.py:64-113 | a window exactly for the twelve known keywords, always well formed |
| TransactionViews.FilterByPeriod | api/views/transaction_views.py:113 | an unknown keyword returns the rows unchanged |
| TransactionViews.FilterByPeriodKeeps | api/views/transaction_views.py:64-111 | a known keyword keeps exactly the rows created on a day of its window, both ends included |
| TransactionViews.FilterByDay | api/views/transaction_views.py:115-119 | a value outside 1..31 changes nothing |
| TransactionViews.FilterByDayKeeps | api/views/transaction_views.py:117-118 | a value in 1..31 keeps exactly the rows created on that day of the month |
| TransactionViews.FilterByMonth | api/views/transaction_views.py:121-125 | a value outside 1..12 changes nothing |
| TransactionViews.FilterByMonthKeeps | api/views/transaction_views.py:123-124 | a value in 1..12 keeps exactly the rows created in that month |
| TransactionViews.FilterByYear | api/views/transaction_views.py:127-131 | a value below 1900 changes nothing |
| TransactionViews.FilterByYearKeeps | api/views/transaction_views.py:129-130 | a value from 1900 keeps exactly the rows created in that year |
| TransactionViews.LookupWeekDay | api/views/transaction_views.py:136 | the `week_day` numbering: Sunday 1, Monday 2, ..., Saturday 7 |
| TransactionViews.FilterByWeekday | api/views/transaction_views.py:133-137 | a value outside 0..6 changes nothing |
| TransactionViews.FilterByWeekdayShifted | api/views/transaction_views.py:133-137 | as written, value `v` keeps the rows created on `weekday()` `(v + 6) % 7`, so 0 selects Sundays |
| TransactionViews.FilterByWeekdayMissesMonday | api/views/transaction_views.py:134-136 | a record created on a Monday is dropped by value 0, documented as Monday |
| TransactionViews.FilterByWeekdayIntended | api/views/transaction_views.py:133-137 | the corrected filter also changes nothing outside 0..6 |
| TransactionViews.FilterByWeekdayIntendedKeeps | api/views/transaction_views.py:134 | the corrected filter keeps exactly the rows created on `weekday()` `v` |
| TransactionViews.FilterHasReceiptSplits | api/views/transaction_views.py:139-144 | `true` keeps rows whose receipt is not `''` (missing ones too), `false` those with `''`; together every row once |
| TransactionViews.FilterHasNotesSplits | api/views/transaction_views.py:146-151 | `true` keeps rows with non-empty notes, `false` those with missing or empty notes; together every row once |
| TransactionViews.SummaryRangeOf | api/views/transaction_views.py:184-221 | nine keywords give their window; otherwise the custom strings iff both are given, else the current month |
| TransactionViews.SummaryRowsMember | api/views/transaction_views.py:223-225 | the rows are exactly the user's records created on a day of the window |
| TransactionViews.SummaryCounts | api/views/transaction_views.py:253-255 | the count is the income count plus the expense count when every row is one of them; counts are 0 without rows of their type |
| TransactionViews.SummaryBreakdowns | api/views/transaction_views.py:235-240 | the category breakdown groups expense rows only, totals adding up to the expense total; the account breakdown groups all rows unsigned; both sorted largest first with one group per title |
| TransactionViews.SummaryRecent | api/views/transaction_views.py:243 | at most ten of the rows, latest `created_at` first |
| TransactionViews.SummaryRecentLeftOut | api/views/transaction_views.py:243 | a row left out of the recent list was created no later than any row listed |
| DashboardViews.DashboardWindow | api/views/dashboard_views.py:19-35 | well formed and contains today; every keyword other than `today`, `week` and `year` gives the current month |
| DashboardViews.RowsInMember | api/views/dashboard_views.py:38-41 | the rows are exactly the user's records whose business date is in the window, both ends included |
| DashboardViews.LineOfBalance | api/views/dashboard_views.py:63-71 | each account line has `change = current_balance - initial`, over the account's whole history |
| DashboardViews.AccountSummary | api/views/dashboard_views.py:58-71 | one line per account in order, and the total is the sum of the current balances |
| DashboardViews.BucketOf | api/views/dashboard_views.py:84-99 | a month bucket's net is income less expenses, the signed total of the month's rows |
| DashboardViews.MonthStart | api/views/dashboard_views.py:81 | `replace(day=1) - relativedelta(months=i)` is a first of month, `i` months back |
| DashboardViews.MonthStartOrder | api/views/dashboard_views.py:79-101 | month starts with larger offsets are later dates; offset 0 is this month's first |
| DashboardViews.TrendReversed | api/views/dashboard_views.py:101 | after the reverse, bucket `k` is that of month `k - 5` |
| DashboardViews.MonthlyTrend | api/views/dashboard_views.py:79-101 | six buckets, oldest first: the five months before today's and today's month |
| DashboardViews.Dashboard | api/views/dashboard_views.py:13-137 | window, figures, breakdown, account lines and total, recent list, trend and top five, each as specified above |
| DashboardViews.RecentLatest | api/views/dashboard_views.py:74-76 | at most ten of the user's records, latest business date first |
| DashboardViews.RecentLeftOut | api/views/dashboard_views.py:74-76 | a record of the user left out of the recent list is dated no later than any record listed |
| DashboardViews.TopCategoriesLargest | api/views/dashboard_views.py:104-107 | at most five groups, sorted largest first, none smaller than a group left out |
| DashboardViews.QuickStatsNested | api/views/dashboard_views.py:150-202 | today lies in this week and this month, so today's rows are among the week's and the month's |
| AccountViews.FindOwned | api/views/account_views.py:80 | not found iff the user owns no account with that id; otherwise an owned account with that id |
| AccountViews.HistoryStart | api/views/account_views.py:86-93 | the start is 7, 30 or 365 days back for `week`, `month` or `year`, and 30 for anything else |
| AccountViews.HistoryRowsProperties | api/views/account_views.py:95-99 | the rows are exactly the user's records of the account dated on or after the start, with no upper bound, earliest first |
| AccountViews.RunningStepSigned | api/views/account_views.py:106-109 | income adds, expense subtracts; any other type is subtracted here but ignored by the balance |
| AccountViews.RunningBalances | api/views/account_views.py:102-120 | one entry per row, in order, and entry `k` has `initial` plus the steps of rows `0..k` |
| AccountViews.BalanceAfterSteps | api/views/account_views.py:105-109 | successive entries differ by the later row's step |
| AccountViews.LastBalance | api/views/account_views.py:103-109 | the last entry is `initial` plus all the steps |
| AccountViews.HistoryExample | api/views/account_views.py:102-120 | from 100.00, income 50.00 and expense 30.00 give entries 150.00 and 120.00 |
| AccountViews.BalanceExample | api/models/account.py:21-27 | from 100.00, income 50.00 and expense 30.00 give a current balance of 120.00 |
| AccountViews.BalanceHistory | api/views/account_views.py:76-129 | not-found error iff the account is not the user's; otherwise the running entries over the window's rows and the full-history balance |
| AccountViews.WindowOfAccount | api/views/account_views.py:95-99 | when all of the account's records are the user's, the history rows are the account's rows from the start on |
| AccountViews.StepsAreSigned | api/views/account_views.py:106-109 | over income and expense rows the running steps add up to the signed total |
| AccountViews.HistoryShortfall | api/views/account_views.py:103 | the current balance exceeds the last running balance by the signed total of the account's records before the start |
| AccountViews.HistoryReachesCurrent | api/views/account_views.py:125 | with no record before the start, the last running balance is the current balance |
| AccountViews.SummaryChange | api/views/account_views.py:44-58 | total change is the sum of per-account changes; the count is the user's accounts; other users' accounts count for nothing |
| CategoryViews.WithStatsWindow | api/views/category_views.py:45-59 | a window exactly for `today`, `week`, `month` and `year`, containing today; no date filter for anything else |
| CategoryViews.StatsOf | api/views/category_views.py:63-80 | one entry per category, in category order |
| CategoryViews.WithStats | api/views/category_views.py:37-85 | the loop collects one entry per category of the user, then sorts them stably by total, largest first |
| CategoryViews.WithStatsOrder | api/views/category_views.py:83 | one entry per category, sorted by total, largest first, equal totals in category order |
| CategoryViews.StatWithoutRows | api/views/category_views.py:72-73 | a category without matching rows has total 0 and count 0 |
| CategoryViews.StatUnsigned | api/views/category_views.py:72 | the total adds income and expense alike: income total plus expense total |
| PeriodAgreement.SharedKeywordsAgree | api/views/category_views.py:45-56 | the period filter, `summary`, `dashboard` and `with_stats` give the same window for `today`, `week`, `month`, `year` |
| PeriodAgreement.FilterKeywordWindows | api/views/transaction_views.py:64-111 | each of the twelve filter keywords with its window: today, yesterday, this and last week, month and year, the quarter, and the last 7, 30 and 90 days |
| PeriodAgreement.SummaryKeywordWindows | api/views/transaction_views.py:184-215 | each of the nine keywords `summary` knows with its window, whatever the start and end strings |
| PeriodAgreement.DashboardKeywordWindows | api/views/dashboard_views.py:19-32 | `today`, `week`, `month` and `year` with their windows in `dashboard` |
| PeriodAgreement.AbsentKeyword | api/views/dashboard_views.py:19 | without a keyword, three views use the current month and `balance_history` 30 days back |
| PeriodAgreement.TodayRows | api/views/dashboard_views.py:150-153 | `date=today` keeps the same rows as the single-day window |
| PeriodAgreement.QuickStatsAgree | api/views/dashboard_views.py:150-202 | `quick_stats` reports the dashboard's figures for `today`, `week` and `month` |
| PeriodAgreement.DashboardFallsBack | api/views/dashboard_views.py:33-35 | `yesterday`, `last_month` and `quarter` give the current month in `dashboard`, but other windows in the period filter |
| PeriodAgreement.WithStatsAllTime | api/views/category_views.py:57-59 | any other keyword counts every record of the category and the user, whatever its date |
| PeriodAgreement.SummaryIgnoresTrailingDays | api/views/transaction_views.py:215-221 | `last_7/30/90_days` give trailing windows in the filter, but custom strings or the current month in `summary` |
| PeriodAgreement.HistoryWindowDiffers | api/views/account_views.py:86-93 | `balance_history` reads `week`, `month`, `year` as 7, 30, 365 days back, and `today` as 30 |

## Left out

- The ORM is replaced by sequences: query sets, `aggregate`, `annotate` and SQL.
  Row order is the ledger order. The order among equal keys of
  `order_by('-total')`, `order_by('date')`, `order_by('-date')` and
  `order_by('-created_at')` is taken to be the input order (a stable sort); a
  database may order ties differently.
- The ordering `['title']` of accounts and categories is not modelled. The
  account and category sequences are taken to be in that order already, because
  string collation is the database's.
- `datetime.now()` is the clock: `today` is a parameter. The server time zone
  that turns `created_at` into a date is left out too, so a stamp holds its
  local date and time of day.
- Python's year range (1 to 9999) is left out: the date model is unbounded, so
  the `OverflowError` near its ends is not modelled.
- HTTP plumbing is left out: `Response`, status codes, pagination, search,
  ordering parameters and the text lookups (`icontains`, `istartswith`).
- The `strptime` parsing of the `date_range` filter is left out.
- TransactionViews.SummaryRangeOf: `summary`'s custom `start_date` and
  `end_date` strings go to the database unparsed, so they are kept as opaque
  strings. The figures for that branch are not modelled.
- The filter's `NumberFilter` values are taken as whole numbers; fractional
  values are not modelled.
- `strftime('%Y-%m')` month labels are left out: a trend bucket carries the
  first day of its month instead.
- Serializer output formats and field lists are left out.
- The `validate_title` checks of the account and category serializers are
  left out.
- TransactionModel.TransactionTable.Save: models inserting a new record only.
  The UPDATE path and id assignment are not modelled.
- A category or account foreign key that points nowhere is not modelled:
  records always carry their category and account.
- Authentication, users, admin, settings, storage and URL routing are not part
  of this model.

## Findings

| source | as written | input that shows it | evidently intended | confidence | as-written member | corrected member |
|---|---|---|---|---|---|---|
| api/views/transaction_views.py:133-137 | `weekday=v` (documented as 0 = Monday ... 6 = Sunday) is passed to the `week_day` lookup (1 = Sunday ... 7 = Saturday) as `v + 1`, so it selects the rows created on `weekday()` `v - 1`, round the week | `weekday=0` on a record created on a Monday: the record is dropped, and Sunday records are kept | map `v` to `(v + 1) % 7 + 1`, so that 0 selects Mondays and 6 Sundays | not executed | TransactionViews.FilterByWeekdayShifted | TransactionViews.FilterByWeekdayIntendedKeeps |
