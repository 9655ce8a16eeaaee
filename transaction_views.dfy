/** The transaction list's filters (`TransactionFilter`) and the `summary`
    action of the transaction views. Both select on `created_at`, whose date
    is compared in the current time zone. */
module TransactionViews {
  import opened Dates
  import opened Seqs
  import opened Sorting
  import opened Wrappers
  import opened Periods
  import opened Ledger
  import opened Grouping

  // ---------------------------------------------------------------------------
  // `filter_by_period`

  const FilterPeriods: set<string> := {
    "today", "yesterday", "week", "last_week", "month", "last_month", "quarter",
    "year", "last_year", "last_7_days", "last_30_days", "last_90_days"
  }

  /** The creation-date window a `period` keyword selects, `None` for a keyword
      the filter does not know. */
  function PeriodFilterWindow(value: string, today: Date): (w: Option<Window>)
    requires Valid(today)
    ensures w.Some? <==> value in FilterPeriods
    ensures w.Some? ==> WellFormed(w.value)
  {
    if value == "today" then Some(SingleDay(today))
    else if value == "yesterday" then Some(Yesterday(today))
    else if value == "week" then Some(Week(today))
    else if value == "last_week" then Some(LastWeek(today))
    else if value == "month" then Some(Month(today))
    else if value == "last_month" then Some(LastMonth(today))
    else if value == "quarter" then Some(Quarter(today))
    else if value == "year" then Some(Year(today))
    else if value == "last_year" then Some(LastYear(today))
    else if value == "last_7_days" then Some(TrailingDays(today, 7))
    else if value == "last_30_days" then Some(TrailingDays(today, 30))
    else if value == "last_90_days" then Some(TrailingDays(today, 90))
    else None
  }

  function FilterByPeriod(qs: seq<Transaction>, value: string, today: Date): (r: seq<Transaction>)
    requires Valid(today)
    ensures value !in FilterPeriods ==> r == qs
    ensures |r| <= |qs|
  {
    match PeriodFilterWindow(value, today)
    case None => qs
    case Some(w) => Filter(qs, CreatedIn(w))
  }

  /** A known keyword keeps exactly the records created on a day of its window,
      both ends included. */
  lemma FilterByPeriodKeeps(qs: seq<Transaction>, value: string, today: Date, t: Transaction)
    requires Valid(today) && value in FilterPeriods
    ensures t in FilterByPeriod(qs, value, today) <==>
            t in qs && Contains(PeriodFilterWindow(value, today).value, t.createdAt.date)
  {
    FilterMember(qs, CreatedIn(PeriodFilterWindow(value, today).value), t);
  }

  // ---------------------------------------------------------------------------
  // `filter_by_day`, `filter_by_month`, `filter_by_year`

  predicate CreatedOnDay(t: Transaction, day: int) {
    t.createdAt.date.day == day
  }

  function CreatedOnDayOf(day: int): Transaction -> bool {
    (t: Transaction) => CreatedOnDay(t, day)
  }

  function FilterByDay(qs: seq<Transaction>, value: int): (r: seq<Transaction>)
    ensures !(1 <= value <= 31) ==> r == qs
  {
    if 1 <= value <= 31 then Filter(qs, CreatedOnDayOf(value)) else qs
  }

  /** A day of month from 1 to 31 keeps exactly the records created on that day
      of their month. */
  lemma FilterByDayKeeps(qs: seq<Transaction>, value: int, t: Transaction)
    requires 1 <= value <= 31
    ensures t in FilterByDay(qs, value) <==> t in qs && t.createdAt.date.day == value
  {
    FilterMember(qs, CreatedOnDayOf(value), t);
  }

  function CreatedInMonthOf(month: int): Transaction -> bool {
    (t: Transaction) => t.createdAt.date.month == month
  }

  function FilterByMonth(qs: seq<Transaction>, value: int): (r: seq<Transaction>)
    ensures !(1 <= value <= 12) ==> r == qs
  {
    if 1 <= value <= 12 then Filter(qs, CreatedInMonthOf(value)) else qs
  }

  /** A month from 1 to 12 keeps exactly the records created in that month of
      any year. */
  lemma FilterByMonthKeeps(qs: seq<Transaction>, value: int, t: Transaction)
    requires 1 <= value <= 12
    ensures t in FilterByMonth(qs, value) <==> t in qs && t.createdAt.date.month == value
  {
    FilterMember(qs, CreatedInMonthOf(value), t);
  }

  function CreatedInYearOf(year: int): Transaction -> bool {
    (t: Transaction) => t.createdAt.date.year == year
  }

  function FilterByYear(qs: seq<Transaction>, value: int): (r: seq<Transaction>)
    ensures value < 1900 ==> r == qs
  {
    if value >= 1900 then Filter(qs, CreatedInYearOf(value)) else qs
  }

  /** A year from 1900 on keeps exactly the records created in that year. */
  lemma FilterByYearKeeps(qs: seq<Transaction>, value: int, t: Transaction)
    requires value >= 1900
    ensures t in FilterByYear(qs, value) <==> t in qs && t.createdAt.date.year == value
  {
    FilterMember(qs, CreatedInYearOf(value), t);
  }

  // ---------------------------------------------------------------------------
  // `filter_by_weekday`

  /** The `week_day` lookup's numbering: Sunday is 1, Monday 2, ..., Saturday 7. */
  function LookupWeekDay(d: Date): (n: int)
    requires Valid(d)
    ensures 1 <= n <= 7
    ensures n == 1 <==> Weekday(d) == 6
    ensures n != 1 ==> n == Weekday(d) + 2
  {
    (Weekday(d) + 1) % 7 + 1
  }

  /** Lookup number `v + 1` is the `weekday()` before `v`, round the week;
      lookup number `(v + 1) % 7 + 1` is `weekday()` `v`. */
  lemma LookupWeekDayOffsets(d: Date, v: int)
    requires Valid(d) && 0 <= v <= 6
    ensures LookupWeekDay(d) == v + 1 <==> Weekday(d) == (v + 6) % 7
    ensures LookupWeekDay(d) == (v + 1) % 7 + 1 <==> Weekday(d) == v
  {
    assert (v + 6) % 7 == if v == 0 then 6 else v - 1;
    assert (v + 1) % 7 == if v == 6 then 0 else v + 1;
  }

  function CreatedOnWeekDay(n: int): Transaction -> bool {
    (t: Transaction) => Valid(t.createdAt.date) && LookupWeekDay(t.createdAt.date) == n
  }

  /** `filter_by_weekday` as written: a value from 0 to 6 is passed on to the
      lookup as `value + 1`. */
  function FilterByWeekday(qs: seq<Transaction>, value: int): (r: seq<Transaction>)
    ensures !(0 <= value <= 6) ==> r == qs
  {
    if 0 <= value <= 6 then Filter(qs, CreatedOnWeekDay(value + 1)) else qs
  }

  /** As written, value `v` keeps the records whose `weekday()` is `v - 1`, with
      0 selecting Sundays: one day off the documented 0 = Monday ... 6 = Sunday. */
  lemma FilterByWeekdayShifted(qs: seq<Transaction>, value: int, t: Transaction)
    requires 0 <= value <= 6 && Valid(t.createdAt.date)
    ensures t in FilterByWeekday(qs, value) <==> t in qs && Weekday(t.createdAt.date) == (value + 6) % 7
  {
    FilterMember(qs, CreatedOnWeekDay(value + 1), t);
    LookupWeekDayOffsets(t.createdAt.date, value);
  }

  /** A record created on a Monday is not kept by value 0, documented as Monday. */
  lemma FilterByWeekdayMissesMonday(t: Transaction)
    requires Valid(t.createdAt.date) && Weekday(t.createdAt.date) == 0
    ensures FilterByWeekday([t], 0) == []
  {
    FilterByWeekdayShifted([t], 0, t);
  }

  /** The filter as documented: 0 = Monday ... 6 = Sunday, mapped to the
      lookup's numbering. */
  function FilterByWeekdayIntended(qs: seq<Transaction>, value: int): (r: seq<Transaction>)
    ensures !(0 <= value <= 6) ==> r == qs
  {
    if 0 <= value <= 6 then Filter(qs, CreatedOnWeekDay((value + 1) % 7 + 1)) else qs
  }

  /** The documented filter keeps exactly the records whose `weekday()` is the
      value given. */
  lemma FilterByWeekdayIntendedKeeps(qs: seq<Transaction>, value: int, t: Transaction)
    requires 0 <= value <= 6 && Valid(t.createdAt.date)
    ensures t in FilterByWeekdayIntended(qs, value) <==> t in qs && Weekday(t.createdAt.date) == value
  {
    FilterMember(qs, CreatedOnWeekDay((value + 1) % 7 + 1), t);
    LookupWeekDayOffsets(t.createdAt.date, value);
  }

  // ---------------------------------------------------------------------------
  // `filter_has_receipt`, `filter_has_notes`

  /** `exclude(receipt='')`: a missing (NULL) receipt is not excluded. */
  predicate ReceiptNotEmpty(t: Transaction) {
    t.receipt != Some("")
  }

  /** `filter(receipt='')`. */
  predicate ReceiptEmpty(t: Transaction) {
    t.receipt == Some("")
  }

  function FilterHasReceipt(qs: seq<Transaction>, value: bool): seq<Transaction> {
    if value then Filter(qs, ReceiptNotEmpty) else Filter(qs, ReceiptEmpty)
  }

  /** `true` keeps the records whose receipt is not the empty name, `false` keeps
      the others, and together they hold every record once. */
  lemma FilterHasReceiptSplits(qs: seq<Transaction>, t: Transaction)
    ensures t in FilterHasReceipt(qs, true) <==> t in qs && t.receipt != Some("")
    ensures t in FilterHasReceipt(qs, false) <==> t in qs && t.receipt == Some("")
    ensures multiset(FilterHasReceipt(qs, true)) + multiset(FilterHasReceipt(qs, false)) == multiset(qs)
  {
    FilterMember(qs, ReceiptNotEmpty, t);
    FilterMember(qs, ReceiptEmpty, t);
    FilterSplit(qs, ReceiptNotEmpty, ReceiptEmpty);
  }

  /** `exclude(notes__isnull=True).exclude(notes='')`. */
  predicate HasNotes(t: Transaction) {
    t.notes.Some? && t.notes.value != ""
  }

  /** `filter(Q(notes__isnull=True) | Q(notes=''))`. */
  predicate LacksNotes(t: Transaction) {
    t.notes.None? || t.notes.value == ""
  }

  function FilterHasNotes(qs: seq<Transaction>, value: bool): seq<Transaction> {
    if value then Filter(qs, HasNotes) else Filter(qs, LacksNotes)
  }

  /** `true` keeps the records with non-empty notes, `false` those with missing or
      empty notes, and together they hold every record once. */
  lemma FilterHasNotesSplits(qs: seq<Transaction>, t: Transaction)
    ensures t in FilterHasNotes(qs, true) <==> t in qs && t.notes.Some? && t.notes.value != ""
    ensures t in FilterHasNotes(qs, false) <==> t in qs && (t.notes.None? || t.notes.value == "")
    ensures multiset(FilterHasNotes(qs, true)) + multiset(FilterHasNotes(qs, false)) == multiset(qs)
  {
    FilterMember(qs, HasNotes, t);
    FilterMember(qs, LacksNotes, t);
    FilterSplit(qs, HasNotes, LacksNotes);
  }

  // ---------------------------------------------------------------------------
  // `summary`

  const SummaryPeriods: set<string> := {
    "today", "yesterday", "week", "last_week", "month", "last_month", "quarter",
    "year", "last_year"
  }

  /** The range `summary` selects: a date window, or the two query strings,
      which are handed to the database unparsed. */
  datatype SummaryRange = Dated(window: Window) | Custom(start: string, end: string)

  /** A query parameter that is present and not empty. */
  predicate Given(p: Option<string>) {
    p.Some? && p.value != ""
  }

  /** The range of `summary`: a known keyword's window; otherwise the given
      `start_date` and `end_date`; otherwise the current month. */
  function SummaryRangeOf(period: Option<string>, startDate: Option<string>, endDate: Option<string>, today: Date)
    : (r: SummaryRange)
    requires Valid(today)
    ensures r.Dated? ==> WellFormed(r.window)
    ensures r.Custom? <==> PeriodParam(period) !in SummaryPeriods && Given(startDate) && Given(endDate)
    ensures r.Custom? ==> r == Custom(startDate.value, endDate.value)
    ensures PeriodParam(period) !in SummaryPeriods && !(Given(startDate) && Given(endDate)) ==>
            r == Dated(Month(today))
  {
    var p := PeriodParam(period);
    if p == "today" then Dated(SingleDay(today))
    else if p == "yesterday" then Dated(Yesterday(today))
    else if p == "week" then Dated(Week(today))
    else if p == "last_week" then Dated(LastWeek(today))
    else if p == "month" then Dated(Month(today))
    else if p == "last_month" then Dated(LastMonth(today))
    else if p == "quarter" then Dated(Quarter(today))
    else if p == "year" then Dated(Year(today))
    else if p == "last_year" then Dated(LastYear(today))
    else if Given(startDate) && Given(endDate) then Custom(startDate.value, endDate.value)
    else Dated(Month(today))
  }

  function CategoryTitle(t: Transaction): string {
    t.category.title
  }

  function AccountTitle(t: Transaction): string {
    t.account.title
  }

  function CreatedKey(t: Transaction): int {
    StampKey(t.createdAt)
  }

  datatype Summary = Summary(
    figures: Figures,
    incomeCount: nat,
    expenseCount: nat,
    categoryBreakdown: seq<Group>,
    accountBreakdown: seq<Group>,
    recent: seq<Transaction>)

  /** The user's records created on a day of the window. */
  function SummaryRows(ledger: seq<Transaction>, user: UserId, w: Window): seq<Transaction> {
    Filter(Filter(ledger, OwnedByUser(user)), CreatedIn(w))
  }

  /** The figures `summary` reports for a date window. */
  function SummaryOf(ledger: seq<Transaction>, user: UserId, w: Window): Summary {
    var rows := SummaryRows(ledger, user, w);
    Summary(
      FiguresOf(rows), IncomeCount(rows), ExpenseCount(rows),
      Breakdown(Filter(rows, IsExpense), CategoryTitle, Amount),
      Breakdown(rows, AccountTitle, Amount),
      Top(rows, CreatedKey, 10))
  }

  /** The rows summarised are exactly the user's records created on a day of the
      window, both ends included. */
  lemma SummaryRowsMember(ledger: seq<Transaction>, user: UserId, w: Window, t: Transaction)
    ensures t in SummaryRows(ledger, user, w) <==>
            t in ledger && t.user == user && Contains(w, t.createdAt.date)
  {
    FilterMember(Filter(ledger, OwnedByUser(user)), CreatedIn(w), t);
    FilterMember(ledger, OwnedByUser(user), t);
  }

  /** The count is the income count plus the expense count when every row is
      one or the other; with no rows of a type, its count is 0. */
  lemma SummaryCounts(ledger: seq<Transaction>, user: UserId, w: Window)
    ensures var rows := SummaryRows(ledger, user, w);
      var s := SummaryOf(ledger, user, w);
      ((forall i :: 0 <= i < |rows| ==> rows[i].txType in TypeChoices) ==>
         s.figures.count == s.incomeCount + s.expenseCount) &&
      ((forall i :: 0 <= i < |rows| ==> !IsIncome(rows[i])) ==> s.incomeCount == 0) &&
      ((forall i :: 0 <= i < |rows| ==> !IsExpense(rows[i])) ==> s.expenseCount == 0)
  {
    var rows := SummaryRows(ledger, user, w);
    var s := SummaryOf(ledger, user, w);
    assert s.figures.count == |rows| && s.incomeCount == IncomeCount(rows) && s.expenseCount == ExpenseCount(rows);
    TotalsWithoutRows(rows);
    if forall i :: 0 <= i < |rows| ==> rows[i].txType in TypeChoices {
      CountsAddUp(rows);
    }
  }

  /** The category breakdown groups the expense rows only, one group per
      category title with its total and count, largest total first, and its
      totals add up to the expense total. The account breakdown groups all rows,
      income and expense alike, by account title with unsigned amounts, largest
      first, and its totals add up to the sum of all amounts. */
  lemma SummaryBreakdowns(ledger: seq<Transaction>, user: UserId, w: Window)
    ensures var rows := SummaryRows(ledger, user, w);
      var s := SummaryOf(ledger, user, w);
      var expenses := Filter(rows, IsExpense);
      SortedDesc(s.categoryBreakdown, GroupTotal) &&
      DistinctTitles(s.categoryBreakdown) &&
      (forall i :: 0 <= i < |s.categoryBreakdown| ==> EntryOf(expenses, CategoryTitle, Amount, s.categoryBreakdown[i])) &&
      Sum(s.categoryBreakdown, GroupTotal) == s.figures.expenses &&
      SortedDesc(s.accountBreakdown, GroupTotal) &&
      DistinctTitles(s.accountBreakdown) &&
      (forall i :: 0 <= i < |s.accountBreakdown| ==> EntryOf(rows, AccountTitle, Amount, s.accountBreakdown[i])) &&
      Sum(s.accountBreakdown, GroupTotal) == Sum(rows, Amount)
  {
    var rows := SummaryRows(ledger, user, w);
    BreakdownTotals(Filter(rows, IsExpense), CategoryTitle, Amount);
    BreakdownGroups(Filter(rows, IsExpense), CategoryTitle, Amount);
    BreakdownTotals(rows, AccountTitle, Amount);
    BreakdownGroups(rows, AccountTitle, Amount);
  }

  /** `recent_transactions` (the `recent` field of `SummaryOf`): at most ten of
      the rows, latest creation time first. */
  lemma SummaryRecent(ledger: seq<Transaction>, user: UserId, w: Window)
    ensures var rows := SummaryRows(ledger, user, w);
      var recent := Top(rows, CreatedKey, 10);
      |recent| == (if |rows| <= 10 then |rows| else 10) &&
      (forall i :: 0 <= i < |recent| ==> recent[i] in rows) &&
      (forall i, j :: 0 <= i < j < |recent| ==> StampKey(recent[j].createdAt) <= StampKey(recent[i].createdAt))
  {
    TopProperties(SummaryRows(ledger, user, w), CreatedKey, 10);
  }

  /** A row that the recent list leaves out was created no later than any row
      listed. */
  lemma SummaryRecentLeftOut(ledger: seq<Transaction>, user: UserId, w: Window, t: Transaction)
    requires multiset(Top(SummaryRows(ledger, user, w), CreatedKey, 10))[t] < multiset(SummaryRows(ledger, user, w))[t]
    ensures var recent := Top(SummaryRows(ledger, user, w), CreatedKey, 10);
      forall i :: 0 <= i < |recent| ==> StampKey(t.createdAt) <= StampKey(recent[i].createdAt)
  {
    TopDominates(SummaryRows(ledger, user, w), CreatedKey, 10, t);
  }
}
