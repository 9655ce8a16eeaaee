/** The `dashboard` and `quick_stats` views: figures for a period of business
    dates, the user's accounts with their balances, the latest transactions, a
    six-month trend and the largest expense categories. */
module DashboardViews {
  import opened Dates
  import opened Seqs
  import opened Sorting
  import opened Wrappers
  import opened Periods
  import opened Ledger
  import opened Grouping
  import opened AccountModel

  /** The window of `dashboard`: today, this week, this month or this year; any
      other keyword means this month. */
  function DashboardWindow(period: Option<string>, today: Date): (w: Window)
    requires Valid(today)
    ensures WellFormed(w) && Contains(w, today)
    ensures PeriodParam(period) !in {"today", "week", "year"} ==> w == Month(today)
  {
    var p := PeriodParam(period);
    if p == "today" then SingleDay(today)
    else if p == "week" then Week(today)
    else if p == "month" then Month(today)
    else if p == "year" then Year(today)
    else Month(today)
  }

  /** `user=user, date__range=[w.start, w.end]`. */
  function OwnedDatedIn(user: UserId, w: Window): Transaction -> bool {
    (t: Transaction) => t.user == user && Contains(w, t.date)
  }

  /** The user's records whose business date lies in the window. */
  function RowsIn(ledger: seq<Transaction>, user: UserId, w: Window): seq<Transaction> {
    Filter(ledger, OwnedDatedIn(user, w))
  }

  /** The rows are exactly the user's records dated in the window, both ends
      included; their creation time plays no part. */
  lemma RowsInMember(ledger: seq<Transaction>, user: UserId, w: Window, t: Transaction)
    ensures t in RowsIn(ledger, user, w) <==> t in ledger && t.user == user && Contains(w, t.date)
  {
    FilterMember(ledger, OwnedDatedIn(user, w), t);
  }

  function CategoryTitle(t: Transaction): string {
    t.category.title
  }

  function DateKeyOf(t: Transaction): int {
    DateKey(t.date)
  }

  // ---------------------------------------------------------------------------
  // Account summary

  datatype AccountLine = AccountLine(id: nat, title: string, initialBalance: int, currentBalance: int, change: int)

  /** One entry of `account_summary`. */
  function LineOf(a: Account, ledger: seq<Transaction>): AccountLine {
    var balance := CurrentBalance(a, ledger);
    AccountLine(a.id, a.title, a.initial as int, balance, balance - a.initial as int)
  }

  /** An entry reports the account's balance over its whole history, whatever
      the period, and its change since it was opened. */
  lemma LineOfBalance(a: Account, ledger: seq<Transaction>)
    ensures LineOf(a, ledger).change == LineOf(a, ledger).currentBalance - LineOf(a, ledger).initialBalance
    ensures LineOf(a, ledger).initialBalance == a.initial as int
    ensures LineOf(a, ledger).currentBalance == a.initial as int + Sum(Filter(ledger, OfAccount(a)), SignedAmount)
  {
    CurrentBalanceSigned(a, ledger);
  }

  /** One more account: its balance joins the total of those before it. */
  lemma BalanceTotalStep(accounts: seq<Account>, ledger: seq<Transaction>, i: nat)
    requires i < |accounts|
    ensures Sum(accounts[..i + 1], BalanceIn(ledger)) == Sum(accounts[..i], BalanceIn(ledger)) + LineOf(accounts[i], ledger).currentBalance
  {
    assert accounts[..i + 1] == accounts[..i] + [accounts[i]];
    SumSnoc(accounts[..i], accounts[i], BalanceIn(ledger));
  }

  /** One more account: its line follows the lines of those before it. */
  lemma LineAppended(lines: seq<AccountLine>, line: AccountLine, accounts: seq<Account>, ledger: seq<Transaction>)
    requires |lines| < |accounts|
    requires forall j :: 0 <= j < |lines| ==> lines[j] == LineOf(accounts[j], ledger)
    requires line == LineOf(accounts[|lines|], ledger)
    ensures forall j :: 0 <= j < |lines| + 1 ==> (lines + [line])[j] == LineOf(accounts[j], ledger)
  {
  }

  /** The account loop: one line per account, in order, and the sum of their
      current balances. */
  method AccountSummary(accounts: seq<Account>, ledger: seq<Transaction>)
    returns (lines: seq<AccountLine>, total: int)
    ensures |lines| == |accounts|
    ensures forall i :: 0 <= i < |accounts| ==> lines[i] == LineOf(accounts[i], ledger)
    ensures total == Sum(accounts, BalanceIn(ledger))
  {
    lines := [];
    total := 0;
    for i := 0 to |accounts|
      invariant |lines| == i
      invariant forall j :: 0 <= j < i ==> lines[j] == LineOf(accounts[j], ledger)
      invariant total == Sum(accounts[..i], BalanceIn(ledger))
    {
      var line := LineOf(accounts[i], ledger);
      BalanceTotalStep(accounts, ledger, i);
      LineAppended(lines, line, accounts, ledger);
      total := total + line.currentBalance;
      lines := lines + [line];
    }
    assert accounts[..|accounts|] == accounts;
  }

  // ---------------------------------------------------------------------------
  // Monthly trend

  datatype TrendBucket = TrendBucket(month: Date, income: int, expenses: int, net: int)

  /** The figures of the calendar month that `first` opens. */
  function BucketOf(ledger: seq<Transaction>, user: UserId, first: Date): (b: TrendBucket)
    requires Valid(first) && first.day == 1
    ensures b.month == first
    ensures b.net == b.income - b.expenses
    ensures b.net == Sum(RowsIn(ledger, user, CalendarMonth(first)), SignedAmount)
  {
    var f := FiguresOf(RowsIn(ledger, user, CalendarMonth(first)));
    FiguresProperties(RowsIn(ledger, user, CalendarMonth(first)), []);
    TrendBucket(first, f.income, f.expenses, f.net)
  }

  /** The first day of the month `k` months from today's. */
  function MonthStart(today: Date, k: int): (d: Date)
    requires Valid(today)
    ensures Valid(d) && d.day == 1 && MonthIndex(d) == MonthIndex(today) + k
  {
    AddMonths(FirstOfMonth(today), k)
  }

  /** One more month back: its bucket follows those of the later months. */
  lemma BucketAppended(buckets: seq<TrendBucket>, bucket: TrendBucket, ledger: seq<Transaction>, user: UserId, today: Date)
    requires Valid(today)
    requires forall j :: 0 <= j < |buckets| ==> buckets[j] == BucketOf(ledger, user, MonthStart(today, -j))
    requires bucket == BucketOf(ledger, user, MonthStart(today, -|buckets|))
    ensures forall j :: 0 <= j < |buckets| + 1 ==> (buckets + [bucket])[j] == BucketOf(ledger, user, MonthStart(today, -j))
  {
  }

  /** Month starts further ahead are later dates, and no offset is today's own
      month: the trend's buckets are in calendar order, ending with this month. */
  lemma MonthStartOrder(today: Date)
    requires Valid(today)
    ensures forall k, l :: k < l ==> Before(MonthStart(today, k), MonthStart(today, l))
    ensures MonthStart(today, 0) == FirstOfMonth(today)
  {
    forall k, l | k < l ensures Before(MonthStart(today, k), MonthStart(today, l)) {
      MonthIndexOrder(MonthStart(today, k), MonthStart(today, l));
    }
    MonthIndexDetermines(MonthStart(today, 0), FirstOfMonth(today));
  }

  /** Six buckets collected from today's month backwards, once reversed, run
      from five months ago to today's month. */
  lemma TrendReversed(buckets: seq<TrendBucket>, ledger: seq<Transaction>, user: UserId, today: Date)
    requires Valid(today) && |buckets| == 6
    requires forall j :: 0 <= j < 6 ==> buckets[j] == BucketOf(ledger, user, MonthStart(today, -j))
    ensures forall k :: 0 <= k < 6 ==> Reversed(buckets)[k] == BucketOf(ledger, user, MonthStart(today, k - 5))
  {
    var trend := Reversed(buckets);
    forall k | 0 <= k < 6 ensures trend[k] == BucketOf(ledger, user, MonthStart(today, k - 5)) {
      assert trend[k] == buckets[5 - k];
    }
  }

  /** The trend loop and the reverse after it: six buckets, oldest first, for the
      five months before today's and today's month (in calendar order by
      `MonthStartOrder`). */
  method MonthlyTrend(ledger: seq<Transaction>, user: UserId, today: Date) returns (trend: seq<TrendBucket>)
    requires Valid(today)
    ensures |trend| == 6
    ensures forall k :: 0 <= k < 6 ==> trend[k] == BucketOf(ledger, user, MonthStart(today, k - 5))
  {
    var buckets: seq<TrendBucket> := [];
    for i := 0 to 6
      invariant |buckets| == i
      invariant forall j :: 0 <= j < i ==> buckets[j] == BucketOf(ledger, user, MonthStart(today, -j))
    {
      var bucket := BucketOf(ledger, user, MonthStart(today, -i));
      BucketAppended(buckets, bucket, ledger, user, today);
      buckets := buckets + [bucket];
    }
    TrendReversed(buckets, ledger, user, today);
    trend := Reversed(buckets);
  }

  // ---------------------------------------------------------------------------
  // The dashboard

  datatype DashboardReport = DashboardReport(
    window: Window,
    figures: Figures,
    totalAccountBalance: int,
    categoryBreakdown: seq<Group>,
    accountSummary: seq<AccountLine>,
    recent: seq<Transaction>,
    monthlyTrend: seq<TrendBucket>,
    topCategories: seq<Group>)

  method Dashboard(ledger: seq<Transaction>, accounts: seq<Account>, user: UserId, period: Option<string>, today: Date)
    returns (r: DashboardReport)
    requires Valid(today)
    ensures r.window == DashboardWindow(period, today)
    ensures r.figures == FiguresOf(RowsIn(ledger, user, r.window))
    ensures r.categoryBreakdown == Breakdown(Filter(RowsIn(ledger, user, r.window), IsExpense), CategoryTitle, Amount)
    ensures var owned := Filter(accounts, OwnedAccount(user));
      |r.accountSummary| == |owned| &&
      (forall i :: 0 <= i < |owned| ==> r.accountSummary[i] == LineOf(owned[i], ledger)) &&
      r.totalAccountBalance == Sum(owned, BalanceIn(ledger))
    ensures r.recent == Top(Filter(ledger, OwnedByUser(user)), DateKeyOf, 10)
    ensures |r.monthlyTrend| == 6
    ensures forall k :: 0 <= k < 6 ==> r.monthlyTrend[k] == BucketOf(ledger, user, MonthStart(today, k - 5))
    ensures r.topCategories == Take(r.categoryBreakdown, 5)
  {
    var window := DashboardWindow(period, today);
    var rows := RowsIn(ledger, user, window);
    var breakdown := Breakdown(Filter(rows, IsExpense), CategoryTitle, Amount);
    var lines, total := AccountSummary(Filter(accounts, OwnedAccount(user)), ledger);
    var trend := MonthlyTrend(ledger, user, today);
    r := DashboardReport(
      window, FiguresOf(rows), total, breakdown, lines,
      Top(Filter(ledger, OwnedByUser(user)), DateKeyOf, 10), trend, Take(breakdown, 5));
  }

  /** `recent_transactions`: at most ten of the user's records, latest business
      date first. */
  lemma RecentLatest(ledger: seq<Transaction>, user: UserId)
    ensures var owned := Filter(ledger, OwnedByUser(user));
      var recent := Top(owned, DateKeyOf, 10);
      |recent| == (if |owned| <= 10 then |owned| else 10) &&
      (forall i :: 0 <= i < |recent| ==> recent[i] in ledger && recent[i].user == user) &&
      (forall i, j :: 0 <= i < j < |recent| ==> DateKey(recent[j].date) <= DateKey(recent[i].date))
  {
    var owned := Filter(ledger, OwnedByUser(user));
    var recent := Top(owned, DateKeyOf, 10);
    TopProperties(owned, DateKeyOf, 10);
    forall i | 0 <= i < |recent| ensures recent[i] in ledger && recent[i].user == user {
      FilterMember(ledger, OwnedByUser(user), recent[i]);
    }
  }

  /** A record of the user that the recent list leaves out is dated no later
      than any record listed. */
  lemma RecentLeftOut(ledger: seq<Transaction>, user: UserId, t: Transaction)
    requires multiset(Top(Filter(ledger, OwnedByUser(user)), DateKeyOf, 10))[t] < multiset(Filter(ledger, OwnedByUser(user)))[t]
    ensures t in ledger && t.user == user
    ensures var recent := Top(Filter(ledger, OwnedByUser(user)), DateKeyOf, 10);
      forall i :: 0 <= i < |recent| ==> DateKey(t.date) <= DateKey(recent[i].date)
  {
    TopDominates(Filter(ledger, OwnedByUser(user)), DateKeyOf, 10, t);
    FilterMember(ledger, OwnedByUser(user), t);
  }

  /** The top categories are at most five groups of the breakdown, largest
      total first, and no group left out has a larger total than one kept. */
  lemma TopCategoriesLargest(rows: seq<Transaction>)
    ensures var b := Breakdown(Filter(rows, IsExpense), CategoryTitle, Amount);
      var top := Take(b, 5);
      |top| <= 5 && SortedDesc(top, GroupTotal) &&
      (forall i, j :: 0 <= i < |top| <= j < |b| ==> top[i].total >= b[j].total)
  {
    TopProperties(GroupBy(Filter(rows, IsExpense), CategoryTitle, Amount), GroupTotal, 5);
  }

  // ---------------------------------------------------------------------------
  // Quick stats

  datatype QuickStats = QuickStats(today: Figures, week: Figures, month: Figures)

  /** `user=user, date=today`. */
  function OwnedDatedOn(user: UserId, day: Date): Transaction -> bool {
    (t: Transaction) => t.user == user && t.date == day
  }

  function QuickStatsOf(ledger: seq<Transaction>, user: UserId, today: Date): QuickStats
    requires Valid(today)
  {
    QuickStats(
      FiguresOf(Filter(ledger, OwnedDatedOn(user, today))),
      FiguresOf(RowsIn(ledger, user, Week(today))),
      FiguresOf(RowsIn(ledger, user, Month(today))))
  }

  /** Today lies in this week and in this month, so every record counted for
      today is counted for the week and for the month too. */
  lemma QuickStatsNested(ledger: seq<Transaction>, user: UserId, today: Date)
    requires Valid(today)
    ensures Contains(Week(today), today) && Contains(Month(today), today)
    ensures multiset(Filter(ledger, OwnedDatedOn(user, today))) <= multiset(RowsIn(ledger, user, Week(today)))
    ensures multiset(Filter(ledger, OwnedDatedOn(user, today))) <= multiset(RowsIn(ledger, user, Month(today)))
    ensures QuickStatsOf(ledger, user, today).today.count <= QuickStatsOf(ledger, user, today).week.count
    ensures QuickStatsOf(ledger, user, today).today.count <= QuickStatsOf(ledger, user, today).month.count
  {
    FilterWeaker(ledger, OwnedDatedOn(user, today), OwnedDatedIn(user, Week(today)));
    FilterWeaker(ledger, OwnedDatedOn(user, today), OwnedDatedIn(user, Month(today)));
  }
}
