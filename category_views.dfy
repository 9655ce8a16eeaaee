/** The `with_stats` endpoint: for each of the user's categories, the total and
    the number of its transactions in a period, largest total first. */
module CategoryViews {
  import opened Dates
  import opened Seqs
  import opened Sorting
  import opened Wrappers
  import opened Periods
  import opened Ledger

  /** The window of `with_stats`: today, this week, this month or this year;
      any other keyword applies no date filter at all. */
  function WithStatsWindow(period: Option<string>, today: Date): (w: Option<Window>)
    requires Valid(today)
    ensures w.Some? <==> PeriodParam(period) in {"today", "week", "month", "year"}
    ensures w.Some? ==> WellFormed(w.value) && Contains(w.value, today)
  {
    var p := PeriodParam(period);
    if p == "today" then Some(SingleDay(today))
    else if p == "week" then Some(Week(today))
    else if p == "month" then Some(Month(today))
    else if p == "year" then Some(Year(today))
    else None
  }

  /** `user=user` on categories. */
  function OwnedCategory(user: UserId): Category -> bool {
    (c: Category) => c.user == user
  }

  /** `category=category, user=user` and, with a window, `date__range` on the
      business date. */
  function InStats(c: Category, user: UserId, w: Option<Window>): Transaction -> bool {
    (t: Transaction) => t.category.id == c.id && t.user == user && (w.None? || Contains(w.value, t.date))
  }

  /** One entry of the response. */
  datatype CategoryStat = CategoryStat(id: nat, title: string, totalAmount: int, transactionCount: nat)

  function TotalAmount(s: CategoryStat): int {
    s.totalAmount
  }

  /** The entry of one category: the amounts of its rows, of whatever type,
      added up unsigned, and the number of rows. */
  function StatFor(c: Category, ledger: seq<Transaction>, user: UserId, w: Option<Window>): CategoryStat {
    var rows := Filter(ledger, InStats(c, user, w));
    CategoryStat(c.id, c.title, Sum(rows, Amount), |rows|)
  }

  /** The entries in category order, before the sort. */
  function StatsOf(cats: seq<Category>, ledger: seq<Transaction>, user: UserId, w: Option<Window>): (r: seq<CategoryStat>)
    ensures |r| == |cats|
    ensures forall k :: 0 <= k < |cats| ==> r[k] == StatFor(cats[k], ledger, user, w)
  {
    seq(|cats|, k requires 0 <= k < |cats| => StatFor(cats[k], ledger, user, w))
  }

  lemma StatAppended(stats: seq<CategoryStat>, s: CategoryStat, cats: seq<Category>, ledger: seq<Transaction>, user: UserId, w: Option<Window>)
    requires |stats| < |cats|
    requires forall k :: 0 <= k < |stats| ==> stats[k] == StatFor(cats[k], ledger, user, w)
    requires s == StatFor(cats[|stats|], ledger, user, w)
    ensures forall k :: 0 <= k < |stats| + 1 ==> (stats + [s])[k] == StatFor(cats[k], ledger, user, w)
  {
  }

  /** `with_stats`: the loop over the user's categories (in the table's order)
      collects one entry each, and the list is then sorted by total, largest
      first, keeping the category order among equal totals. */
  method WithStats(categories: seq<Category>, ledger: seq<Transaction>, user: UserId, period: Option<string>, today: Date)
    returns (stats: seq<CategoryStat>)
    requires Valid(today)
    ensures stats == SortDesc(StatsOf(Filter(categories, OwnedCategory(user)), ledger, user, WithStatsWindow(period, today)), TotalAmount)
  {
    var w := WithStatsWindow(period, today);
    var cats := Filter(categories, OwnedCategory(user));
    var collected: seq<CategoryStat> := [];
    for i := 0 to |cats|
      invariant |collected| == i
      invariant forall k :: 0 <= k < i ==> collected[k] == StatFor(cats[k], ledger, user, w)
    {
      var c := cats[i];
      var rows := Filter(ledger, InStats(c, user, w));
      var s := CategoryStat(c.id, c.title, Sum(rows, Amount), |rows|);
      StatAppended(collected, s, cats, ledger, user, w);
      collected := collected + [s];
    }
    assert collected == StatsOf(cats, ledger, user, w);
    stats := SortDesc(collected, TotalAmount);
  }

  /** The response has exactly one entry per category of the user, ordered by
      total, largest first, and entries with equal totals keep the category
      order. */
  lemma WithStatsOrder(cats: seq<Category>, ledger: seq<Transaction>, user: UserId, w: Option<Window>)
    ensures var stats := SortDesc(StatsOf(cats, ledger, user, w), TotalAmount);
      |stats| == |cats| &&
      SortedDesc(stats, TotalAmount) &&
      multiset(stats) == multiset(StatsOf(cats, ledger, user, w)) &&
      (forall c :: c in cats ==> StatFor(c, ledger, user, w) in stats) &&
      (forall v :: WithKey(stats, TotalAmount, v) == WithKey(StatsOf(cats, ledger, user, w), TotalAmount, v))
  {
    var unsorted := StatsOf(cats, ledger, user, w);
    var stats := SortDesc(unsorted, TotalAmount);
    forall c | c in cats ensures StatFor(c, ledger, user, w) in stats {
      var k :| 0 <= k < |cats| && cats[k] == c;
      assert unsorted[k] in multiset(stats);
    }
  }

  /** A category without matching rows still has its entry, with total and
      count 0. */
  lemma StatWithoutRows(c: Category, ledger: seq<Transaction>, user: UserId, w: Option<Window>)
    requires forall i :: 0 <= i < |ledger| ==> !InStats(c, user, w)(ledger[i])
    ensures StatFor(c, ledger, user, w) == CategoryStat(c.id, c.title, 0, 0)
  {
    FilterNone(ledger, InStats(c, user, w));
  }

  /** The total adds income and expense amounts alike: with only those two
      types, it is the income total plus the expense total, and the count is
      the income count plus the expense count. */
  lemma StatUnsigned(c: Category, ledger: seq<Transaction>, user: UserId, w: Option<Window>)
    requires forall i :: 0 <= i < |ledger| ==> ledger[i].txType in TypeChoices
    ensures var rows := Filter(ledger, InStats(c, user, w));
      StatFor(c, ledger, user, w).totalAmount == TotalIncome(rows) + TotalExpenses(rows) &&
      StatFor(c, ledger, user, w).transactionCount == IncomeCount(rows) + ExpenseCount(rows)
  {
    var rows := Filter(ledger, InStats(c, user, w));
    forall i | 0 <= i < |rows| ensures rows[i].txType in TypeChoices {
      assert rows[i] in multiset(ledger);
    }
    AmountsAddUp(rows);
    CountsAddUp(rows);
  }
}
