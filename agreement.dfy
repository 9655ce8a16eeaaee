/** Every reporting view has its own copy of the period dispatch. These lemmas
    relate the copies: they agree on the keywords all of them know, and part
    ways on the others. */
module PeriodAgreement {
  import opened Dates
  import opened Seqs
  import opened Wrappers
  import opened Periods
  import opened Ledger
  import TransactionViews
  import DashboardViews
  import CategoryViews
  import AccountViews

  const Shared: set<string> := {"today", "week", "month", "year"}

  /** On `today`, `week`, `month` and `year` the period filter, `summary`,
      `dashboard` and `with_stats` select the same window. */
  lemma SharedKeywordsAgree(p: string, startDate: Option<string>, endDate: Option<string>, today: Date)
    requires Valid(today) && p in Shared
    ensures TransactionViews.PeriodFilterWindow(p, today) == Some(DashboardViews.DashboardWindow(Some(p), today))
    ensures TransactionViews.SummaryRangeOf(Some(p), startDate, endDate, today) ==
            TransactionViews.Dated(DashboardViews.DashboardWindow(Some(p), today))
    ensures CategoryViews.WithStatsWindow(Some(p), today) == Some(DashboardViews.DashboardWindow(Some(p), today))
  {
    FilterKeywordWindows(p, today);
    SummaryKeywordWindows(p, startDate, endDate, today);
    DashboardKeywordWindows(p, today);
    var w := DashboardViews.DashboardWindow(Some(p), today);
    if p == "today" {
      assert w == SingleDay(today);
    } else if p == "week" {
      assert w == Week(today);
    } else if p == "month" {
      assert w == Month(today);
    } else {
      assert w == Year(today);
    }
  }

  /** The window of each keyword of the period filter, one line per keyword. */
  lemma FilterKeywordWindows(p: string, today: Date)
    requires Valid(today)
    ensures p == "today" ==> TransactionViews.PeriodFilterWindow(p, today) == Some(SingleDay(today))
    ensures p == "yesterday" ==> TransactionViews.PeriodFilterWindow(p, today) == Some(Yesterday(today))
    ensures p == "week" ==> TransactionViews.PeriodFilterWindow(p, today) == Some(Week(today))
    ensures p == "last_week" ==> TransactionViews.PeriodFilterWindow(p, today) == Some(LastWeek(today))
    ensures p == "month" ==> TransactionViews.PeriodFilterWindow(p, today) == Some(Month(today))
    ensures p == "last_month" ==> TransactionViews.PeriodFilterWindow(p, today) == Some(LastMonth(today))
    ensures p == "quarter" ==> TransactionViews.PeriodFilterWindow(p, today) == Some(Quarter(today))
    ensures p == "year" ==> TransactionViews.PeriodFilterWindow(p, today) == Some(Year(today))
    ensures p == "last_year" ==> TransactionViews.PeriodFilterWindow(p, today) == Some(LastYear(today))
    ensures p == "last_7_days" ==> TransactionViews.PeriodFilterWindow(p, today) == Some(TrailingDays(today, 7))
    ensures p == "last_30_days" ==> TransactionViews.PeriodFilterWindow(p, today) == Some(TrailingDays(today, 30))
    ensures p == "last_90_days" ==> TransactionViews.PeriodFilterWindow(p, today) == Some(TrailingDays(today, 90))
  {
  }

  /** The window of each keyword `summary` knows, whatever `start_date` and
      `end_date` say. */
  lemma SummaryKeywordWindows(p: string, startDate: Option<string>, endDate: Option<string>, today: Date)
    requires Valid(today)
    ensures p == "today" ==>
      TransactionViews.SummaryRangeOf(Some(p), startDate, endDate, today) == TransactionViews.Dated(SingleDay(today))
    ensures p == "yesterday" ==>
      TransactionViews.SummaryRangeOf(Some(p), startDate, endDate, today) == TransactionViews.Dated(Yesterday(today))
    ensures p == "week" ==>
      TransactionViews.SummaryRangeOf(Some(p), startDate, endDate, today) == TransactionViews.Dated(Week(today))
    ensures p == "last_week" ==>
      TransactionViews.SummaryRangeOf(Some(p), startDate, endDate, today) == TransactionViews.Dated(LastWeek(today))
    ensures p == "month" ==>
      TransactionViews.SummaryRangeOf(Some(p), startDate, endDate, today) == TransactionViews.Dated(Month(today))
    ensures p == "last_month" ==>
      TransactionViews.SummaryRangeOf(Some(p), startDate, endDate, today) == TransactionViews.Dated(LastMonth(today))
    ensures p == "quarter" ==>
      TransactionViews.SummaryRangeOf(Some(p), startDate, endDate, today) == TransactionViews.Dated(Quarter(today))
    ensures p == "year" ==>
      TransactionViews.SummaryRangeOf(Some(p), startDate, endDate, today) == TransactionViews.Dated(Year(today))
    ensures p == "last_year" ==>
      TransactionViews.SummaryRangeOf(Some(p), startDate, endDate, today) == TransactionViews.Dated(LastYear(today))
  {
    var r := TransactionViews.SummaryRangeOf(Some(p), startDate, endDate, today);
    if p == "today" {
      assert r == TransactionViews.Dated(SingleDay(today));
    } else if p == "yesterday" {
      assert r == TransactionViews.Dated(Yesterday(today));
    } else if p == "week" {
      assert r == TransactionViews.Dated(Week(today));
    } else if p == "last_week" {
      assert r == TransactionViews.Dated(LastWeek(today));
    } else if p == "month" {
      assert r == TransactionViews.Dated(Month(today));
    } else if p == "last_month" {
      assert r == TransactionViews.Dated(LastMonth(today));
    } else if p == "quarter" {
      assert r == TransactionViews.Dated(Quarter(today));
    } else if p == "year" {
      assert r == TransactionViews.Dated(Year(today));
    } else if p == "last_year" {
      assert r == TransactionViews.Dated(LastYear(today));
    }
  }

  /** The window of each keyword `dashboard` knows. */
  lemma DashboardKeywordWindows(p: string, today: Date)
    requires Valid(today)
    ensures p == "today" ==> DashboardViews.DashboardWindow(Some(p), today) == SingleDay(today)
    ensures p == "week" ==> DashboardViews.DashboardWindow(Some(p), today) == Week(today)
    ensures p == "month" ==> DashboardViews.DashboardWindow(Some(p), today) == Month(today)
    ensures p == "year" ==> DashboardViews.DashboardWindow(Some(p), today) == Year(today)
  {
  }

  /** Without a `period` parameter, `summary`, `dashboard` and `with_stats` use
      the current month, while `balance_history` looks back 30 days. */
  lemma AbsentKeyword(startDate: Option<string>, endDate: Option<string>, today: Date)
    requires Valid(today)
    ensures DashboardViews.DashboardWindow(None, today) == Month(today)
    ensures TransactionViews.SummaryRangeOf(None, startDate, endDate, today) == TransactionViews.Dated(Month(today))
    ensures CategoryViews.WithStatsWindow(None, today) == Some(Month(today))
    ensures Ordinal(AccountViews.HistoryStart(None, today)) == Ordinal(today) - 30
  {
  }

  /** `date=today` keeps the same rows as the single-day window of today. */
  lemma TodayRows(ledger: seq<Transaction>, user: UserId, today: Date)
    requires Valid(today)
    ensures Filter(ledger, DashboardViews.OwnedDatedOn(user, today)) ==
            DashboardViews.RowsIn(ledger, user, DashboardViews.DashboardWindow(Some("today"), today))
  {
    var w := SingleDay(today);
    forall i | 0 <= i < |ledger|
      ensures DashboardViews.OwnedDatedOn(user, today)(ledger[i]) == DashboardViews.OwnedDatedIn(user, w)(ledger[i])
    {
      assert Contains(w, ledger[i].date) <==> ledger[i].date == today;
    }
    FilterAgree(ledger, DashboardViews.OwnedDatedOn(user, today), DashboardViews.OwnedDatedIn(user, w));
  }

  /** `quick_stats` counts today's, this week's and this month's records of the
      user by business date, exactly as `dashboard` does for those keywords. */
  lemma QuickStatsAgree(ledger: seq<Transaction>, user: UserId, today: Date)
    requires Valid(today)
    ensures var q := DashboardViews.QuickStatsOf(ledger, user, today);
      q.today == FiguresOf(DashboardViews.RowsIn(ledger, user, DashboardViews.DashboardWindow(Some("today"), today))) &&
      q.week == FiguresOf(DashboardViews.RowsIn(ledger, user, DashboardViews.DashboardWindow(Some("week"), today))) &&
      q.month == FiguresOf(DashboardViews.RowsIn(ledger, user, DashboardViews.DashboardWindow(Some("month"), today)))
  {
    TodayRows(ledger, user, today);
    DashboardKeywordWindows("week", today);
    DashboardKeywordWindows("month", today);
  }

  /** `dashboard` does not know `yesterday`, `last_month` or `quarter` and shows
      the current month for them, where the period filter selects yesterday,
      the previous month or the current quarter. */
  lemma DashboardFallsBack(today: Date)
    requires Valid(today)
    ensures DashboardViews.DashboardWindow(Some("yesterday"), today) == Month(today)
    ensures DashboardViews.DashboardWindow(Some("last_month"), today) == Month(today)
    ensures DashboardViews.DashboardWindow(Some("quarter"), today) == Month(today)
    ensures TransactionViews.PeriodFilterWindow("yesterday", today) == Some(Yesterday(today))
    ensures TransactionViews.PeriodFilterWindow("last_month", today) == Some(LastMonth(today))
    ensures TransactionViews.PeriodFilterWindow("quarter", today) == Some(Quarter(today))
    ensures Yesterday(today) != Month(today) && LastMonth(today) != Month(today)
  {
    assert Month(today).end.day >= 28;
  }

  /** `with_stats` applies no date filter for any keyword outside the shared
      four: every record of the category and the user counts, whatever its
      date. */
  lemma WithStatsAllTime(p: string, c: Category, user: UserId, ledger: seq<Transaction>, today: Date)
    requires Valid(today) && p !in Shared
    ensures CategoryViews.WithStatsWindow(Some(p), today).None?
    ensures forall t :: CategoryViews.InStats(c, user, CategoryViews.WithStatsWindow(Some(p), today))(t) <==>
      t.category.id == c.id && t.user == user
  {
  }

  /** `summary` does not know the trailing-day keywords that the period filter
      does: for them it uses the given start and end strings, or else the
      current month. */
  lemma SummaryIgnoresTrailingDays(p: string, startDate: Option<string>, endDate: Option<string>, today: Date)
    requires Valid(today) && p in {"last_7_days", "last_30_days", "last_90_days"}
    ensures TransactionViews.PeriodFilterWindow(p, today) ==
      Some(TrailingDays(today, if p == "last_7_days" then 7 else if p == "last_30_days" then 30 else 90))
    ensures TransactionViews.SummaryRangeOf(Some(p), startDate, endDate, today) ==
      if TransactionViews.Given(startDate) && TransactionViews.Given(endDate)
      then TransactionViews.Custom(startDate.value, endDate.value)
      else TransactionViews.Dated(Month(today))
  {
  }

  /** `balance_history` knows only `week`, `month` and `year`, reads them as
      7, 30 and 365 days back from today with no end, and treats `today` like
      any unknown keyword. */
  lemma HistoryWindowDiffers(today: Date)
    requires Valid(today)
    ensures Ordinal(AccountViews.HistoryStart(Some("week"), today)) == Ordinal(today) - 7
    ensures Ordinal(AccountViews.HistoryStart(Some("month"), today)) == Ordinal(today) - 30
    ensures Ordinal(AccountViews.HistoryStart(Some("year"), today)) == Ordinal(today) - 365
    ensures Ordinal(AccountViews.HistoryStart(Some("today"), today)) == Ordinal(today) - 30
  {
    assert AccountViews.LookBack(Some("week")) == 7;
    assert AccountViews.LookBack(Some("month")) == 30;
    assert AccountViews.LookBack(Some("year")) == 365;
    assert AccountViews.LookBack(Some("today")) == 30;
  }
}
