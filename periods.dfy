/** The date windows the reporting views compute from a period keyword and today's
    date. Every view has its own keyword dispatch (in its own module); the windows
    those dispatches produce are defined here once, with what each one covers. */
module Periods {
  import opened Dates
  import opened Wrappers

  /** `query_params.get('period', 'month')`: the keyword, `month` when absent. */
  function PeriodParam(period: Option<string>): string {
    if period.Some? then period.value else "month"
  }

  /** An inclusive range `[start, end]`, as in a `__range` lookup. */
  datatype Window = Window(start: Date, end: Date)

  predicate Contains(w: Window, d: Date) {
    OnOrBefore(w.start, d) && OnOrBefore(d, w.end)
  }

  predicate WellFormed(w: Window) {
    Valid(w.start) && Valid(w.end) && OnOrBefore(w.start, w.end)
  }

  /** Over valid dates, a window is an interval of ordinals. */
  lemma ContainsByOrdinal(w: Window, d: Date)
    requires Valid(w.start) && Valid(w.end) && Valid(d)
    ensures Contains(w, d) <==> Ordinal(w.start) <= Ordinal(d) <= Ordinal(w.end)
  {
    OrdinalOrder(w.start, d);
    OrdinalOrder(d, w.end);
  }

  /** `[d, d]`: the `today` branch, and the `yesterday` branch for the day before. */
  function SingleDay(d: Date): (w: Window)
    requires Valid(d)
    ensures WellFormed(w)
    ensures forall e :: Contains(w, e) <==> e == d
  {
    Window(d, d)
  }

  function Yesterday(today: Date): (w: Window)
    requires Valid(today)
    ensures WellFormed(w) && Ordinal(w.start) == Ordinal(today) - 1
    ensures forall e :: Contains(w, e) <==> e == w.start
  {
    SingleDay(AddDays(today, -1))
  }

  /** `today - timedelta(days=today.weekday())` through six days later: the
      Monday-to-Sunday week that contains today. */
  function Week(today: Date): (w: Window)
    requires Valid(today)
    ensures WellFormed(w) && Contains(w, today)
    ensures Weekday(w.start) == 0 && Weekday(w.end) == 6
    ensures Ordinal(w.end) == Ordinal(w.start) + 6
    ensures Ordinal(w.start) == Ordinal(today) - Weekday(today)
  {
    var start := AddDays(today, -Weekday(today));
    var end := AddDays(start, 6);
    ThisMonday(today, start);
    SundayAfter(start, end);
    OrdinalOrder(start, end);
    ContainsByOrdinal(Window(start, end), today);
    Window(start, end)
  }

  /** `today - timedelta(days=today.weekday() + 7)` through six days later: the
      Monday-to-Sunday week just before this one. */
  function LastWeek(today: Date): (w: Window)
    requires Valid(today)
    ensures WellFormed(w)
    ensures Weekday(w.start) == 0 && Weekday(w.end) == 6
    ensures Ordinal(w.start) == Ordinal(Week(today).start) - 7
    ensures Ordinal(w.end) == Ordinal(Week(today).start) - 1
  {
    var start := AddDays(today, -(Weekday(today) + 7));
    var end := AddDays(start, 6);
    LastMonday(today, start);
    SundayAfter(start, end);
    OrdinalOrder(start, end);
    assert Ordinal(Week(today).start) == Ordinal(today) - Weekday(today);
    Window(start, end)
  }

  /** `(first + relativedelta(months=1)) - timedelta(days=1)`: the last day of
      the month that `first` opens. */
  function MonthEnd(first: Date): (e: Date)
    requires Valid(first) && first.day == 1
    ensures e == Date(first.year, first.month, DaysInMonth(first.year, first.month))
  {
    var next := AddMonths(first, 1);
    assert next.day == 1;
    assert next == if first.month < 12 then Date(first.year, first.month + 1, 1)
                   else Date(first.year + 1, 1, 1);
    assert AddDays(next, -1) == PrevDay(next);
    AddDays(next, -1)
  }

  /** The calendar month that `first` opens, first to last day. */
  function CalendarMonth(first: Date): (w: Window)
    requires Valid(first) && first.day == 1
    ensures WellFormed(w)
    ensures forall d :: Valid(d) ==> (Contains(w, d) <==> d.year == first.year && d.month == first.month)
  {
    Window(first, MonthEnd(first))
  }

  /** `today.replace(day=1)` through the month's last day. */
  function Month(today: Date): (w: Window)
    requires Valid(today)
    ensures w == Window(Date(today.year, today.month, 1),
                        Date(today.year, today.month, DaysInMonth(today.year, today.month)))
    ensures forall d :: Valid(d) ==> (Contains(w, d) <==> d.year == today.year && d.month == today.month)
  {
    CalendarMonth(FirstOfMonth(today))
  }

  /** `(today - relativedelta(months=1)).replace(day=1)` through that month's last
      day: the whole previous calendar month, December of last year in January. */
  function LastMonth(today: Date): (w: Window)
    requires Valid(today)
    ensures w.start == if today.month == 1 then Date(today.year - 1, 12, 1)
                       else Date(today.year, today.month - 1, 1)
    ensures w.end == Date(w.start.year, w.start.month, DaysInMonth(w.start.year, w.start.month))
    ensures forall d :: Valid(d) ==> (Contains(w, d) <==> d.year == w.start.year && d.month == w.start.month)
  {
    var start := FirstOfMonth(AddMonths(today, -1));
    CalendarMonth(start)
  }

  /** `today.replace(month=((today.month - 1) // 3) * 3 + 1, day=1)` through three
      months later less a day: the calendar quarter that contains today. */
  function Quarter(today: Date): (w: Window)
    requires Valid(today)
    ensures w.start.year == today.year && w.start.day == 1
    ensures w.start.month in {1, 4, 7, 10}
    ensures w.start.month <= today.month <= w.start.month + 2
    ensures w.end == Date(today.year, w.start.month + 2, DaysInMonth(today.year, w.start.month + 2))
    ensures WellFormed(w) && Contains(w, today)
  {
    var start := Date(today.year, ((today.month - 1) / 3) * 3 + 1, 1);
    var next := AddMonths(start, 3);
    assert next.day == 1;
    assert next == if start.month < 10 then Date(today.year, start.month + 3, 1)
                   else Date(today.year + 1, 1, 1);
    assert AddDays(next, -1) == PrevDay(next);
    Window(start, AddDays(next, -1))
  }

  /** The quarter of 10 May 2024 runs from 1 April to 30 June 2024. */
  lemma QuarterExample()
    ensures Quarter(Date(2024, 5, 10)) == Window(Date(2024, 4, 1), Date(2024, 6, 30))
  {
    var w := Quarter(Date(2024, 5, 10));
    assert w.start.month == 4;
  }

  /** `today.replace(month=1, day=1)` through `today.replace(month=12, day=31)`. */
  function Year(today: Date): (w: Window)
    requires Valid(today)
    ensures WellFormed(w) && Contains(w, today)
    ensures forall d :: Contains(w, d) ==> d.year == today.year
    ensures forall d :: Valid(d) && d.year == today.year ==> Contains(w, d)
  {
    Window(Date(today.year, 1, 1), Date(today.year, 12, 31))
  }

  /** January 1 through December 31 of the year before today's. */
  function LastYear(today: Date): (w: Window)
    requires Valid(today)
    ensures WellFormed(w)
    ensures forall d :: Contains(w, d) ==> d.year == today.year - 1
    ensures forall d :: Valid(d) && d.year == today.year - 1 ==> Contains(w, d)
  {
    Window(Date(today.year - 1, 1, 1), Date(today.year - 1, 12, 31))
  }

  /** `[today - timedelta(days=n), today]`: `n + 1` days ending today. */
  function TrailingDays(today: Date, n: nat): (w: Window)
    requires Valid(today)
    ensures WellFormed(w) && w.end == today
    ensures forall d :: Valid(d) ==> (Contains(w, d) <==> Ordinal(today) - n <= Ordinal(d) <= Ordinal(today))
  {
    var start := AddDays(today, -(n as int));
    OrdinalOrder(start, today);
    assert forall d :: Valid(d) ==> (Contains(Window(start, today), d) <==> Ordinal(start) <= Ordinal(d) <= Ordinal(today)) by {
      forall d | Valid(d) ensures Contains(Window(start, today), d) <==> Ordinal(start) <= Ordinal(d) <= Ordinal(today) {
        ContainsByOrdinal(Window(start, today), d);
      }
    }
    Window(start, today)
  }
}
