/** The records the reporting views read (users' categories, accounts and
    transactions) and the aggregates every view computes over a set of
    transactions: income and expense totals and counts. */
module Ledger {
  import opened Dates
  import opened Seqs
  import opened Wrappers
  import opened Periods

  type UserId = nat

  /** A `DecimalField(max_digits=15, decimal_places=2)` value as a whole number
      of cents: at most 15 digits, of which two are the fraction. */
  newtype Money = c: int | -1_000_000_000_000_000 < c < 1_000_000_000_000_000

  /** `transaction_type`. The field's choices are income and expense; the column
      is a plain `CharField`, so a record written around the form layer can hold
      any other label, kept here as `Other`. */
  datatype TxType = Income | Expense | Other(name: string)

  const TypeChoices: set<TxType> := {Income, Expense}

  /** The stored label of a type. */
  function TypeLabel(t: TxType): string {
    match t
    case Income => "income"
    case Expense => "expense"
    case Other(name) => name
  }

  datatype FieldError = InvalidChoice(given: string)

  /** The value a submitted `transaction_type` resolves to: absent means the
      field default, a label outside the choices is refused. */
  function ResolveType(given: Option<string>): (r: Result<TxType, FieldError>)
    ensures given.None? ==> r == Ok(Expense)
    ensures r.Ok? ==> r.value in TypeChoices
    ensures given.Some? ==> (r.Ok? <==> given.value in {"income", "expense"})
  {
    match given
    case None => Ok(Expense)
    case Some(text) =>
      if text == "income" then Ok(Income)
      else if text == "expense" then Ok(Expense)
      else Err(InvalidChoice(text))
  }

  /** Every type in the choices is accepted back from its own label. */
  lemma ResolveTypeLabel(t: TxType)
    requires t in TypeChoices
    ensures ResolveType(Some(TypeLabel(t))) == Ok(t)
  {
  }

  datatype Category = Category(id: nat, title: string, user: UserId)

  datatype Account = Account(id: nat, title: string, initial: Money, user: UserId)

  const MicrosPerDay: int := 86_400_000_000

  /** `created_at` in the current time zone: its calendar date (what the
      `created_at__date` lookups compare) and the microsecond within that day. */
  datatype Stamp = Stamp(date: Date, micros: int)

  /** A number that orders stamps chronologically: the key of `order_by('-created_at')`. */
  function StampKey(s: Stamp): int {
    DateKey(s.date) * MicrosPerDay + s.micros
  }

  predicate ValidStamp(s: Stamp) {
    Valid(s.date) && 0 <= s.micros < MicrosPerDay
  }

  /** Stamp keys compare as the dates do, and within a day as the times do. */
  lemma StampKeyOrder(a: Stamp, b: Stamp)
    requires ValidStamp(a) && ValidStamp(b)
    ensures StampKey(a) < StampKey(b) <==> Before(a.date, b.date) || (a.date == b.date && a.micros < b.micros)
  {
    DateKeyOrder(a.date, b.date);
    var ka, kb := DateKey(a.date), DateKey(b.date);
    if ka < kb {
      assert ka * MicrosPerDay + MicrosPerDay <= kb * MicrosPerDay;
    } else if ka > kb {
      assert kb * MicrosPerDay + MicrosPerDay <= ka * MicrosPerDay;
    }
  }

  /** A transaction row, with the category and account it refers to. */
  datatype Transaction = Transaction(
    id: nat,
    title: string,
    amount: Money,
    txType: TxType,
    category: Category,
    account: Account,
    date: Date,
    notes: Option<string>,
    receipt: Option<string>,
    tags: Option<string>,
    user: UserId,
    createdAt: Stamp)

  // ---------------------------------------------------------------------------
  // Row predicates (the lookups of a `filter(...)`).

  predicate IsIncome(t: Transaction) {
    t.txType == Income
  }

  predicate IsExpense(t: Transaction) {
    t.txType == Expense
  }

  predicate NotIncome(t: Transaction) {
    !IsIncome(t)
  }

  function Amount(t: Transaction): int {
    t.amount as int
  }

  /** `user=user`. */
  function OwnedByUser(user: UserId): Transaction -> bool {
    (t: Transaction) => t.user == user
  }

  /** `date__range=[w.start, w.end]`, on the business date. */
  function DatedIn(w: Window): Transaction -> bool {
    (t: Transaction) => Contains(w, t.date)
  }

  /** `created_at__date__range=[w.start, w.end]`, on the creation date. */
  function CreatedIn(w: Window): Transaction -> bool {
    (t: Transaction) => Contains(w, t.createdAt.date)
  }

  // ---------------------------------------------------------------------------
  // Aggregates.

  /** `filter(transaction_type='income').aggregate(total=Sum('amount'))['total'] or 0`. */
  function TotalIncome(s: seq<Transaction>): int {
    Sum(Filter(s, IsIncome), Amount)
  }

  /** The same aggregate over the expense rows. */
  function TotalExpenses(s: seq<Transaction>): int {
    Sum(Filter(s, IsExpense), Amount)
  }

  /** The `or 0`: with no income rows the income total is 0, and with no expense
      rows the expense total is 0. */
  lemma TotalsWithoutRows(s: seq<Transaction>)
    ensures (forall i :: 0 <= i < |s| ==> !IsIncome(s[i])) ==> TotalIncome(s) == 0 && IncomeCount(s) == 0
    ensures (forall i :: 0 <= i < |s| ==> !IsExpense(s[i])) ==> TotalExpenses(s) == 0 && ExpenseCount(s) == 0
  {
    if forall i :: 0 <= i < |s| ==> !IsIncome(s[i]) {
      FilterNone(s, IsIncome);
    }
    if forall i :: 0 <= i < |s| ==> !IsExpense(s[i]) {
      FilterNone(s, IsExpense);
    }
  }

  function IncomeCount(s: seq<Transaction>): nat {
    |Filter(s, IsIncome)|
  }

  function ExpenseCount(s: seq<Transaction>): nat {
    |Filter(s, IsExpense)|
  }

  /** What one row adds to a balance: its amount if income, minus it if expense,
      nothing otherwise. */
  function SignedAmount(t: Transaction): int {
    if IsIncome(t) then Amount(t) else if IsExpense(t) then -Amount(t) else 0
  }

  function IncomePart(t: Transaction): int {
    if IsIncome(t) then Amount(t) else 0
  }

  function ExpensePart(t: Transaction): int {
    if IsExpense(t) then Amount(t) else 0
  }

  /** Income less expenses is the signed total of the rows: each income adds its
      amount, each expense subtracts it, and every other type counts for nothing. */
  lemma NetIsSignedSum(s: seq<Transaction>)
    ensures TotalIncome(s) - TotalExpenses(s) == Sum(s, SignedAmount)
  {
    SumFilter(s, IsIncome, Amount, IncomePart);
    SumFilter(s, IsExpense, Amount, ExpensePart);
    SumDifference(s, IncomePart, ExpensePart, SignedAmount);
  }

  /** The aggregates do not depend on the order of the rows. */
  lemma AggregatesPermutation(s: seq<Transaction>, t: seq<Transaction>)
    requires multiset(s) == multiset(t)
    ensures TotalIncome(s) == TotalIncome(t) && TotalExpenses(s) == TotalExpenses(t)
    ensures IncomeCount(s) == IncomeCount(t) && ExpenseCount(s) == ExpenseCount(t)
  {
    FilterPermutation(s, t, IsIncome);
    FilterPermutation(s, t, IsExpense);
    SumPermutation(Filter(s, IsIncome), Filter(t, IsIncome), Amount);
    SumPermutation(Filter(s, IsExpense), Filter(t, IsExpense), Amount);
    assert |Filter(s, IsIncome)| == |multiset(Filter(s, IsIncome))|;
    assert |Filter(t, IsIncome)| == |multiset(Filter(t, IsIncome))|;
    assert |Filter(s, IsExpense)| == |multiset(Filter(s, IsExpense))|;
    assert |Filter(t, IsExpense)| == |multiset(Filter(t, IsExpense))|;
  }

  /** The figures the views report for a set of rows. */
  datatype Figures = Figures(income: int, expenses: int, net: int, count: nat)

  function FiguresOf(rows: seq<Transaction>): Figures {
    var income := TotalIncome(rows);
    var expenses := TotalExpenses(rows);
    Figures(income, expenses, income - expenses, |rows|)
  }

  /** The net figure is the signed total of the rows; without income rows the
      income figure is 0, without expense rows the expense figure is 0; and the
      figures do not depend on the order of the rows. */
  lemma FiguresProperties(rows: seq<Transaction>, other: seq<Transaction>)
    ensures FiguresOf(rows).net == Sum(rows, SignedAmount)
    ensures (forall i :: 0 <= i < |rows| ==> !IsIncome(rows[i])) ==> FiguresOf(rows).income == 0
    ensures (forall i :: 0 <= i < |rows| ==> !IsExpense(rows[i])) ==> FiguresOf(rows).expenses == 0
    ensures multiset(rows) == multiset(other) ==> FiguresOf(rows) == FiguresOf(other)
  {
    NetIsSignedSum(rows);
    TotalsWithoutRows(rows);
    if multiset(rows) == multiset(other) {
      AggregatesPermutation(rows, other);
      assert |rows| == |multiset(rows)|;
      assert |other| == |multiset(other)|;
    }
  }

  /** When every row is income or expense, the row count is the income count plus
      the expense count. */
  lemma CountsAddUp(s: seq<Transaction>)
    requires forall i :: 0 <= i < |s| ==> s[i].txType in TypeChoices
    ensures |s| == IncomeCount(s) + ExpenseCount(s)
  {
    FilterSplit(s, IsIncome, NotIncome);
    FilterAgree(s, NotIncome, IsExpense);
  }

  /** When every row is income or expense, the unsigned total of the rows is the
      income total plus the expense total. */
  lemma AmountsAddUp(s: seq<Transaction>)
    requires forall i :: 0 <= i < |s| ==> s[i].txType in TypeChoices
    ensures Sum(s, Amount) == TotalIncome(s) + TotalExpenses(s)
  {
    SumSplit(s, IsIncome, NotIncome, Amount);
    FilterAgree(s, NotIncome, IsExpense);
  }
}
