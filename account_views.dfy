/** The account endpoints: `balance_history`, a running balance over the
    account's recent transactions, and `summary`, the totals over all of a
    user's accounts. */
module AccountViews {
  import opened Dates
  import opened Seqs
  import opened Sorting
  import opened Wrappers
  import opened Periods
  import opened Ledger
  import opened AccountModel

  // ---------------------------------------------------------------------------
  // Looking up the account

  datatype LookupError = AccountNotFound(pk: nat)

  /** `get_queryset().get(pk=pk)`: the user's account with that id, if any. */
  function FindOwned(accounts: seq<Account>, user: UserId, pk: nat): (r: Option<Account>)
    ensures r.None? <==> forall i :: 0 <= i < |accounts| ==> accounts[i].id != pk || accounts[i].user != user
    ensures r.Some? ==> r.value in accounts && r.value.id == pk && r.value.user == user
  {
    if accounts == [] then None
    else if accounts[0].id == pk && accounts[0].user == user then Some(accounts[0])
    else
      var r := FindOwned(accounts[1..], user, pk);
      assert forall i :: 1 <= i < |accounts| ==> accounts[i] == accounts[1..][i - 1];
      r
  }

  // ---------------------------------------------------------------------------
  // The window

  /** The number of days `balance_history` looks back for a keyword. */
  function LookBack(period: Option<string>): nat {
    var p := PeriodParam(period);
    if p == "week" then 7
    else if p == "month" then 30
    else if p == "year" then 365
    else 30
  }

  /** `start_date`: 7, 30 or 365 days before today for `week`, `month` or
      `year`, and 30 days before today for any other keyword. */
  function HistoryStart(period: Option<string>, today: Date): (start: Date)
    requires Valid(today)
    ensures Valid(start) && Ordinal(start) == Ordinal(today) - LookBack(period)
  {
    var p := PeriodParam(period);
    if p == "week" then AddDays(today, -7)
    else if p == "month" then AddDays(today, -30)
    else if p == "year" then AddDays(today, -365)
    else AddDays(today, -30)
  }

  /** `account=account, user=user, date__gte=start`. There is no upper bound:
      records dated after today are kept too. */
  function InHistory(a: Account, user: UserId, start: Date): Transaction -> bool {
    (t: Transaction) => t.account.id == a.id && t.user == user && OnOrBefore(start, t.date)
  }

  /** `order_by('date')`: earliest first. */
  function AscendingDate(t: Transaction): int {
    -DateKey(t.date)
  }

  /** The rows of the history, in date order (rows of one date in ledger order). */
  function HistoryRows(ledger: seq<Transaction>, a: Account, user: UserId, start: Date): seq<Transaction> {
    SortDesc(Filter(ledger, InHistory(a, user, start)), AscendingDate)
  }

  /** The history holds exactly the user's records of the account dated on or
      after the start, each as often as the ledger does, earliest first. */
  lemma HistoryRowsProperties(ledger: seq<Transaction>, a: Account, user: UserId, start: Date)
    ensures forall t :: t in HistoryRows(ledger, a, user, start) <==>
      t in ledger && t.account.id == a.id && t.user == user && OnOrBefore(start, t.date)
    ensures multiset(HistoryRows(ledger, a, user, start)) == multiset(Filter(ledger, InHistory(a, user, start)))
    ensures var rows := HistoryRows(ledger, a, user, start);
      forall i, j :: 0 <= i < j < |rows| && Valid(rows[i].date) && Valid(rows[j].date) ==> OnOrBefore(rows[i].date, rows[j].date)
  {
    var rows := HistoryRows(ledger, a, user, start);
    forall t ensures t in rows <==> t in ledger && t.account.id == a.id && t.user == user && OnOrBefore(start, t.date) {
      assert t in rows <==> t in multiset(rows);
      FilterMember(ledger, InHistory(a, user, start), t);
    }
    forall i, j | 0 <= i < j < |rows| && Valid(rows[i].date) && Valid(rows[j].date)
      ensures OnOrBefore(rows[i].date, rows[j].date)
    {
      DateKeyOrder(rows[j].date, rows[i].date);
    }
  }

  // ---------------------------------------------------------------------------
  // The running balance

  /** What one row does to the running balance: income adds its amount, and
      every other type, expense or not, subtracts it. */
  function RunningStep(t: Transaction): int {
    if t.txType == Income then t.amount as int else -(t.amount as int)
  }

  /** For income and expense rows, the running step is the row's signed amount;
      a row of another type is subtracted here but ignored by the balance. */
  lemma RunningStepSigned(t: Transaction)
    ensures t.txType in TypeChoices ==> RunningStep(t) == SignedAmount(t)
    ensures t.txType !in TypeChoices ==> RunningStep(t) == -Amount(t) && SignedAmount(t) == 0
  {
  }

  /** One entry of `balance_history`. */
  datatype HistoryEntry = HistoryEntry(date: Date, balance: int, id: nat, title: string, amount: int, txType: TxType)

  /** The entry reports the row's date, id, title, amount and type. */
  predicate Describes(e: HistoryEntry, t: Transaction) {
    e.date == t.date && e.id == t.id && e.title == t.title && e.amount == t.amount as int && e.txType == t.txType
  }

  /** The running balance after row `k`: the initial amount plus the steps of
      the rows up to and including `k`. */
  function BalanceAfter(initial: int, rows: seq<Transaction>, k: nat): int
    requires k < |rows|
  {
    initial + Sum(rows[..k + 1], RunningStep)
  }

  lemma RunningTotalStep(rows: seq<Transaction>, i: nat)
    requires i < |rows|
    ensures Sum(rows[..i + 1], RunningStep) == Sum(rows[..i], RunningStep) + RunningStep(rows[i])
  {
    assert rows[..i + 1] == rows[..i] + [rows[i]];
    SumSnoc(rows[..i], rows[i], RunningStep);
  }

  lemma EntryAppended(entries: seq<HistoryEntry>, e: HistoryEntry, initial: int, rows: seq<Transaction>)
    requires |entries| < |rows|
    requires forall k :: 0 <= k < |entries| ==> Describes(entries[k], rows[k]) && entries[k].balance == BalanceAfter(initial, rows, k)
    requires Describes(e, rows[|entries|]) && e.balance == BalanceAfter(initial, rows, |entries|)
    ensures forall k :: 0 <= k < |entries| + 1 ==>
      Describes((entries + [e])[k], rows[k]) && (entries + [e])[k].balance == BalanceAfter(initial, rows, k)
  {
  }

  /** The loop of `balance_history`: one entry per row, in order, each with the
      balance after that row, starting from `initial`. */
  method RunningBalances(initial: int, rows: seq<Transaction>) returns (entries: seq<HistoryEntry>)
    ensures |entries| == |rows|
    ensures forall k :: 0 <= k < |rows| ==> Describes(entries[k], rows[k]) && entries[k].balance == BalanceAfter(initial, rows, k)
  {
    entries := [];
    var running := initial;
    for i := 0 to |rows|
      invariant |entries| == i
      invariant running == initial + Sum(rows[..i], RunningStep)
      invariant forall k :: 0 <= k < i ==> Describes(entries[k], rows[k]) && entries[k].balance == BalanceAfter(initial, rows, k)
    {
      var t := rows[i];
      if t.txType == Income {
        running := running + t.amount as int;
      } else {
        running := running - t.amount as int;
      }
      RunningTotalStep(rows, i);
      var e := HistoryEntry(t.date, running, t.id, t.title, t.amount as int, t.txType);
      EntryAppended(entries, e, initial, rows);
      entries := entries + [e];
    }
  }

  /** Successive entries differ by the step of the later row, and the first
      moves the initial amount by the step of the first row. */
  lemma BalanceAfterSteps(initial: int, rows: seq<Transaction>, k: nat)
    requires k < |rows|
    ensures k == 0 ==> BalanceAfter(initial, rows, k) == initial + RunningStep(rows[0])
    ensures k > 0 ==> BalanceAfter(initial, rows, k) == BalanceAfter(initial, rows, k - 1) + RunningStep(rows[k])
  {
    RunningTotalStep(rows, k);
    if k == 0 {
      assert rows[..0] == [];
    }
  }

  /** The last entry's balance is the initial amount plus the steps of all the
      rows. */
  lemma LastBalance(initial: int, rows: seq<Transaction>)
    requires rows != []
    ensures BalanceAfter(initial, rows, |rows| - 1) == initial + Sum(rows, RunningStep)
  {
    assert rows[..|rows|] == rows;
  }

  // ---------------------------------------------------------------------------
  // The view

  /** An account opened with 100.00 that receives 50.00 and then spends 30.00
      has a balance of 120.00. */
  lemma BalanceExample(a: Account, income: Transaction, expense: Transaction)
    requires a.initial == 10000
    requires income.account.id == a.id && income.txType == Income && income.amount == 5000
    requires expense.account.id == a.id && expense.txType == Expense && expense.amount == 3000
    ensures CurrentBalance(a, [income, expense]) == 12000
  {
    var rows := [income, expense];
    assert rows[1..] == [expense] && [expense][1..] == [];
    assert Filter(rows, OfAccount(a)) == rows;
    assert Sum([expense], SignedAmount) == -3000;
    CurrentBalanceSigned(a, rows);
  }

  /** Its history over those two records reads 150.00, then 120.00. */
  lemma HistoryExample(income: Transaction, expense: Transaction)
    requires income.txType == Income && income.amount == 5000
    requires expense.txType == Expense && expense.amount == 3000
    ensures BalanceAfter(10000, [income, expense], 0) == 15000
    ensures BalanceAfter(10000, [income, expense], 1) == 12000
  {
    var rows := [income, expense];
    assert rows[..1] == [income] && rows[..2] == rows && rows[1..] == [expense];
    assert [income][1..] == [] && [expense][1..] == [];
    assert Sum([income], RunningStep) == 5000;
    assert Sum([expense], RunningStep) == -3000;
  }

  datatype History = History(account: Account, initialBalance: int, currentBalance: int, entries: seq<HistoryEntry>)

  /** `balance_history`: not found unless the user owns an account with that id;
      otherwise the running balance over the account's rows from the start
      date on, beside the account's full-history balance. */
  method BalanceHistory(accounts: seq<Account>, ledger: seq<Transaction>, user: UserId, pk: nat,
                        period: Option<string>, today: Date)
    returns (r: Result<History, LookupError>)
    requires Valid(today)
    ensures r.Err? <==> FindOwned(accounts, user, pk).None?
    ensures r.Err? ==> r.error == AccountNotFound(pk)
    ensures r.Ok? ==>
      var a := FindOwned(accounts, user, pk).value;
      var rows := HistoryRows(ledger, a, user, HistoryStart(period, today));
      r.value.account == a && r.value.initialBalance == a.initial as int &&
      r.value.currentBalance == CurrentBalance(a, ledger) &&
      |r.value.entries| == |rows| &&
      forall k :: 0 <= k < |rows| ==>
        Describes(r.value.entries[k], rows[k]) && r.value.entries[k].balance == BalanceAfter(a.initial as int, rows, k)
  {
    var found := FindOwned(accounts, user, pk);
    if found.None? {
      return Err(AccountNotFound(pk));
    }
    var a := found.value;
    var start := HistoryStart(period, today);
    var rows := HistoryRows(ledger, a, user, start);
    var entries := RunningBalances(a.initial as int, rows);
    return Ok(History(a, a.initial as int, CurrentBalance(a, ledger), entries));
  }

  /** Before the start date: the complement of the window. */
  function BeforeStart(start: Date): Transaction -> bool {
    (t: Transaction) => Before(t.date, start)
  }

  function FromStart(start: Date): Transaction -> bool {
    (t: Transaction) => OnOrBefore(start, t.date)
  }

  function InHistoryAt(a: Account, start: Date): Transaction -> bool {
    (t: Transaction) => t.account.id == a.id && OnOrBefore(start, t.date)
  }

  /** When every record of the account is the user's, the history's rows are the
      account's rows from the start on. */
  lemma WindowOfAccount(ledger: seq<Transaction>, a: Account, user: UserId, start: Date)
    requires forall t :: t in ledger && t.account.id == a.id ==> t.user == user
    ensures Filter(ledger, InHistory(a, user, start)) == Filter(Filter(ledger, OfAccount(a)), FromStart(start))
  {
    forall i | 0 <= i < |ledger| ensures InHistory(a, user, start)(ledger[i]) == InHistoryAt(a, start)(ledger[i]) {
      assert ledger[i] in ledger;
    }
    FilterAgree(ledger, InHistory(a, user, start), InHistoryAt(a, start));
    FilterBoth(ledger, OfAccount(a), FromStart(start), InHistoryAt(a, start));
  }

  /** Over income and expense rows, the running steps add up to the signed
      total. */
  lemma StepsAreSigned(s: seq<Transaction>)
    requires forall t :: t in s ==> t.txType in TypeChoices
    ensures Sum(s, RunningStep) == Sum(s, SignedAmount)
  {
    forall i | 0 <= i < |s| ensures RunningStep(s[i]) == SignedAmount(s[i]) {
      assert s[i] in s;
      RunningStepSigned(s[i]);
    }
    SumAgree(s, RunningStep, SignedAmount);
  }

  /** The running balance starts from the initial amount, not from the balance
      on the start date. When every record of the account is the user's and of
      type income or expense, the full-history balance exceeds the history's
      final running balance by the signed total of the account's records dated
      before the start. */
  lemma HistoryShortfall(ledger: seq<Transaction>, a: Account, user: UserId, start: Date)
    requires forall t :: t in ledger && t.account.id == a.id ==> t.user == user && t.txType in TypeChoices
    ensures CurrentBalance(a, ledger) - (a.initial as int + Sum(HistoryRows(ledger, a, user, start), RunningStep))
         == Sum(Filter(Filter(ledger, OfAccount(a)), BeforeStart(start)), SignedAmount)
  {
    var mine := Filter(ledger, OfAccount(a));
    var inWindow := Filter(mine, FromStart(start));
    WindowOfAccount(ledger, a, user, start);
    forall t | t in inWindow ensures t.txType in TypeChoices {
      FilterMember(mine, FromStart(start), t);
      FilterMember(ledger, OfAccount(a), t);
    }
    StepsAreSigned(inWindow);
    SumPermutation(HistoryRows(ledger, a, user, start), inWindow, RunningStep);
    SumSplit(mine, FromStart(start), BeforeStart(start), SignedAmount);
    CurrentBalanceSigned(a, ledger);
  }

  /** Under the same conditions, and when no record of the account is dated
      before the start, the last running balance is the current balance. */
  lemma HistoryReachesCurrent(ledger: seq<Transaction>, a: Account, user: UserId, start: Date)
    requires forall t :: t in ledger && t.account.id == a.id ==> t.user == user && t.txType in TypeChoices
    requires forall t :: t in ledger && t.account.id == a.id ==> OnOrBefore(start, t.date)
    ensures a.initial as int + Sum(HistoryRows(ledger, a, user, start), RunningStep) == CurrentBalance(a, ledger)
  {
    HistoryShortfall(ledger, a, user, start);
    var mine := Filter(ledger, OfAccount(a));
    forall i | 0 <= i < |mine| ensures !BeforeStart(start)(mine[i]) {
      assert mine[i] in mine;
      FilterMember(ledger, OfAccount(a), mine[i]);
    }
    FilterNone(mine, BeforeStart(start));
  }

  // ---------------------------------------------------------------------------
  // The summary

  datatype AccountsSummary = AccountsSummary(count: nat, totalInitial: int, totalCurrent: int, totalChange: int)

  /** `summary`: over the user's accounts, the number of accounts, the total
      initial amount, the total current balance and their difference. */
  function SummaryOf(accounts: seq<Account>, ledger: seq<Transaction>, user: UserId): AccountsSummary {
    var owned := Filter(accounts, OwnedAccount(user));
    var totalInitial := Sum(owned, InitialOf);
    var totalCurrent := Sum(owned, BalanceIn(ledger));
    AccountsSummary(|owned|, totalInitial, totalCurrent, totalCurrent - totalInitial)
  }

  /** The total change is the sum of the accounts' own changes, and accounts of
      other users count for nothing. */
  lemma SummaryChange(accounts: seq<Account>, ledger: seq<Transaction>, user: UserId)
    ensures SummaryOf(accounts, ledger, user).totalChange == Sum(Filter(accounts, OwnedAccount(user)), ChangeIn(ledger))
    ensures SummaryOf(accounts, ledger, user).count == |Filter(accounts, OwnedAccount(user))|
    ensures (forall i :: 0 <= i < |accounts| ==> accounts[i].user != user) ==> SummaryOf(accounts, ledger, user) == AccountsSummary(0, 0, 0, 0)
  {
    TotalChange(Filter(accounts, OwnedAccount(user)), ledger);
    if forall i :: 0 <= i < |accounts| ==> accounts[i].user != user {
      FilterNone(accounts, OwnedAccount(user));
    }
  }
}
