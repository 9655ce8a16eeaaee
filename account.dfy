/** The account model: `current_balance`, a fold over every transaction of the
    account, and the rule that a user's account titles are unique. */
module AccountModel {
  import opened Seqs
  import opened Wrappers
  import opened Ledger

  /** `account=self`: the rows whose account is `a`. */
  function OfAccount(a: Account): Transaction -> bool {
    (t: Transaction) => t.account.id == a.id
  }

  /** `user=user`: the accounts the account views show a user. */
  function OwnedAccount(user: UserId): Account -> bool {
    (a: Account) => a.user == user
  }

  /** `Account.current_balance`: the initial amount plus the account's income
      less its expenses, over its whole history. */
  function CurrentBalance(a: Account, ledger: seq<Transaction>): int {
    var rows := Filter(ledger, OfAccount(a));
    a.initial as int + TotalIncome(rows) - TotalExpenses(rows)
  }

  /** The balance is the initial amount plus the signed amounts of the account's
      rows; rows of any other type count for nothing. */
  lemma CurrentBalanceSigned(a: Account, ledger: seq<Transaction>)
    ensures CurrentBalance(a, ledger) == a.initial as int + Sum(Filter(ledger, OfAccount(a)), SignedAmount)
  {
    NetIsSignedSum(Filter(ledger, OfAccount(a)));
  }

  /** An account without transactions has its initial amount as balance. */
  lemma CurrentBalanceWithoutRows(a: Account, ledger: seq<Transaction>)
    requires forall i :: 0 <= i < |ledger| ==> ledger[i].account.id != a.id
    ensures CurrentBalance(a, ledger) == a.initial as int
  {
    FilterNone(ledger, OfAccount(a));
  }

  /** The balance does not depend on the order of the ledger. */
  lemma CurrentBalancePermutation(a: Account, ledger: seq<Transaction>, other: seq<Transaction>)
    requires multiset(ledger) == multiset(other)
    ensures CurrentBalance(a, ledger) == CurrentBalance(a, other)
  {
    FilterPermutation(ledger, other, OfAccount(a));
    AggregatesPermutation(Filter(ledger, OfAccount(a)), Filter(other, OfAccount(a)));
  }

  /** Recording one more transaction, of any date, moves the balance of its own
      account by its signed amount and leaves every other account's alone. */
  lemma CurrentBalanceAppend(a: Account, ledger: seq<Transaction>, t: Transaction)
    ensures CurrentBalance(a, ledger + [t]) ==
            CurrentBalance(a, ledger) + (if t.account.id == a.id then SignedAmount(t) else 0)
  {
    var p := OfAccount(a);
    FilterConcat(ledger, [t], p);
    assert Filter([t], p) == if p(t) then [t] else [] by {
      assert [t][1..] == [];
    }
    CurrentBalanceSigned(a, ledger);
    CurrentBalanceSigned(a, ledger + [t]);
    SumConcat(Filter(ledger, p), Filter([t], p), SignedAmount);
  }

  function BalanceIn(ledger: seq<Transaction>): Account -> int {
    (a: Account) => CurrentBalance(a, ledger)
  }

  function InitialOf(a: Account): int {
    a.initial as int
  }

  /** What an account's balance has moved since it was opened. */
  function ChangeIn(ledger: seq<Transaction>): Account -> int {
    (a: Account) => CurrentBalance(a, ledger) - a.initial as int
  }

  /** Over a set of accounts, the total current balance less the total initial
      amount is the sum of the accounts' changes. */
  lemma TotalChange(accounts: seq<Account>, ledger: seq<Transaction>)
    ensures Sum(accounts, BalanceIn(ledger)) - Sum(accounts, InitialOf) == Sum(accounts, ChangeIn(ledger))
  {
    SumDifference(accounts, BalanceIn(ledger), InitialOf, ChangeIn(ledger));
  }

  // ---------------------------------------------------------------------------
  // `unique_together = ['title', 'user']`.

  predicate TitlesUnique(accounts: seq<Account>) {
    forall i, j :: 0 <= i < j < |accounts| ==>
      accounts[i].title != accounts[j].title || accounts[i].user != accounts[j].user
  }

  datatype IntegrityError = DuplicateTitle(title: string, user: UserId)

  /** Inserting an account: refused when the user already has an account with
      that title, otherwise stored after the others. */
  function AddAccount(accounts: seq<Account>, a: Account): (r: Result<seq<Account>, IntegrityError>)
    ensures r.Err? <==> exists i :: 0 <= i < |accounts| && accounts[i].title == a.title && accounts[i].user == a.user
    ensures r.Ok? ==> r.value == accounts + [a]
    ensures TitlesUnique(accounts) && r.Ok? ==> TitlesUnique(r.value)
  {
    if exists i :: 0 <= i < |accounts| && accounts[i].title == a.title && accounts[i].user == a.user then
      Err(DuplicateTitle(a.title, a.user))
    else
      Ok(accounts + [a])
  }
}
