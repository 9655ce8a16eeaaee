/** The transaction model's `save`: it refuses a record whose category or
    account belongs to another user, and otherwise stores it. */
module TransactionModel {
  import opened Wrappers
  import opened Ledger

  datatype SaveError = CategoryOfOtherUser | AccountOfOtherUser

  /** A record whose category and account both belong to its user. */
  predicate Owned(t: Transaction) {
    t.category.user == t.user && t.account.user == t.user
  }

  /** The guards `save` runs before writing, the category's first. */
  function SaveGuard(t: Transaction): (r: Option<SaveError>)
    ensures r.None? <==> Owned(t)
    ensures r == Some(CategoryOfOtherUser) <==> t.category.user != t.user
    ensures r == Some(AccountOfOtherUser) <==> t.category.user == t.user && t.account.user != t.user
  {
    if t.category.user != t.user then Some(CategoryOfOtherUser)
    else if t.account.user != t.user then Some(AccountOfOtherUser)
    else None
  }

  /** The stored transaction rows, oldest insert first. */
  class TransactionTable {
    var rows: seq<Transaction>

    /** Every stored row passed the guards. */
    predicate Consistent()
      reads this
    {
      forall i :: 0 <= i < |rows| ==> Owned(rows[i])
    }

    constructor ()
      ensures rows == [] && Consistent()
    {
      rows := [];
    }

    /** `Transaction.save` for a new record: a refused record leaves the table as
        it was; an accepted one is stored as given, after the others. */
    method Save(t: Transaction) returns (err: Option<SaveError>)
      modifies this
      ensures err == SaveGuard(t)
      ensures err.None? ==> rows == old(rows) + [t]
      ensures err.Some? ==> rows == old(rows)
      ensures old(Consistent()) ==> Consistent()
    {
      if t.category.user != t.user {
        return Some(CategoryOfOtherUser);
      }
      if t.account.user != t.user {
        return Some(AccountOfOtherUser);
      }
      rows := rows + [t];
      return None;
    }
  }
}
