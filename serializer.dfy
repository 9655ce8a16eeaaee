/** `TransactionSerializer.validate`: the request user must own the category and
    the account the submitted data names. */
module TransactionSerializer {
  import opened Wrappers
  import opened Ledger
  import opened TransactionModel

  /** Validated input. `category` and `account` are `None` when their key is
      absent (a partial update); the other fields pass through untouched. */
  datatype TxData = TxData(category: Option<Category>, account: Option<Account>, fields: map<string, string>)

  datatype ValidationError = CategoryNotOwned | AccountNotOwned

  /** The category, if given, belongs to `user`. */
  predicate CategoryAllowed(data: TxData, user: UserId) {
    data.category.Some? ==> data.category.value.user == user
  }

  /** The account, if given, belongs to `user`. */
  predicate AccountAllowed(data: TxData, user: UserId) {
    data.account.Some? ==> data.account.value.user == user
  }

  function Validate(data: TxData, user: UserId): (r: Result<TxData, ValidationError>)
    ensures r.Ok? ==> r.value == data
    ensures r.Ok? <==> CategoryAllowed(data, user) && AccountAllowed(data, user)
    ensures r == Err(CategoryNotOwned) <==> !CategoryAllowed(data, user)
    ensures r == Err(AccountNotOwned) <==> CategoryAllowed(data, user) && !AccountAllowed(data, user)
  {
    if data.category.Some? && data.category.value.user != user then Err(CategoryNotOwned)
    else if data.account.Some? && data.account.value.user != user then Err(AccountNotOwned)
    else Ok(data)
  }

  /** For a full submission, validation and the model's `save` guards agree: both
      accept the same records, and both report the category first. */
  lemma ValidateAgreesWithSave(data: TxData, t: Transaction)
    requires data.category == Some(t.category) && data.account == Some(t.account)
    ensures Validate(data, t.user).Ok? <==> SaveGuard(t).None?
    ensures Validate(data, t.user) == Err(CategoryNotOwned) <==> SaveGuard(t) == Some(CategoryOfOtherUser)
    ensures Validate(data, t.user) == Err(AccountNotOwned) <==> SaveGuard(t) == Some(AccountOfOtherUser)
  {
  }
}
