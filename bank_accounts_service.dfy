/** `BankAccountsService`: an in-memory list of mock accounts, searched by user and updated by id. */
module BankAccountsService {
  import opened Wrappers
  import opened Foundation
  import opened Errors
  import opened Models
  import opened Seqs

  const ACCOUNT_NOT_FOUND: Error := NSError("Account not found", 404)
  const NO_ACCOUNTS: Error := NSError("No accounts available", 404)

  predicate HasUser(userId: Int64, a: BankAccount) {
    a.userId == userId
  }

  predicate HasId(id: Int64, a: BankAccount) {
    a.id == id
  }

  class BankAccountsService {
    var mockAccounts: seq<BankAccount>

    /** The service starts with one account of user 1, "Основной счёт", holding 10000 RUB, stamped `now`. */
    constructor (now: Date)
      ensures mockAccounts == [BankAccount(1, 1, "Основной счёт", 10000.0, "RUB", now, now)]
    {
      mockAccounts := [BankAccount(1, 1, "Основной счёт", 10000.0, "RUB", now, now)];
    }

    /** `getPrimaryAccount(for:)`: the first account of the user, or a 404 error when there is none. */
    function GetPrimaryAccount(userId: Int64): (r: Result<BankAccount, Error>)
      reads this
      ensures r.Success? ==> r.value.userId == userId
      ensures r.Success? ==>
        exists i :: 0 <= i < |mockAccounts| && mockAccounts[i] == r.value &&
          forall j :: 0 <= j < i ==> mockAccounts[j].userId != userId
      ensures r.Failure? <==> forall j :: 0 <= j < |mockAccounts| ==> mockAccounts[j].userId != userId
      ensures r.Failure? ==> r.error == NO_ACCOUNTS
    {
      match First(mockAccounts, a => HasUser(userId, a))
      case Some(a) => Success(a)
      case None => Failure(NO_ACCOUNTS)
    }

    /** `updateAccount(_:)`: the first account with the same id is replaced; an unknown id is a 404 error. */
    method UpdateAccount(account: BankAccount) returns (r: Outcome<Error>)
      modifies this
      ensures match FirstIndex(old(mockAccounts), a => HasId(account.id, a))
        case Some(i) => r == Pass && mockAccounts == old(mockAccounts)[i := account]
        case None => r == Fail(ACCOUNT_NOT_FOUND) && mockAccounts == old(mockAccounts)
    {
      match FirstIndex(mockAccounts, a => HasId(account.id, a)) {
        case Some(i) =>
          mockAccounts := mockAccounts[i := account];
          r := Pass;
        case None =>
          r := Fail(ACCOUNT_NOT_FOUND);
      }
    }
  }
}
