/**
 * `SwiftDataBankAccountsStorage`: bank accounts kept in a SwiftData table of
 * `LocalBankAccount` records (id, name and balance text), in fetch order; an insert appends.
 */
module SwiftDataAccounts {
  import opened Wrappers
  import opened Foundation
  import opened Seqs

  /**
   * The account shape this storage exchanges: an optional user, the balance as text and
   * text timestamps (unlike `Models.BankAccount`).
   */
  datatype BankAccountDto = BankAccountDto(
    id: Int64, userId: Option<Int64>, name: string, balance: string, currency: string,
    createdAt: string, updatedAt: string)

  datatype LocalBankAccount = LocalBankAccount(id: Int64, name: string, balance: string)

  /** `toBankAccount()`: no user, currency "RUB" and empty timestamps. */
  function ToBankAccount(l: LocalBankAccount): (a: BankAccountDto)
    ensures a.id == l.id && a.name == l.name && a.balance == l.balance
    ensures a.userId == None && a.currency == "RUB" && a.createdAt == "" && a.updatedAt == ""
  {
    BankAccountDto(l.id, None, l.name, l.balance, "RUB", "", "")
  }

  /** `fromBankAccount(_:)`: only id, name and balance are kept. */
  function FromBankAccount(a: BankAccountDto): (l: LocalBankAccount)
    ensures l.id == a.id && l.name == a.name && l.balance == a.balance
  {
    LocalBankAccount(a.id, a.name, a.balance)
  }

  /** Converting back and forth returns the record unchanged, and an account up to its dropped fields. */
  lemma ConversionRoundTrips(l: LocalBankAccount, a: BankAccountDto)
    ensures FromBankAccount(ToBankAccount(l)) == l
    ensures ToBankAccount(FromBankAccount(a)) == a.(userId := None, currency := "RUB", createdAt := "", updatedAt := "")
  {
  }

  predicate HasId(id: Int64, l: LocalBankAccount) {
    l.id == id
  }

  class SwiftDataBankAccountsStorage {
    var records: seq<LocalBankAccount>

    constructor ()
      ensures records == []
    {
      records := [];
    }

    /** `getAllAccounts()`. */
    function GetAllAccounts(): (r: seq<BankAccountDto>)
      reads this
      ensures |r| == |records|
      ensures forall k :: 0 <= k < |r| ==> FromBankAccount(r[k]) == records[k]
    {
      Map(records, ToBankAccount)
    }

    /** `updateAccount(_:)`: the first record with the account's id takes its name and balance. */
    method UpdateAccount(a: BankAccountDto)
      modifies this
      ensures match FirstIndex(old(records), l => HasId(a.id, l))
        case Some(i) => records == old(records)[i := old(records)[i].(name := a.name, balance := a.balance)]
        case None => records == old(records)
    {
      match FirstIndex(records, l => HasId(a.id, l)) {
        case Some(i) => records := records[i := records[i].(name := a.name, balance := a.balance)];
        case None =>
      }
    }

    /** `createAccount(_:)`: insert the converted record. */
    method CreateAccount(a: BankAccountDto)
      modifies this
      ensures records == old(records) + [FromBankAccount(a)]
    {
      records := records + [FromBankAccount(a)];
    }

    /** `deleteAccount(id:)`: delete the first record with the id, if any. */
    method DeleteAccount(id: Int64)
      modifies this
      ensures match FirstIndex(old(records), l => HasId(id, l))
        case Some(i) => records == RemoveAt(old(records), i)
        case None => records == old(records)
    {
      match FirstIndex(records, l => HasId(id, l)) {
        case Some(i) => records := RemoveAt(records, i);
        case None =>
      }
    }
  }
}
