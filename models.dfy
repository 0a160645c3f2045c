/**
 * The value types shared by the services and view models: the cash-flow direction, the
 * currencies, the locally cached `Transaction`, the server's `TransactionResponse` with
 * its embedded `AccountBrief` and `Category`, and `BankAccount`.
 */
module Models {
  import opened Wrappers
  import opened Foundation

  /** `Direction`, whose raw values are "income" and "outcome". */
  datatype Direction = Income | Outcome

  function DirectionRawValue(d: Direction): string {
    match d
    case Income => "income"
    case Outcome => "outcome"
  }

  /** `Direction(rawValue:)`. */
  function DirectionFromRawValue(s: string): (r: Option<Direction>)
    ensures r.Some? ==> DirectionRawValue(r.value) == s
    ensures forall d :: DirectionRawValue(d) == s ==> r == Some(d)
  {
    if s == "income" then Some(Income) else if s == "outcome" then Some(Outcome) else None
  }

  /** `Currency`, whose raw values are the ISO codes. */
  datatype Currency = Rub | Usd | Eur

  function CurrencyRawValue(c: Currency): string {
    match c
    case Rub => "RUB"
    case Usd => "USD"
    case Eur => "EUR"
  }

  /** `Currency(rawValue:)`. */
  function CurrencyFromRawValue(s: string): (r: Option<Currency>)
    ensures r.Some? ==> CurrencyRawValue(r.value) == s
    ensures forall c :: CurrencyRawValue(c) == s ==> r == Some(c)
  {
    if s == "RUB" then Some(Rub) else if s == "USD" then Some(Usd) else if s == "EUR" then Some(Eur) else None
  }

  /** The transaction record of the file cache and the CSV/JSON codecs. */
  datatype Transaction = Transaction(
    id: Int64,
    accountId: Int64,
    categoryId: Int64,
    amount: Decimal,
    transactionDate: Date,
    comment: Option<string>,
    createdAt: Date,
    updatedAt: Date)

  /** `Category`; its `emoji` is a `Character`, here a single Unicode scalar. */
  datatype Category = Category(id: Int64, name: string, emoji: char, direction: Direction)

  datatype AccountBrief = AccountBrief(id: Int64, name: string, balance: string, currency: string)

  /** The transaction the server returns; amount and dates stay text. */
  datatype TransactionResponse = TransactionResponse(
    id: Int64,
    account: AccountBrief,
    category: Category,
    amount: string,
    transactionDate: string,
    comment: Option<string>,
    createdAt: string,
    updatedAt: string)

  datatype BankAccount = BankAccount(
    id: Int64,
    userId: Int64,
    name: string,
    balance: Decimal,
    currency: string,
    createdAt: Date,
    updatedAt: Date)
}
