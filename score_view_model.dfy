/**
 * `ScoreViewModel`: the balance screen. Loading adopts the first account's balance, and its
 * currency on the first load only; editing saves a new balance when it parses and differs
 * from the last saved one.
 */
module ScoreViewModel {
  import opened Wrappers
  import opened Foundation
  import opened Errors
  import opened Models

  /** `currencySymbol`. */
  function CurrencySymbol(c: Currency): (r: string)
    ensures |r| == 1
    ensures c == Rub <==> r == "₽"
    ensures c == Usd <==> r == "$"
    ensures c == Eur <==> r == "€"
  {
    match c
    case Rub => "₽"
    case Usd => "$"
    case Eur => "€"
  }

  /** Each currency has its own symbol. */
  lemma CurrencySymbolsDistinct(a: Currency, b: Currency)
    requires CurrencySymbol(a) == CurrencySymbol(b)
    ensures a == b
  {
  }

  /** `replacingOccurrences(of: ",", with: ".")`. */
  function CommasToDots(s: string): (r: string)
    ensures |r| == |s|
    ensures forall k :: 0 <= k < |s| ==> r[k] == if s[k] == ',' then '.' else s[k]
  {
    if s == [] then [] else [if s[0] == ',' then '.' else s[0]] + CommasToDots(s[1..])
  }

  /** No comma survives, and text without a comma is left alone. */
  lemma {:induction false} CommasToDotsFacts(s: string)
    ensures ',' !in CommasToDots(s)
    ensures ',' !in s ==> CommasToDots(s) == s
  {
    var r := CommasToDots(s);
    if ',' !in s {
      assert forall k :: 0 <= k < |s| ==> r[k] == s[k];
    }
  }

  /** The balance the text of an account gives: `Decimal(string:)`, or 0 when it does not parse. */
  function LoadedBalance(f: Formatters, account: AccountBrief): (r: Decimal)
    ensures f.decimalFromString(account.balance).None? ==> r == 0.0
    ensures f.decimalFromString(account.balance).Some? ==> r == f.decimalFromString(account.balance).value
  {
    DecimalOrZero(f, account.balance)
  }

  class ScoreViewModel {
    var balance: Decimal
    var balanceString: string
    var originalBalance: Decimal
    var isInitialLoad: bool
    var errorMessage: Option<string>
    /** The currency the screen's `CurrencyService` holds. */
    var currency: Currency
    const formatters: Formatters
    /** The `NumberFormatter` of `updateBalanceString`: grouping by spaces, a comma, at most two fraction digits. */
    const balanceFormat: Decimal -> string

    constructor (f: Formatters, format: Decimal -> string, initialCurrency: Currency)
      ensures formatters == f && balanceFormat == format && currency == initialCurrency
      ensures balance == 0.0 && originalBalance == 0.0 && balanceString == [] && isInitialLoad && errorMessage == None
    {
      formatters := f;
      balanceFormat := format;
      currency := initialCurrency;
      balance := 0.0;
      originalBalance := 0.0;
      balanceString := [];
      isInitialLoad := true;
      errorMessage := None;
    }

    /**
     * `loadAccount`: the first account's balance becomes both the shown and the saved
     * balance (0 when its text does not parse); the account's currency is adopted only while
     * `isInitialLoad` is set, which the first load clears. A failed fetch keeps its
     * description as the message; an empty list changes nothing.
     */
    method LoadAccount(fetched: Result<seq<AccountBrief>, Error>, describe: Error -> string)
      modifies this
      ensures fetched.Failure? ==>
        errorMessage == Some(describe(fetched.error)) && balance == old(balance) &&
        originalBalance == old(originalBalance) && isInitialLoad == old(isInitialLoad) &&
        currency == old(currency) && balanceString == old(balanceString)
      ensures fetched.Success? && fetched.value == [] ==> unchanged(this)
      ensures fetched.Success? && fetched.value != [] ==>
        var account := fetched.value[0];
        && balance == LoadedBalance(formatters, account) && originalBalance == balance
        && !isInitialLoad
        && currency == (if old(isInitialLoad) then CurrencyFromRawValue(account.currency).GetOr(old(currency)) else old(currency))
        && balanceString == balanceFormat(balance) && errorMessage == old(errorMessage)
    {
      match fetched {
        case Failure(e) =>
          errorMessage := Some(describe(e));
        case Success(accounts) =>
          if accounts == [] {
            return;
          }
          var account := accounts[0];
          match formatters.decimalFromString(account.balance) {
            case Some(d) =>
              balance := d;
              originalBalance := d;
            case None =>
              balance := 0.0;
              originalBalance := 0.0;
          }
          if isInitialLoad {
            match CurrencyFromRawValue(account.currency) {
              case Some(c) => currency := c;
              case None =>
            }
            isInitialLoad := false;
          }
          balanceString := balanceFormat(balance);
      }
    }

    /**
     * `saveChanges(balanceString:)`: commas become dots before parsing. Text that does not
     * parse, or a value equal to the saved balance, changes nothing. Otherwise the shown
     * balance changes at once; the saved balance and its text follow only once the first
     * account is found and its update succeeds, which the result reports by the account's id.
     */
    method SaveChanges(text: string, fetched: Result<seq<AccountBrief>, Error>, updated: Outcome<Error>)
      returns (updatedAccount: Option<Int64>)
      modifies this
      ensures formatters.decimalFromString(CommasToDots(text)).None? ==> unchanged(this) && updatedAccount == None
      ensures formatters.decimalFromString(CommasToDots(text)) == Some(old(originalBalance)) ==>
        unchanged(this) && updatedAccount == None
      ensures formatters.decimalFromString(CommasToDots(text)).Some? && formatters.decimalFromString(CommasToDots(text)).value != old(originalBalance) ==>
        && balance == formatters.decimalFromString(CommasToDots(text)).value
        && (updatedAccount.Some? <==> fetched.Success? && fetched.value != [] && updated.Pass?)
        && (updatedAccount.Some? ==>
              updatedAccount.value == fetched.value[0].id && originalBalance == balance &&
              balanceString == balanceFormat(balance))
        && (updatedAccount.None? ==> originalBalance == old(originalBalance) && balanceString == old(balanceString))
      ensures isInitialLoad == old(isInitialLoad) && currency == old(currency) && errorMessage == old(errorMessage)
    {
      var cleaned := CommasToDots(text);
      match formatters.decimalFromString(cleaned) {
        case None =>
          return None;
        case Some(newBalance) =>
          if newBalance == originalBalance {
            return None;
          }
          balance := newBalance;
          updatedAccount := None;
          if fetched.Success? && fetched.value != [] && updated.Pass? {
            updatedAccount := Some(fetched.value[0].id);
            originalBalance := balance;
            balanceString := balanceFormat(balance);
          }
      }
    }
  }
}
