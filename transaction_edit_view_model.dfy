/**
 * `TransactionEditViewModel`: the state of the form that creates a transaction or edits an
 * existing one. The form is valid once a category is picked and the amount text parses;
 * saving signs the rounded amount by the category's direction and joins the day of `date`
 * with the hour and minute of `time`.
 */
module TransactionEditViewModel {
  import opened Wrappers
  import opened Foundation
  import opened Errors
  import opened Models
  import opened Seqs
  import opened Calendar

  /** `Mode`: a new transaction of a direction, or an existing transaction. */
  datatype Mode = Create(direction: Direction) | Edit(transaction: Transaction)

  /**
   * A call the form makes into the transactions list or the transactions service, in the
   * order it makes them: the list's `createTransaction`, `updateTransaction`,
   * `deleteTransaction(withId:)` and `loadTransactions`, and the service's
   * `updateTransaction` and `deleteTransaction(withId:)`.
   */
  datatype Call =
    | CreateInList(accountId: Int64, amount: Decimal, transactionDate: Date, categoryId: Int64, comment: Option<string>)
    | UpdateInList(transaction: Transaction)
    | DeleteInList(id: Int64)
    | ReloadList
    | UpdateOnServer(transaction: Transaction)
    | DeleteOnServer(id: Int64)

  const CHOOSE_CATEGORY: string := "Пожалуйста, выберите категорию"
  const ENTER_AMOUNT: string := "Пожалуйста, укажите сумму"
  const INVALID_AMOUNT: string := "Пожалуйста, введите корректную сумму"

  /** `transactionDirection`: an edited transaction is income exactly when its amount is positive. */
  function TransactionDirection(mode: Mode): (r: Direction)
    ensures mode.Edit? ==> (r == Income <==> mode.transaction.amount > 0.0)
    ensures mode.Create? ==> r == mode.direction
  {
    match mode
    case Edit(t) => if t.amount > 0.0 then Income else Outcome
    case Create(d) => d
  }

  /** `navigationTitle`. */
  function NavigationTitle(mode: Mode): (r: string)
    ensures r == "Мои доходы" <==> TransactionDirection(mode) == Income
  {
    match TransactionDirection(mode)
    case Income => "Мои доходы"
    case Outcome => "Мои расходы"
  }

  /** `isFormValid`: a category is picked and the amount text is present and parses. */
  predicate IsFormValid(f: Formatters, selected: Option<Category>, amountText: string) {
    selected.Some? && amountText != [] && f.decimalFromString(amountText).Some?
  }

  /** The message of the first check `validateFields` fails, in its order, or `None` when all pass. */
  function ValidationFailure(f: Formatters, selected: Option<Category>, amountText: string): (r: Option<string>)
    ensures selected.None? ==> r == Some(CHOOSE_CATEGORY)
    ensures selected.Some? && amountText == [] ==> r == Some(ENTER_AMOUNT)
    ensures selected.Some? && amountText != [] && f.decimalFromString(amountText).None? ==> r == Some(INVALID_AMOUNT)
    ensures selected.Some? && amountText != [] && f.decimalFromString(amountText).Some? ==> r == None
    ensures r.Some? ==> r.value in {CHOOSE_CATEGORY, ENTER_AMOUNT, INVALID_AMOUNT}
  {
    if selected.None? then Some(CHOOSE_CATEGORY)
    else if amountText == [] then Some(ENTER_AMOUNT)
    else if f.decimalFromString(amountText).None? then Some(INVALID_AMOUNT)
    else None
  }

  /** The button is enabled exactly when validation would pass. */
  lemma FormValidIffValidates(f: Formatters, selected: Option<Category>, amountText: string)
    ensures IsFormValid(f, selected, amountText) <==> ValidationFailure(f, selected, amountText).None?
  {
  }

  /**
   * The whole number of cents nearest to `x`, halves away from zero: the `.plain` rounding
   * mode of `NSDecimalRound`.
   */
  function CentsOf(x: Decimal): (n: int)
    ensures n as real - 0.5 <= x * 100.0 <= n as real + 0.5
    ensures x >= 0.0 ==> n >= 0
    ensures x <= 0.0 ==> n <= 0
  {
    if x >= 0.0 then (x * 100.0 + 0.5).Floor else -((-x) * 100.0 + 0.5).Floor
  }

  /** `Decimal.rounded(2)`: the nearest hundredth. */
  function RoundedToCents(x: Decimal): (r: Decimal)
    ensures r * 100.0 == CentsOf(x) as real
    ensures -0.005 <= r - x <= 0.005
    ensures x >= 0.0 ==> r >= 0.0
    ensures x <= 0.0 ==> r <= 0.0
  {
    CentsOf(x) as real / 100.0
  }

  /** Rounding is symmetric about zero. */
  lemma RoundedIsSymmetric(x: Decimal)
    ensures RoundedToCents(-x) == -RoundedToCents(x)
  {
    if x == 0.0 {
      assert (0.0 * 100.0 + 0.5).Floor == 0;
    }
  }

  /** An amount already in whole cents is kept as it is. */
  lemma RoundedKeepsCents(x: Decimal, n: int)
    requires x * 100.0 == n as real
    ensures RoundedToCents(x) == x
  {
    if x >= 0.0 {
      assert x * 100.0 + 0.5 == n as real + 0.5;
      assert (x * 100.0 + 0.5).Floor == n;
    } else {
      assert (-x) * 100.0 + 0.5 == (-n) as real + 0.5;
      assert ((-x) * 100.0 + 0.5).Floor == -n;
    }
  }

  /** Rounding twice rounds once. */
  lemma RoundedTwice(x: Decimal)
    ensures RoundedToCents(RoundedToCents(x)) == RoundedToCents(x)
  {
    RoundedKeepsCents(RoundedToCents(x), CentsOf(x));
  }

  /** The amount `save` sends: negated for an outcome category, kept for an income category. */
  function SignedAmount(direction: Direction, amount: Decimal): (r: Decimal)
    ensures Abs(r) == Abs(amount)
    ensures amount > 0.0 ==> (r > 0.0 <==> direction == Income)
    ensures amount > 0.0 ==> (r < 0.0 <==> direction == Outcome)
  {
    match direction
    case Outcome => -amount
    case Income => amount
  }

  /** The amount `save` derives from valid amount text and the picked category. */
  function SavedAmount(f: Formatters, category: Category, amountText: string): Decimal
    requires f.decimalFromString(amountText).Some?
  {
    SignedAmount(category.direction, RoundedToCents(f.decimalFromString(amountText).value))
  }

  /**
   * An amount that stays positive after rounding reopens in the direction of the category it
   * was saved under; one that rounds to zero reopens as an outcome.
   */
  lemma ReopensInCategoryDirection(t: Transaction, f: Formatters, category: Category, amountText: string)
    requires f.decimalFromString(amountText).Some?
    requires t.amount == SavedAmount(f, category, amountText)
    ensures RoundedToCents(f.decimalFromString(amountText).value) > 0.0 ==>
      TransactionDirection(Edit(t)) == category.direction
    ensures RoundedToCents(f.decimalFromString(amountText).value) == 0.0 ==>
      TransactionDirection(Edit(t)) == Outcome
  {
  }

  /**
   * The transaction date `save` sends: the day of `date` at the hour and minute of `time`,
   * with seconds set to zero.
   */
  function CombinedDate(date: Date, time: Date): (r: Date)
    ensures SameDay(r, date)
    ensures SecondOfDay(r) == SecondOfDay(time) - SecondOfDay(time) % 60
  {
    var s := SecondOfDay(time);
    var hour, minute := s / 3600, s % 3600 / 60;
    HourAndMinute(s);
    AtTime(date, hour, minute, 0)
  }

  lemma HourAndMinute(s: int)
    requires 0 <= s < SECONDS_PER_DAY
    ensures 0 <= s / 3600 < 24 && 0 <= s % 3600 / 60 < 60
    ensures s / 3600 * 3600 + s % 3600 / 60 * 60 == s - s % 60
  {
    var h, rest := s / 3600, s % 3600;
    assert s == h * 3600 + rest;
    var m, sec := rest / 60, rest % 60;
    assert rest == m * 60 + sec;
    assert s == (h * 60 + m) * 60 + sec;
    assert s % 60 == sec;
  }

  /** The date the form saves lies on its picked day and keeps the picked time to the minute. */
  lemma CombinedDateFacts(date: Date, time: Date)
    ensures StartOfDay(CombinedDate(date, time)) == StartOfDay(date)
    ensures SecondOfDay(CombinedDate(date, time)) / 60 == SecondOfDay(time) / 60
    ensures CombinedDate(date, time) % 60 == 0
  {
    var r, s := CombinedDate(date, time), SecondOfDay(time);
    var q := s / 60;
    assert s == q * 60 + s % 60;
    assert SecondOfDay(r) == q * 60;
    assert StartOfDay(r) % SECONDS_PER_DAY == 0;
    var k := StartOfDay(r) / SECONDS_PER_DAY;
    assert StartOfDay(r) == k * SECONDS_PER_DAY;
    assert r == k * 1440 * 60 + q * 60;
    assert r == (k * 1440 + q) * 60;
  }

  /** `maxAllowedTime`: now on today, otherwise the last second of the picked day. */
  function MaxAllowedTime(date: Date, now: Date): (r: Date)
    ensures SameDay(date, now) ==> r == now
    ensures !SameDay(date, now) ==> SameDay(r, date) && forall x :: SameDay(x, date) ==> x <= r
  {
    if SameDay(date, now) then now else EndOfDay(date)
  }

  /** The transaction an edit saves: the original's identity and creation date, the form's other values. */
  function Edited(t: Transaction, categoryId: Int64, amount: Decimal, date: Date, comment: string, now: Date): Transaction {
    Transaction(t.id, t.accountId, categoryId, amount, date, if comment == [] then None else Some(comment), t.createdAt, now)
  }

  /**
   * `delete`: nothing in create mode. In edit mode the entry leaves the list first, then the
   * server delete runs; its success reloads the list and its failure creates the transaction
   * again in the list with its original fields.
   */
  function DeleteCalls(mode: Mode, serverDelete: Outcome<Error>): (r: seq<Call>)
    ensures mode.Create? ==> r == []
    ensures mode.Edit? ==> |r| == 3 && r[0] == DeleteInList(mode.transaction.id) && r[1] == DeleteOnServer(mode.transaction.id)
    ensures mode.Edit? && serverDelete.Pass? ==> r[2] == ReloadList
    ensures mode.Edit? && serverDelete.Fail? ==> Recreates(r[2], mode.transaction)
  {
    match mode
    case Create(_) => []
    case Edit(t) =>
      [DeleteInList(t.id), DeleteOnServer(t.id)] +
        match serverDelete
        case Pass => [ReloadList]
        case Fail(_) => [CreateInList(t.accountId, t.amount, t.transactionDate, t.categoryId, t.comment)]
  }

  /** A list creation that carries every field of `t` the list's creation takes. */
  predicate Recreates(c: Call, t: Transaction) {
    && c.CreateInList?
    && c.accountId == t.accountId && c.amount == t.amount && c.transactionDate == t.transactionDate
    && c.categoryId == t.categoryId && c.comment == t.comment
  }

  class TransactionEditViewModel {
    const mode: Mode
    const formatters: Formatters
    var availableCategories: seq<Category>
    var selectedCategory: Option<Category>
    var amountText: string
    var date: Date
    var time: Date
    var comment: string
    var saveSuccess: bool
    var showValidationAlert: bool
    var validationMessage: string

    /** An edit starts at the transaction's date and comment; a creation at `now`. */
    constructor (m: Mode, f: Formatters, now: Date)
      ensures mode == m && formatters == f
      ensures availableCategories == [] && selectedCategory == None && amountText == []
      ensures m.Create? ==> date == now && time == now && comment == []
      ensures m.Edit? ==>
        date == m.transaction.transactionDate && time == m.transaction.transactionDate &&
        comment == m.transaction.comment.GetOr([])
      ensures !saveSuccess && !showValidationAlert && validationMessage == []
    {
      mode := m;
      formatters := f;
      availableCategories := [];
      selectedCategory := None;
      amountText := [];
      date := now;
      time := now;
      comment := [];
      saveSuccess := false;
      showValidationAlert := false;
      validationMessage := [];
      if m.Edit? {
        date := m.transaction.transactionDate;
        time := m.transaction.transactionDate;
        comment := m.transaction.comment.GetOr([]);
      }
    }

    /** `isFormValid`. */
    predicate FormValid()
      reads this
    {
      IsFormValid(formatters, selectedCategory, amountText)
    }

    /**
     * `loadData`: the categories of the form's direction; in edit mode the transaction's
     * category is picked and its absolute amount shown through `amountFormat`. A failed
     * fetch changes nothing.
     */
    method LoadData(fetched: Result<seq<Category>, Error>, amountFormat: Decimal -> string)
      modifies this
      ensures fetched.Failure? ==> unchanged(this)
      ensures fetched.Success? ==> availableCategories == fetched.value
      ensures fetched.Success? && mode.Edit? ==>
        selectedCategory == First(fetched.value, (c: Category) => c.id == mode.transaction.categoryId) &&
        amountText == amountFormat(Abs(mode.transaction.amount))
      ensures fetched.Success? && mode.Create? ==>
        selectedCategory == old(selectedCategory) && amountText == old(amountText)
      ensures date == old(date) && time == old(time) && comment == old(comment) && saveSuccess == old(saveSuccess)
      ensures showValidationAlert == old(showValidationAlert) && validationMessage == old(validationMessage)
    {
      match fetched {
        case Success(cs) =>
          availableCategories := cs;
          if mode.Edit? {
            var id := mode.transaction.categoryId;
            selectedCategory := First(cs, (c: Category) => c.id == id);
            amountText := amountFormat(Abs(mode.transaction.amount));
          }
        case Failure(_) =>
      }
    }

    /** `validateFields`: the first failing check sets its message and raises the alert. */
    method ValidateFields() returns (ok: bool)
      modifies this
      ensures ok <==> old(FormValid())
      ensures !ok ==>
        showValidationAlert && Some(validationMessage) == ValidationFailure(formatters, selectedCategory, amountText)
      ensures ok ==> showValidationAlert == old(showValidationAlert) && validationMessage == old(validationMessage)
      ensures availableCategories == old(availableCategories) && selectedCategory == old(selectedCategory)
      ensures amountText == old(amountText) && date == old(date) && time == old(time)
      ensures comment == old(comment) && saveSuccess == old(saveSuccess)
    {
      if selectedCategory.None? {
        validationMessage := CHOOSE_CATEGORY;
        showValidationAlert := true;
        return false;
      }
      if amountText == [] {
        validationMessage := ENTER_AMOUNT;
        showValidationAlert := true;
        return false;
      }
      if formatters.decimalFromString(amountText).None? {
        validationMessage := INVALID_AMOUNT;
        showValidationAlert := true;
        return false;
      }
      return true;
    }

    /**
     * `save`: stops at the first failed check. Otherwise a creation asks for the primary
     * account and hands the new transaction to the list; an edit updates the server and, when
     * that succeeds, the list. Whatever the calls do, `saveSuccess` then flips, and `onSave`
     * runs when it became true.
     */
    method Save(primaryAccount: Result<Int64, Error>, serverUpdate: Outcome<Error>, now: Date)
      returns (calls: seq<Call>, onSaveCalled: bool)
      modifies this
      ensures !old(FormValid()) ==> calls == [] && !onSaveCalled && saveSuccess == old(saveSuccess) && showValidationAlert
      ensures !old(FormValid()) ==> Some(validationMessage) == ValidationFailure(formatters, selectedCategory, amountText)
      ensures old(FormValid()) ==> showValidationAlert == old(showValidationAlert) && validationMessage == old(validationMessage)
      ensures old(FormValid()) ==> saveSuccess == !old(saveSuccess) && onSaveCalled == saveSuccess
      ensures FormValid() && mode.Create? ==>
        calls == match primaryAccount
          case Success(id) =>
            [CreateInList(id, SavedAmount(formatters, selectedCategory.value, amountText), CombinedDate(date, time),
                          selectedCategory.value.id, Some(comment))]
          case Failure(_) => []
      ensures FormValid() && mode.Edit? ==>
        var u := Edited(mode.transaction, selectedCategory.value.id,
                        SavedAmount(formatters, selectedCategory.value, amountText), CombinedDate(date, time), comment, now);
        calls == [UpdateOnServer(u)] + if serverUpdate.Pass? then [UpdateInList(u)] else []
      ensures availableCategories == old(availableCategories) && selectedCategory == old(selectedCategory)
      ensures amountText == old(amountText) && date == old(date) && time == old(time) && comment == old(comment)
    {
      var valid := ValidateFields();
      if !valid {
        return [], false;
      }
      var category := selectedCategory.value;
      var amount := RoundedToCents(formatters.decimalFromString(amountText).value);
      var finalAmount := SignedAmount(category.direction, amount);
      var transactionDate := CombinedDate(date, time);
      calls := [];
      match mode {
        case Create(_) =>
          match primaryAccount {
            case Success(accountId) =>
              calls := [CreateInList(accountId, finalAmount, transactionDate, category.id, Some(comment))];
            case Failure(_) =>
          }
        case Edit(t) =>
          var updated := Edited(t, category.id, finalAmount, transactionDate, comment, now);
          calls := [UpdateOnServer(updated)];
          if serverUpdate.Pass? {
            calls := calls + [UpdateInList(updated)];
          }
      }
      saveSuccess := !saveSuccess;
      onSaveCalled := saveSuccess;
    }

    /** `delete`, which leaves the form's own state alone. */
    method Delete(serverDelete: Outcome<Error>) returns (calls: seq<Call>)
      ensures calls == DeleteCalls(mode, serverDelete)
    {
      match mode {
        case Create(_) =>
          return [];
        case Edit(t) =>
          calls := [DeleteInList(t.id), DeleteOnServer(t.id)];
          match serverDelete {
            case Pass =>
              calls := calls + [ReloadList];
            case Fail(_) =>
              calls := calls + [CreateInList(t.accountId, t.amount, t.transactionDate, t.categoryId, t.comment)];
          }
      }
    }
  }
}
