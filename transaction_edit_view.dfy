/**
 * `TransactionEditView`: the amount field keeps only digits and one decimal separator
 * followed by at most two characters, and the date and time pickers never let the time of
 * today's transaction pass the present moment.
 */
module TransactionEditView {
  import opened Wrappers
  import opened Foundation
  import opened Seqs
  import opened Calendar
  import opened TransactionEditViewModel

  predicate IsDigit(c: char) {
    '0' <= c <= '9'
  }

  /** The characters the amount field keeps: the ten digits and the separator. */
  predicate Allowed(separator: char, c: char) {
    IsDigit(c) || c == separator
  }

  /** `Locale.current.decimalSeparator ?? "."`, for a locale whose separator is one character. */
  function DecimalSeparator(localeSeparator: Option<char>): char {
    localeSeparator.GetOr('.')
  }

  /** `prefix(n)`. */
  function Prefix(s: string, n: nat): (r: string)
    ensures |r| <= n && r <= s
    ensures |s| <= n ==> r == s
    ensures |r| == if |s| <= n then |s| else n
  {
    if |s| <= n then s else s[..n]
  }

  /** The input with every character outside the allowed set removed. */
  function Sanitized(separator: char, input: string): (r: string)
    ensures forall k :: 0 <= k < |r| ==> Allowed(separator, r[k])
  {
    Filter(input, c => Allowed(separator, c))
  }

  /**
   * `formatAmountInput`: the allowed characters of the input; when a separator remains, the
   * text up to its first occurrence, the separator, and at most two characters after it.
   */
  function FormatAmountInput(separator: char, input: string): (r: string)
    ensures forall k :: 0 <= k < |r| ==> Allowed(separator, r[k])
  {
    var s := Sanitized(separator, input);
    match FirstIndex(s, c => c == separator)
    case None => s
    case Some(i) => s[..i] + [separator] + Prefix(s[i + 1..], 2)
  }

  /** Without a separator in the input, the field keeps exactly its digits, in order. */
  lemma WithoutSeparator(separator: char, input: string)
    requires separator !in input
    ensures FormatAmountInput(separator, input) == Filter(input, IsDigit)
  {
    FilterAgree(input, c => Allowed(separator, c), IsDigit);
    var s := Sanitized(separator, input);
    FilterMember(input, c => Allowed(separator, c), separator);
    assert separator !in s;
  }

  /**
   * Before the first separator the allowed characters are kept unchanged; after it at most
   * two of the following characters remain, in order.
   */
  lemma KeepsIntegerPart(separator: char, input: string, i: nat)
    requires i < |Sanitized(separator, input)| && Sanitized(separator, input)[i] == separator
    requires separator !in Sanitized(separator, input)[..i]
    ensures FormatAmountInput(separator, input)[..i] == Sanitized(separator, input)[..i]
    ensures FormatAmountInput(separator, input)[i] == separator
    ensures |FormatAmountInput(separator, input)| <= i + 3
    ensures FormatAmountInput(separator, input)[i + 1..] <= Sanitized(separator, input)[i + 1..]
  {
    var s := Sanitized(separator, input);
    var j := FirstIndex(s, c => c == separator);
    assert forall k :: 0 <= k < i ==> s[..i][k] == s[k];
    assert j == Some(i);
    var r := s[..i] + [separator] + Prefix(s[i + 1..], 2);
    assert r[i + 1..] == Prefix(s[i + 1..], 2);
  }

  /** A text made of allowed characters passes the filter unchanged. */
  lemma SanitizedKeepsAllowed(separator: char, s: string)
    requires forall k :: 0 <= k < |s| ==> Allowed(separator, s[k])
    ensures Sanitized(separator, s) == s
  {
    FilterAll(s, c => Allowed(separator, c));
  }

  /** Feeding the field's text back into the formatter, as its change observer does, changes nothing. */
  lemma FormatIsIdempotent(separator: char, input: string)
    ensures FormatAmountInput(separator, FormatAmountInput(separator, input)) == FormatAmountInput(separator, input)
  {
    var s := Sanitized(separator, input);
    var r := FormatAmountInput(separator, input);
    SanitizedKeepsAllowed(separator, r);
    match FirstIndex(s, c => c == separator) {
      case None =>
      case Some(i) =>
        var tail := Prefix(s[i + 1..], 2);
        assert r == s[..i] + [separator] + tail;
        assert r[i] == separator && r[..i] == s[..i] && r[i + 1..] == tail;
        assert forall k :: 0 <= k < i ==> r[k] == s[k];
        FirstIndexAt(r, c => c == separator, i);
    }
  }

  /**
   * The two characters kept after the first separator may include a second one, so the
   * field can hold "1..5", which is not a decimal number.
   */
  lemma SecondSeparatorSurvives()
    ensures FormatAmountInput('.', "1..55") == "1..5"
  {
    var s := Sanitized('.', "1..55");
    assert s == "1..55" by {
      SanitizedKeepsAllowed('.', "1..55");
    }
    assert FirstIndex(s, c => c == '.') == Some(1) by {
      assert s[1] == '.' && s[0] != '.';
    }
    assert s[2..] == ".55";
  }

  /** The date picker's binding: the new date is stored, and when it is today a time later than now is pulled back to now. */
  method PickDate(vm: TransactionEditViewModel, newDate: Date, now: Date)
    modifies vm
    ensures vm.date == newDate
    ensures vm.time == if SameDay(newDate, now) && old(vm.time) > now then now else old(vm.time)
    ensures SameDay(vm.date, now) ==> vm.time <= MaxAllowedTime(vm.date, now)
    ensures vm.availableCategories == old(vm.availableCategories) && vm.selectedCategory == old(vm.selectedCategory)
    ensures vm.amountText == old(vm.amountText) && vm.comment == old(vm.comment) && vm.saveSuccess == old(vm.saveSuccess)
    ensures vm.showValidationAlert == old(vm.showValidationAlert) && vm.validationMessage == old(vm.validationMessage)
  {
    vm.date := newDate;
    if SameDay(newDate, now) && vm.time > now {
      vm.time := now;
    }
  }

  /**
   * The date's change observer, which applies the same clamp to whatever date is stored;
   * after `PickDate` it has nothing left to do.
   */
  method DateChanged(vm: TransactionEditViewModel, now: Date)
    modifies vm
    ensures vm.time == if SameDay(vm.date, now) && old(vm.time) > now then now else old(vm.time)
    ensures SameDay(vm.date, now) ==> vm.time <= MaxAllowedTime(vm.date, now)
    ensures vm.date == old(vm.date)
    ensures vm.availableCategories == old(vm.availableCategories) && vm.selectedCategory == old(vm.selectedCategory)
    ensures vm.amountText == old(vm.amountText) && vm.comment == old(vm.comment) && vm.saveSuccess == old(vm.saveSuccess)
    ensures vm.showValidationAlert == old(vm.showValidationAlert) && vm.validationMessage == old(vm.validationMessage)
  {
    if SameDay(vm.date, now) && vm.time > now {
      vm.time := now;
    }
  }

  /** The time picker's binding: on today a time later than now becomes now, otherwise the pick is kept. */
  method PickTime(vm: TransactionEditViewModel, newTime: Date, now: Date)
    modifies vm
    ensures vm.time == if SameDay(vm.date, now) && newTime > now then now else newTime
    ensures SameDay(vm.date, now) ==> vm.time <= MaxAllowedTime(vm.date, now)
    ensures vm.date == old(vm.date)
    ensures vm.availableCategories == old(vm.availableCategories) && vm.selectedCategory == old(vm.selectedCategory)
    ensures vm.amountText == old(vm.amountText) && vm.comment == old(vm.comment) && vm.saveSuccess == old(vm.saveSuccess)
    ensures vm.showValidationAlert == old(vm.showValidationAlert) && vm.validationMessage == old(vm.validationMessage)
  {
    if SameDay(vm.date, now) && newTime > now {
      vm.time := now;
    } else {
      vm.time := newTime;
    }
  }

  /** The amount field's change observer stores the formatted text. */
  method ChangeAmountText(vm: TransactionEditViewModel, newValue: string, localeSeparator: Option<char>)
    modifies vm
    ensures vm.amountText == FormatAmountInput(DecimalSeparator(localeSeparator), newValue)
    ensures vm.date == old(vm.date) && vm.time == old(vm.time)
    ensures vm.availableCategories == old(vm.availableCategories) && vm.selectedCategory == old(vm.selectedCategory)
    ensures vm.comment == old(vm.comment) && vm.saveSuccess == old(vm.saveSuccess)
    ensures vm.showValidationAlert == old(vm.showValidationAlert) && vm.validationMessage == old(vm.validationMessage)
  {
    vm.amountText := FormatAmountInput(DecimalSeparator(localeSeparator), newValue);
  }
}
