/**
 * Swift's `Int(_: String)` and `String(_: Int)` in base 10: an optional sign followed by
 * at least one ASCII digit, rejected when the value does not fit a 64-bit `Int`.
 */
module IntText {
  import opened Wrappers
  import opened Foundation

  predicate IsDigit(c: char) {
    '0' <= c <= '9'
  }

  predicate AllDigits(s: string) {
    forall i :: 0 <= i < |s| ==> IsDigit(s[i])
  }

  function DigitChar(d: nat): (c: char)
    requires d < 10
    ensures IsDigit(c)
  {
    ('0' as int + d) as char
  }

  /** The value of a string of decimal digits, most significant digit first. */
  function DigitsValue(s: string): nat
    requires AllDigits(s)
  {
    if s == [] then 0 else DigitsValue(s[..|s| - 1]) * 10 + (s[|s| - 1] as int - '0' as int)
  }

  /** The digits of a natural number, without leading zeros. */
  function NatDigits(n: nat): (s: string)
    ensures s != [] && AllDigits(s)
  {
    if n < 10 then [DigitChar(n)] else NatDigits(n / 10) + [DigitChar(n % 10)]
  }

  /** `String(i)`. */
  function ShowInt(i: int): string {
    if i < 0 then "-" + NatDigits(-i) else NatDigits(i)
  }

  /** `Int(s)`: `None` unless `s` is a sign (optional) and one or more digits, in Int64 range. */
  function ParseInt(s: string): (r: Option<Int64>)
    ensures r.Some? ==> s != [] && AllDigits(if s[0] == '-' || s[0] == '+' then s[1..] else s)
  {
    var signed := |s| > 0 && (s[0] == '-' || s[0] == '+');
    var body := if signed then s[1..] else s;
    if body == [] || !AllDigits(body) then None
    else
      var v: int := if signed && s[0] == '-' then -(DigitsValue(body) as int) else DigitsValue(body);
      if INT64_MIN <= v <= INT64_MAX then Some(v) else None
  }

  lemma {:induction false} NatDigitsValue(n: nat)
    ensures DigitsValue(NatDigits(n)) == n
  {
    if n >= 10 {
      var s := NatDigits(n);
      assert s[..|s| - 1] == NatDigits(n / 10);
      NatDigitsValue(n / 10);
    }
  }

  /** `Int(String(i)) == i` for every 64-bit integer. */
  lemma ParseShowInt(i: Int64)
    ensures ParseInt(ShowInt(i)) == Some(i)
  {
    var s := ShowInt(i);
    if i < 0 {
      var n: nat := -(i as int);
      var d := NatDigits(n);
      NatDigitsValue(n);
      assert s == "-" + d;
      assert s[0] == '-' && s[1..] == d;
    } else {
      NatDigitsValue(i);
      assert s[0] != '-' && s[0] != '+';
    }
  }

  /** The text of an integer never contains a comma (it is safe inside a CSV field). */
  lemma ShowIntHasNoComma(i: int)
    ensures ',' !in ShowInt(i)
  {
    var s := if i < 0 then NatDigits(-i) else NatDigits(i);
    assert forall k :: 0 <= k < |s| ==> s[k] != ',';
  }
}
