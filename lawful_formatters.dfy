/**
 * Formatters that meet `Foundation.Lawful`: a decimal is written as its mantissa, an
 * "e" and its number of decimal places, and a date as its number of seconds. They are
 * not Foundation's formats; they show that the laws the round trips assume can all hold
 * at once, so the lemmas that require them are not vacuous.
 */
module LawfulFormatters {
  import opened Wrappers
  import opened Foundation
  import opened IntText
  import opened Seqs

  /** The characters `String(i)` writes: digits and a leading minus sign. */
  predicate IsIntChar(c: char) {
    c == '-' || IsDigit(c)
  }

  lemma ShowIntChars(i: int)
    ensures forall k :: 0 <= k < |ShowInt(i)| ==> IsIntChar(ShowInt(i)[k])
  {
    var d := if i < 0 then NatDigits(-i) else NatDigits(i);
    assert forall k :: 0 <= k < |d| ==> IsDigit(d[k]);
  }

  /** The integer a text of `ShowInt` spells, with no range check; other text reads as 0. */
  function ReadInt(s: string): int {
    if s != [] && s[0] == '-' && AllDigits(s[1..]) then -(DigitsValue(s[1..]) as int)
    else if AllDigits(s) then DigitsValue(s)
    else 0
  }

  function ReadNat(s: string): nat {
    if AllDigits(s) then DigitsValue(s) else 0
  }

  lemma ReadShowInt(i: int)
    ensures ReadInt(ShowInt(i)) == i
  {
    var s := ShowInt(i);
    if i < 0 {
      var d := NatDigits(-i);
      NatDigitsValue(-i);
      assert s == "-" + d && s[1..] == d;
    } else {
      NatDigitsValue(i);
      assert IsDigit(s[0]);
    }
  }

  /** A mantissa and a number of places that spell `x`. */
  ghost function Representation(x: real): (r: (int, nat))
    requires IsDecimal(x)
    ensures x == Scaled(r.0, r.1)
  {
    var m: int, e: nat :| x == Scaled(m, e);
    (m, e)
  }

  /** A decimal written as mantissa, "e" and number of places; any other value as the empty text. */
  ghost function Describe(x: real): string {
    if IsDecimal(x) then ShowInt(Representation(x).0) + "e" + NatDigits(Representation(x).1)
    else ""
  }

  predicate IsExponentMark(c: char) {
    c == 'e'
  }

  /** Read "mantissa e places" back; text without an "e" is not a decimal. */
  function ReadDecimal(s: string): (r: Option<real>)
    ensures r.Some? ==> IsDecimal(r.value)
  {
    match FirstIndex(s, IsExponentMark)
    case None => None
    case Some(k) =>
      var x := Scaled(ReadInt(s[..k]), ReadNat(s[k + 1..]));
      assert IsDecimal(x) by { assert x == Scaled(ReadInt(s[..k]), ReadNat(s[k + 1..])); }
      Some(x)
  }

  lemma ReadDescribe(x: real)
    requires IsDecimal(x)
    ensures ReadDecimal(Describe(x)) == Some(x)
  {
    var (m, e) := Representation(x);
    var mantissa := ShowInt(m);
    var s := mantissa + "e" + NatDigits(e);
    assert Describe(x) == s;
    ShowIntChars(m);
    assert forall j :: 0 <= j < |mantissa| ==> s[j] == mantissa[j];
    FirstIndexAt(s, IsExponentMark, |mantissa|);
    assert s[..|mantissa|] == mantissa;
    assert s[|mantissa| + 1..] == NatDigits(e);
    ReadShowInt(m);
    NatDigitsValue(e);
  }

  lemma DescribeHasNoComma(x: real)
    ensures ',' !in Describe(x)
  {
    if IsDecimal(x) {
      var (m, e) := Representation(x);
      var mantissa, places := ShowInt(m), NatDigits(e);
      assert Describe(x) == mantissa + "e" + places;
      ShowIntChars(m);
      assert forall k :: 0 <= k < |places| ==> IsDigit(places[k]);
      assert ',' !in mantissa && ',' !in places;
    }
  }

  ghost function Witness(): Formatters {
    Formatters(
      s => ReadDecimal(s),
      x => Describe(x),
      s => Some(ReadInt(s)),
      d => ShowInt(d),
      s => s)
  }

  /** Some formatters meet every law of `Lawful`. */
  lemma LawfulExists()
    ensures exists f :: Lawful(f)
  {
    var f := Witness();
    forall x: Decimal | IsDecimal(x)
      ensures f.decimalFromString(f.decimalDescription(x)) == Some(x)
    {
      ReadDescribe(x);
    }
    forall d: Date
      ensures f.isoDate(f.isoString(d)) == Some(d) && ',' !in f.isoString(d)
    {
      ReadShowInt(d);
      ShowIntHasNoComma(d);
    }
    forall x: Decimal
      ensures ',' !in f.decimalDescription(x)
    {
      DescribeHasNoComma(x);
    }
    assert Lawful(f);
  }
}
