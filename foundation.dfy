/**
 * The Foundation services the app relies on but that are not part of this model.
 * Each is a parameter of the operations that use it, bundled in `Formatters`; the laws
 * the properties need are stated once, in `Lawful`, and appear as preconditions of
 * the lemmas that need them.
 */
module Foundation {
  import opened Wrappers

  /** Bounds of Swift's 64-bit `Int`. */
  const INT64_MIN: int := -0x8000_0000_0000_0000
  const INT64_MAX: int := 0x7FFF_FFFF_FFFF_FFFF

  /** Swift's `Int` on a 64-bit platform. */
  type Int64 = x: int | INT64_MIN <= x <= INT64_MAX

  /** A `Date`, as whole seconds since the reference date. */
  type Date = int

  /** An exact `Decimal` value. */
  type Decimal = real

  /**
   * `Date.distantPast`: a date earlier than any date an application produces. Only its use
   * as the default sort key matters here; its exact value is that of Foundation
   * (January 1st, year 1, in seconds since January 1st, 2001).
   */
  const DISTANT_PAST: Date := -63_114_076_800

  /** `abs` on `Decimal`. */
  function Abs(x: Decimal): (r: Decimal)
    ensures r >= 0.0
    ensures r == x || r == -x
  {
    if x < 0.0 then -x else x
  }

  /** The `Decimal` text every amount parser falls back to: `Decimal(string:) ?? 0`. */
  function DecimalOrZero(f: Formatters, s: string): Decimal {
    f.decimalFromString(s).GetOr(0.0)
  }

  /**
   * The Foundation text conversions:
   * `Decimal(string:)`, `Decimal.description`, `ISO8601DateFormatter().date(from:)`,
   * `ISO8601DateFormatter().string(from:)` and `String.lowercased()`.
   */
  datatype Formatters = Formatters(
    decimalFromString: string -> Option<Decimal>,
    decimalDescription: Decimal -> string,
    isoDate: string -> Option<Date>,
    isoString: Date -> string,
    lowercased: string -> string)

  /** `10` to the power `e`. */
  function Pow10(e: nat): (r: nat)
    ensures r > 0
  {
    if e == 0 then 1 else 10 * Pow10(e - 1)
  }

  /** The value of `m` scaled down by `e` decimal places. */
  function Scaled(m: int, e: nat): real {
    m as real / Pow10(e) as real
  }

  /**
   * The values a Foundation `Decimal` holds: finite decimal fractions, an integer
   * mantissa scaled by a power of ten (so 1/3, say, is not one of them).
   */
  ghost predicate IsDecimal(x: real) {
    exists m: int, e: nat :: x == Scaled(m, e)
  }

  /**
   * The laws that the round-trip properties rely on. Every decimal's description parses back
   * to it, and what parses is a decimal. A formatted date parses back to it (dates are whole
   * seconds here). Neither kind of text contains a comma. `LawfulFormatters.LawfulExists`
   * shows that some formatters meet all of them.
   */
  ghost predicate Lawful(f: Formatters) {
    && (forall x: Decimal :: IsDecimal(x) ==> f.decimalFromString(f.decimalDescription(x)) == Some(x))
    && (forall s :: f.decimalFromString(s).Some? ==> IsDecimal(f.decimalFromString(s).value))
    && (forall d: Date :: f.isoDate(f.isoString(d)) == Some(d))
    && (forall x: Decimal :: ',' !in f.decimalDescription(x))
    && (forall d: Date :: ',' !in f.isoString(d))
  }
}
