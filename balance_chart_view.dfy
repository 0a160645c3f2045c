/**
 * `BalanceChartView`: which days of the balance chart carry a date label. The first and the
 * last point's days always do; any other day does when it lies a multiple of five days from
 * the first point.
 */
module BalanceChartView {
  import opened Foundation
  import opened Calendar
  import opened BalanceData

  /** Swift's `%` on `Int`, which truncates toward zero: the remainder takes the dividend's sign. */
  function TruncatedRemainder(a: int, b: int): (r: int)
    requires b > 0
    ensures a >= 0 ==> 0 <= r < b
    ensures a < 0 ==> -b < r <= 0
    ensures exists q: int :: a - r == q * b
  {
    if a >= 0 then
      assert a - a % b == (a / b) * b;
      a % b
    else
      assert a + (-a) % b == -((-a) / b) * b;
      -((-a) % b)
  }

  /** A negative count of days is a multiple of five exactly when its magnitude is. */
  lemma TruncatedRemainderZero(n: int)
    ensures TruncatedRemainder(n, 5) == 0 <==> n % 5 == 0
  {
    if n < 0 {
      var q, r := n / 5, n % 5;
      assert n == 5 * q + r;
      if r == 0 {
        assert -n == 5 * (-q);
      } else {
        assert -n == 5 * (-q - 1) + (5 - r);
      }
    }
  }

  /** `shouldShowDateLabel(for:)`. */
  function ShouldShowDateLabel(data: seq<BalanceData>, date: Date): (r: bool)
    ensures data == [] ==> !r
    ensures data != [] && (SameDay(date, data[0].date) || SameDay(date, data[|data| - 1].date)) ==> r
    ensures data != [] && !SameDay(date, data[0].date) && !SameDay(date, data[|data| - 1].date) ==>
      (r <==> DaysBetween(data[0].date, date) % 5 == 0)
  {
    if data == [] then false
    else
      var first, last := data[0].date, data[|data| - 1].date;
      if SameDay(date, first) || SameDay(date, last) then true
      else
        TruncatedRemainderZero(DaysBetween(first, date));
        TruncatedRemainder(DaysBetween(first, date), 5) == 0
  }

  /**
   * "First" and "last" are positions in the list, not the earliest and latest dates: in a
   * list that is not in date order, the latest day can go unlabelled.
   */
  lemma FirstAndLastArePositions()
    ensures !ShouldShowDateLabel([BalanceData(0, 1.0), BalanceData(7 * SECONDS_PER_DAY, 1.0),
                                  BalanceData(3 * SECONDS_PER_DAY, 1.0)], 7 * SECONDS_PER_DAY)
  {
    var data := [BalanceData(0, 1.0), BalanceData(7 * SECONDS_PER_DAY, 1.0), BalanceData(3 * SECONDS_PER_DAY, 1.0)];
    assert StartOfDay(7 * SECONDS_PER_DAY) == 7 * SECONDS_PER_DAY;
    assert StartOfDay(3 * SECONDS_PER_DAY) == 3 * SECONDS_PER_DAY;
    assert StartOfDay(0) == 0;
    assert DaysBetween(0, 7 * SECONDS_PER_DAY) == 7;
  }

  /** Points a whole number of five-day steps after the first are labelled. */
  lemma EveryFifthDay(data: seq<BalanceData>, k: nat)
    requires data != []
    ensures ShouldShowDateLabel(data, data[0].date + 5 * k * SECONDS_PER_DAY)
  {
    var first, date := data[0].date, data[0].date + 5 * k * SECONDS_PER_DAY;
    assert DaysBetween(first, date) == 5 * k;
  }
}
