/** `BalanceData`, one bar of the balance chart: the balance shown by magnitude and coloured by sign. */
module BalanceData {
  import opened Foundation

  /** A chart point; its `UUID` identity is not part of this model. */
  datatype BalanceData = BalanceData(date: Date, originalBalance: Decimal)

  /** `balance`: the magnitude of the original balance. */
  function Balance(b: BalanceData): (r: Decimal)
    ensures r >= 0.0
    ensures r == b.originalBalance || r == -b.originalBalance
  {
    Abs(b.originalBalance)
  }

  /** `isPositive`. */
  function IsPositive(b: BalanceData): bool {
    b.originalBalance >= 0.0
  }

  /** Zero counts as positive, and the original balance is recovered from the shown balance and its sign. */
  lemma BalanceAndSign(b: BalanceData)
    ensures IsPositive(b) ==> b.originalBalance == Balance(b)
    ensures !IsPositive(b) ==> b.originalBalance == -Balance(b) && Balance(b) > 0.0
    ensures b.originalBalance == 0.0 ==> IsPositive(b) && Balance(b) == 0.0
  {
  }
}
