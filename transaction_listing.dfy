/**
 * The list logic the two transaction screens share: `SortType`, the category lookup by id,
 * the filter by direction, the sort keys with their defaults, and the amount total.
 */
module TransactionListing {
  import opened Wrappers
  import opened Foundation
  import opened Models
  import opened Seqs

  /** `SortType`; the raw value is the menu title. */
  datatype SortType = DateAscending | DateDescending | AmountAscending | AmountDescending

  function SortTypeRawValue(s: SortType): string {
    match s
    case DateAscending => "Дата (сначала старые)"
    case DateDescending => "Дата (сначала новые)"
    case AmountAscending => "Сумма (по возрастанию)"
    case AmountDescending => "Сумма (по убыванию)"
  }

  /** The raw values, which are also the `id`s, tell the cases apart. */
  lemma SortTypeIdsDistinct(a: SortType, b: SortType)
    requires SortTypeRawValue(a) == SortTypeRawValue(b)
    ensures a == b
  {
  }

  /** `isDateSorting`. */
  predicate IsDateSorting(s: SortType) {
    s == DateAscending || s == DateDescending
  }

  predicate IsDescending(s: SortType) {
    s == DateDescending || s == AmountDescending
  }

  /** The date a transaction sorts by: its parsed date, or `Date.distantPast` when the text does not parse. */
  function DateKey(f: Formatters, t: TransactionResponse): (r: Date)
    ensures f.isoDate(t.transactionDate).Some? ==> r == f.isoDate(t.transactionDate).value
    ensures f.isoDate(t.transactionDate).None? ==> r == DISTANT_PAST
  {
    f.isoDate(t.transactionDate).GetOr(DISTANT_PAST)
  }

  /** The amount a transaction sorts and sums by: `Decimal(string:) ?? 0`. */
  function AmountKey(f: Formatters, t: TransactionResponse): Decimal {
    DecimalOrZero(f, t.amount)
  }

  function Key(f: Formatters, s: SortType, t: TransactionResponse): real {
    if IsDateSorting(s) then DateKey(f, t) as real else AmountKey(f, t)
  }

  /** `ts` is ordered by the key of `sortType`, ascending or descending as it says. */
  predicate InSortOrder(f: Formatters, s: SortType, ts: seq<TransactionResponse>) {
    SortedBy(ts, t => Key(f, s, t), IsDescending(s))
  }

  /** The list ordered for `sortType`: the same transactions, ordered by date or amount, ascending or descending. */
  function SortedFor(f: Formatters, s: SortType, ts: seq<TransactionResponse>): (r: seq<TransactionResponse>)
    ensures multiset(r) == multiset(ts)
    ensures InSortOrder(f, s, r)
  {
    SortBy(ts, t => Key(f, s, t), IsDescending(s))
  }

  predicate HasCategoryId(id: Int64, c: Category) {
    c.id == id
  }

  /** `category(for:)`: the first loaded category with the transaction's category id. */
  function LookupCategory(categories: seq<Category>, t: TransactionResponse): (r: Option<Category>)
    ensures r.Some? ==> r.value in categories && r.value.id == t.category.id
    ensures r.None? <==> forall c :: c in categories ==> c.id != t.category.id
    ensures r.Some? ==>
      exists i :: 0 <= i < |categories| && categories[i] == r.value && forall j :: 0 <= j < i ==> categories[j].id != t.category.id
  {
    var r := First(categories, c => HasCategoryId(t.category.id, c));
    assert r.None? <== forall c :: c in categories ==> c.id != t.category.id;
    r
  }

  /** The filter predicate: the transaction's category is known and has the selected direction. */
  predicate Kept(categories: seq<Category>, d: Direction, t: TransactionResponse) {
    match LookupCategory(categories, t)
    case Some(c) => c.direction == d
    case None => false
  }

  /** `filterTransactions`: the transactions of the selected direction, in their original order. */
  function ByDirection(categories: seq<Category>, d: Direction, ts: seq<TransactionResponse>): seq<TransactionResponse> {
    Filter(ts, t => Kept(categories, d, t))
  }

  /** The filtered list keeps a transaction exactly when its category is known and has the direction. */
  lemma ByDirectionMember(categories: seq<Category>, d: Direction, ts: seq<TransactionResponse>, t: TransactionResponse)
    ensures t in ByDirection(categories, d, ts) <==>
      t in ts && LookupCategory(categories, t).Some? && LookupCategory(categories, t).value.direction == d
  {
    FilterMember(ts, u => Kept(categories, d, u), t);
  }

  /** Every transaction lands in the income list, the outcome list, or (unknown category) neither. */
  lemma ByDirectionSplits(categories: seq<Category>, ts: seq<TransactionResponse>, t: TransactionResponse)
    requires t in ts
    ensures t in ByDirection(categories, Income, ts) || t in ByDirection(categories, Outcome, ts) <==>
      LookupCategory(categories, t).Some?
    ensures !(t in ByDirection(categories, Income, ts) && t in ByDirection(categories, Outcome, ts))
  {
    ByDirectionMember(categories, Income, ts, t);
    ByDirectionMember(categories, Outcome, ts, t);
  }

  /** `shown` holds the transactions of direction `d`, each as often as in `all`, ordered for `sortType`. */
  predicate Shows(f: Formatters, s: SortType, categories: seq<Category>, d: Direction,
                  all: seq<TransactionResponse>, shown: seq<TransactionResponse>) {
    && multiset(shown) == multiset(ByDirection(categories, d, all))
    && InSortOrder(f, s, shown)
  }

  /** `reduce(0) { $0 + (Decimal(string: $1.amount) ?? 0) }`. */
  function Total(f: Formatters, ts: seq<TransactionResponse>): Decimal {
    SumBy(ts, t => AmountKey(f, t))
  }

  /** Sorting does not change the total. */
  lemma SortedKeepsTotal(f: Formatters, s: SortType, ts: seq<TransactionResponse>)
    ensures Total(f, SortedFor(f, s, ts)) == Total(f, ts)
  {
    SumByPermutation(SortedFor(f, s, ts), ts, t => AmountKey(f, t));
  }

  /** Appending a transaction adds its amount, or nothing when the amount does not parse. */
  lemma TotalAppend(f: Formatters, ts: seq<TransactionResponse>, t: TransactionResponse)
    ensures Total(f, ts + [t]) == Total(f, ts) + AmountKey(f, t)
    ensures f.decimalFromString(t.amount).None? ==> Total(f, ts + [t]) == Total(f, ts)
  {
    SumByAppend(ts, [t], u => AmountKey(f, u));
    assert SumBy([t], u => AmountKey(f, u)) == AmountKey(f, t) + SumBy([], u => AmountKey(f, u));
  }
}
