/**
 * The statistics of the analysis screen: its period filter, the per-category aggregation
 * of absolute amounts and latest dates, the category and transaction tables ordered for
 * the sort type, and the signed total row.
 */
module AnalysisStats {
  import opened Wrappers
  import opened Foundation
  import opened Models
  import opened Seqs
  import opened TransactionListing

  predicate InCategory(id: Int64, t: Transaction) {
    t.categoryId == id
  }

  function AbsAmount(t: Transaction): Decimal {
    Abs(t.amount)
  }

  function SignedAmount(t: Transaction): Decimal {
    t.amount
  }

  /** `reduce(0) { $0 + abs($1.amount) }`. */
  function AbsoluteTotal(ts: seq<Transaction>): Decimal {
    SumBy(ts, AbsAmount)
  }

  /** `categories.first(where: { $0.id == categoryId })`. */
  function CategoryById(categories: seq<Category>, id: Int64): (r: Option<Category>)
    ensures r.Some? ==> r.value in categories && r.value.id == id
    ensures r.None? <==> forall c :: c in categories ==> c.id != id
  {
    var r := First(categories, c => HasCategoryId(id, c));
    assert r.None? <== forall c :: c in categories ==> c.id != id;
    r
  }

  /**
   * The filter of `getFilteredTransactions`: the transaction's category is known and has
   * direction `d`, and its date lies in `start...end`, both ends included.
   */
  predicate InAnalysisPeriod(categories: seq<Category>, d: Direction, start: Date, end: Date, t: Transaction) {
    && CategoryById(categories, t.categoryId).Some?
    && CategoryById(categories, t.categoryId).value.direction == d
    && start <= t.transactionDate <= end
  }

  function FilteredForPeriod(categories: seq<Category>, d: Direction, start: Date, end: Date, ts: seq<Transaction>): seq<Transaction> {
    Filter(ts, t => InAnalysisPeriod(categories, d, start, end, t))
  }

  lemma FilteredForPeriodMember(categories: seq<Category>, d: Direction, start: Date, end: Date, ts: seq<Transaction>, t: Transaction)
    ensures t in FilteredForPeriod(categories, d, start, end, ts) <==>
      t in ts && CategoryById(categories, t.categoryId).Some? &&
      CategoryById(categories, t.categoryId).value.direction == d && start <= t.transactionDate <= end
  {
    FilterMember(ts, u => InAnalysisPeriod(categories, d, start, end, u), t);
  }

  /** What the aggregation keeps per category id: the sum of absolute amounts and the latest date. */
  datatype CategoryTotals = CategoryTotals(amount: Decimal, latestDate: Date)

  /** One pass of the aggregation loop: the transaction's amount and date folded into its category's entry. */
  function Merge(m: map<Int64, CategoryTotals>, t: Transaction): map<Int64, CategoryTotals> {
    if t.categoryId in m then
      var existing := m[t.categoryId];
      var latestDate := if t.transactionDate > existing.latestDate then t.transactionDate else existing.latestDate;
      m[t.categoryId := CategoryTotals(existing.amount + Abs(t.amount), latestDate)]
    else
      m[t.categoryId := CategoryTotals(Abs(t.amount), t.transactionDate)]
  }

  /** The dictionary after the loop has seen every transaction of `ts`, in order. */
  function Aggregate(ts: seq<Transaction>): map<Int64, CategoryTotals>
    decreases |ts|
  {
    if ts == [] then map[] else Merge(Aggregate(ts[..|ts| - 1]), ts[|ts| - 1])
  }

  /** The dictionary's keys in the order they were first added, standing for its iteration order. */
  function Ids(ts: seq<Transaction>): seq<Int64>
    decreases |ts|
  {
    if ts == [] then []
    else
      var ids := Ids(ts[..|ts| - 1]);
      if ts[|ts| - 1].categoryId in ids then ids else ids + [ts[|ts| - 1].categoryId]
  }

  predicate Distinct(ids: seq<Int64>) {
    forall i, j :: 0 <= i < j < |ids| ==> ids[i] != ids[j]
  }

  /** The key list holds each category id of `ts` once, and exactly the dictionary's keys. */
  lemma {:induction false} IdsAreKeys(ts: seq<Transaction>)
    ensures Distinct(Ids(ts))
    ensures forall id :: id in Ids(ts) <==> id in Aggregate(ts)
    ensures forall id :: id in Ids(ts) <==> exists k :: 0 <= k < |ts| && ts[k].categoryId == id
    decreases |ts|
  {
    if ts != [] {
      var init, t := ts[..|ts| - 1], ts[|ts| - 1];
      IdsAreKeys(init);
      forall id
        ensures id in Ids(ts) <==> exists k :: 0 <= k < |ts| && ts[k].categoryId == id
      {
        if exists k :: 0 <= k < |ts| && ts[k].categoryId == id {
          var k :| 0 <= k < |ts| && ts[k].categoryId == id;
          if k < |init| {
            assert init[k] == ts[k];
          }
        }
        if exists k :: 0 <= k < |init| && init[k].categoryId == id {
          var k :| 0 <= k < |init| && init[k].categoryId == id;
          assert ts[k] == init[k];
        }
      }
    }
  }

  /** Splitting off the last transaction of a filtered list. */
  lemma FilterSnoc(init: seq<Transaction>, t: Transaction, id: Int64)
    ensures Filter(init + [t], u => InCategory(id, u)) ==
      Filter(init, u => InCategory(id, u)) + (if t.categoryId == id then [t] else [])
    ensures SumBy(Filter(init + [t], u => InCategory(id, u)), AbsAmount) ==
      SumBy(Filter(init, u => InCategory(id, u)), AbsAmount) + (if t.categoryId == id then Abs(t.amount) else 0.0)
  {
    FilterAppend(init, [t], u => InCategory(id, u));
    assert Filter([t], u => InCategory(id, u)) == (if t.categoryId == id then [t] else []) by {
      assert [t][1..] == [];
    }
    SumByAppend(Filter(init, u => InCategory(id, u)), if t.categoryId == id then [t] else [], AbsAmount);
  }

  /** A category's aggregated amount is the sum of the absolute amounts of its transactions. */
  lemma {:induction false} AggregateAmount(ts: seq<Transaction>, id: Int64)
    ensures id in Aggregate(ts) ==> Aggregate(ts)[id].amount == SumBy(Filter(ts, u => InCategory(id, u)), AbsAmount)
    ensures id !in Aggregate(ts) ==> Filter(ts, u => InCategory(id, u)) == []
    decreases |ts|
  {
    if ts != [] {
      var init, t := ts[..|ts| - 1], ts[|ts| - 1];
      assert ts == init + [t];
      AggregateAmount(init, id);
      FilterSnoc(init, t, id);
    }
  }

  /** A category's latest date is the latest date among its transactions. */
  lemma {:induction false} AggregateLatest(ts: seq<Transaction>, id: Int64)
    requires id in Aggregate(ts)
    ensures forall k :: 0 <= k < |ts| && ts[k].categoryId == id ==> ts[k].transactionDate <= Aggregate(ts)[id].latestDate
    ensures exists k :: 0 <= k < |ts| && ts[k].categoryId == id && ts[k].transactionDate == Aggregate(ts)[id].latestDate
    decreases |ts|
  {
    var init, t := ts[..|ts| - 1], ts[|ts| - 1];
    assert forall k :: 0 <= k < |init| ==> ts[k] == init[k];
    if id in Aggregate(init) {
      AggregateLatest(init, id);
      var k :| 0 <= k < |init| && init[k].categoryId == id && init[k].transactionDate == Aggregate(init)[id].latestDate;
      if t.categoryId == id && t.transactionDate > Aggregate(init)[id].latestDate {
        assert ts[|ts| - 1].transactionDate == Aggregate(ts)[id].latestDate;
      } else {
        assert ts[k].transactionDate == Aggregate(ts)[id].latestDate;
      }
    } else {
      assert t.categoryId == id;
      forall k | 0 <= k < |init|
        ensures init[k].categoryId != id
      {
        IdsAreKeys(init);
      }
      assert ts[|ts| - 1].transactionDate == Aggregate(ts)[id].latestDate;
    }
  }

  function AmountOf(m: map<Int64, CategoryTotals>, id: Int64): Decimal {
    if id in m then m[id].amount else 0.0
  }

  /** Sums over `ids` of two keys that agree on every id of the list are equal. */
  lemma {:induction false} SumByAgree(ids: seq<Int64>, g1: Int64 -> real, g2: Int64 -> real)
    requires forall k :: 0 <= k < |ids| ==> g1(ids[k]) == g2(ids[k])
    ensures SumBy(ids, g1) == SumBy(ids, g2)
  {
    if ids != [] {
      assert forall k :: 0 <= k < |ids[1..]| ==> ids[1..][k] == ids[k + 1];
      SumByAgree(ids[1..], g1, g2);
    }
  }

  /** Raising the key of one id that occurs once in `ids` raises the sum by as much. */
  lemma {:induction false} SumByBump(ids: seq<Int64>, g1: Int64 -> real, g2: Int64 -> real, id: Int64, delta: real)
    requires Distinct(ids) && id in ids
    requires forall k :: 0 <= k < |ids| ==> g2(ids[k]) == g1(ids[k]) + (if ids[k] == id then delta else 0.0)
    ensures SumBy(ids, g2) == SumBy(ids, g1) + delta
  {
    assert forall k :: 0 <= k < |ids[1..]| ==> ids[1..][k] == ids[k + 1];
    if ids[0] == id {
      assert id !in ids[1..] by {
        forall k | 0 <= k < |ids[1..]|
          ensures ids[1..][k] != id
        {
          assert ids[k + 1] != ids[0];
        }
      }
      SumByAgree(ids[1..], g1, g2);
    } else {
      SumByBump(ids[1..], g1, g2, id, delta);
    }
  }

  /** The per-category amounts add up to the absolute total of all the transactions. */
  lemma {:induction false} AggregateTotal(ts: seq<Transaction>)
    ensures SumBy(Ids(ts), (id: Int64) => AmountOf(Aggregate(ts), id)) == AbsoluteTotal(ts)
    decreases |ts|
  {
    if ts != [] {
      var init, t := ts[..|ts| - 1], ts[|ts| - 1];
      assert ts == init + [t];
      AggregateTotal(init);
      IdsAreKeys(init);
      SumByAppend(init, [t], AbsAmount);
      assert SumBy([t], AbsAmount) == Abs(t.amount);
      MergeSum(Ids(init), Aggregate(init), t,
        (id: Int64) => AmountOf(Aggregate(init), id), (id: Int64) => AmountOf(Aggregate(ts), id));
    }
  }

  /** Folding one transaction into the dictionary raises the sum over its keys by the transaction's absolute amount. */
  lemma MergeSum(ids: seq<Int64>, m: map<Int64, CategoryTotals>, t: Transaction, g1: Int64 -> real, g2: Int64 -> real)
    requires Distinct(ids) && forall id :: id in ids <==> id in m
    requires forall id :: g1(id) == AmountOf(m, id)
    requires forall id :: g2(id) == AmountOf(Merge(m, t), id)
    ensures SumBy(if t.categoryId in ids then ids else ids + [t.categoryId], g2) == SumBy(ids, g1) + Abs(t.amount)
  {
    if t.categoryId in m {
      SumByBump(ids, g1, g2, t.categoryId, Abs(t.amount));
    } else {
      SumByAgree(ids, g1, g2);
      SumByAppend(ids, [t.categoryId], g2);
      assert SumBy([t.categoryId], g2) == g2(t.categoryId) + SumBy([t.categoryId][1..], g2);
    }
  }

  /** An absolute total is never negative. */
  lemma {:induction false} AbsoluteTotalNonNegative(ts: seq<Transaction>)
    ensures AbsoluteTotal(ts) >= 0.0
  {
    if ts != [] {
      AbsoluteTotalNonNegative(ts[1..]);
    }
  }

  /** A row of the category table; its percentage is not modelled, its latest date only orders the rows. */
  datatype CategoryStat = CategoryStat(category: Category, amount: Decimal, latestDate: Date)

  /** The `compactMap` step of `getCategoryStats`: the category must be loaded and the total positive. */
  function StatFor(categories: seq<Category>, total: Decimal, m: map<Int64, CategoryTotals>, id: Int64): (r: Option<CategoryStat>)
    ensures r.Some? ==>
      && id in m && total > 0.0 && r.value.category in categories && r.value.category.id == id
      && r.value.amount == m[id].amount && r.value.latestDate == m[id].latestDate
    ensures r.None? <==> id !in m || total <= 0.0 || forall c :: c in categories ==> c.id != id
  {
    if id !in m || total <= 0.0 then None
    else match CategoryById(categories, id)
      case Some(c) => Some(CategoryStat(c, m[id].amount, m[id].latestDate))
      case None => None
  }

  /** The category statistics before sorting, in the dictionary's order. */
  function Stats(categories: seq<Category>, ts: seq<Transaction>): seq<CategoryStat> {
    CompactMap(Ids(ts), id => StatFor(categories, AbsoluteTotal(ts), Aggregate(ts), id))
  }

  /** No two rows name the same category id. */
  predicate DistinctCategories(stats: seq<CategoryStat>) {
    forall i, j :: 0 <= i < j < |stats| ==> stats[i].category.id != stats[j].category.id
  }

  lemma StatsDistinct(categories: seq<Category>, total: Decimal, m: map<Int64, CategoryTotals>, ids: seq<Int64>)
    requires Distinct(ids)
    ensures DistinctCategories(CompactMap(ids, id => StatFor(categories, total, m, id)))
  {
    DistinctRows(ids, (id: Int64) => StatFor(categories, total, m, id));
  }

  /** Rows that each name the id they were made from, made from distinct ids, name distinct categories. */
  lemma {:induction false} DistinctRows(ids: seq<Int64>, f: Int64 -> Option<CategoryStat>)
    requires Distinct(ids)
    requires forall id :: f(id).Some? ==> f(id).value.category.id == id
    ensures DistinctCategories(CompactMap(ids, f))
  {
    if ids != [] {
      var rest := CompactMap(ids[1..], f);
      DistinctTail(ids);
      DistinctRows(ids[1..], f);
      match f(ids[0]) {
        case Some(u) =>
          assert u.category.id == ids[0];
          RestAvoidsHead(ids, f, rest);
          DistinctCons(u, rest);
          assert CompactMap(ids, f) == [u] + rest;
        case None =>
      }
    }
  }

  /** The tail of a list of distinct ids is distinct and lacks the head. */
  lemma DistinctTail(ids: seq<Int64>)
    requires ids != [] && Distinct(ids)
    ensures Distinct(ids[1..])
    ensures forall k :: 0 <= k < |ids[1..]| ==> ids[1..][k] != ids[0]
  {
    forall i, j | 0 <= i < j < |ids[1..]|
      ensures ids[1..][i] != ids[1..][j]
    {
      assert ids[1..][i] == ids[i + 1] && ids[1..][j] == ids[j + 1];
    }
    forall k | 0 <= k < |ids[1..]|
      ensures ids[1..][k] != ids[0]
    {
      assert ids[1..][k] == ids[k + 1];
    }
  }

  /** The rows of the tail name none of the head's category. */
  lemma RestAvoidsHead(ids: seq<Int64>, f: Int64 -> Option<CategoryStat>, rest: seq<CategoryStat>)
    requires ids != [] && forall k :: 0 <= k < |ids[1..]| ==> ids[1..][k] != ids[0]
    requires forall id :: f(id).Some? ==> f(id).value.category.id == id
    requires rest == CompactMap(ids[1..], f)
    ensures forall k :: 0 <= k < |rest| ==> rest[k].category.id != ids[0]
  {
    forall k | 0 <= k < |rest|
      ensures rest[k].category.id != ids[0]
    {
      CompactMapMember(ids[1..], f, rest[k]);
      var i :| 0 <= i < |ids[1..]| && f(ids[1..][i]) == Some(rest[k]);
    }
  }

  /** A row in front of rows that avoid its category keeps the rows distinct. */
  lemma DistinctCons(u: CategoryStat, rest: seq<CategoryStat>)
    requires DistinctCategories(rest)
    requires forall k :: 0 <= k < |rest| ==> rest[k].category.id != u.category.id
    ensures DistinctCategories([u] + rest)
  {
    var r := [u] + rest;
    forall i, j | 0 <= i < j < |r|
      ensures r[i].category.id != r[j].category.id
    {
      assert r[j] == rest[j - 1];
      if i > 0 {
        assert r[i] == rest[i - 1];
      }
    }
  }

  /** The category table is empty when the absolute total is not positive, and never names a category twice. */
  lemma StatsShape(categories: seq<Category>, ts: seq<Transaction>)
    ensures AbsoluteTotal(ts) <= 0.0 ==> Stats(categories, ts) == []
    ensures DistinctCategories(Stats(categories, ts))
  {
    var total, m, ids := AbsoluteTotal(ts), Aggregate(ts), Ids(ts);
    IdsAreKeys(ts);
    StatsDistinct(categories, total, m, ids);
    if total <= 0.0 {
      CompactMapNone(ids, id => StatFor(categories, total, m, id));
    }
  }

  /**
   * A row names a loaded category; its amount is the sum of the absolute amounts of that
   * category's transactions and its date the latest of theirs.
   */
  lemma StatRow(categories: seq<Category>, ts: seq<Transaction>, x: CategoryStat)
    requires x in Stats(categories, ts)
    ensures x.category in categories
    ensures x.amount == SumBy(Filter(ts, u => InCategory(x.category.id, u)), AbsAmount)
    ensures forall k :: 0 <= k < |ts| && ts[k].categoryId == x.category.id ==> ts[k].transactionDate <= x.latestDate
    ensures exists k :: 0 <= k < |ts| && ts[k].categoryId == x.category.id && ts[k].transactionDate == x.latestDate
  {
    CompactMapMember(Ids(ts), id => StatFor(categories, AbsoluteTotal(ts), Aggregate(ts), id), x);
    AggregateAmount(ts, x.category.id);
    AggregateLatest(ts, x.category.id);
  }

  /** When the total is positive, every loaded category with a transaction in `ts` gets a row. */
  lemma StatsComplete(categories: seq<Category>, ts: seq<Transaction>, k: nat)
    requires k < |ts| && AbsoluteTotal(ts) > 0.0 && CategoryById(categories, ts[k].categoryId).Some?
    ensures exists x :: x in Stats(categories, ts) && x.category.id == ts[k].categoryId
  {
    var f := id => StatFor(categories, AbsoluteTotal(ts), Aggregate(ts), id);
    IdsAreKeys(ts);
    var id := ts[k].categoryId;
    assert id in Ids(ts);
    var i :| 0 <= i < |Ids(ts)| && Ids(ts)[i] == id;
    CompactMapMember(Ids(ts), f, f(id).value);
  }

  /** `compactMap` of a function that maps every element to `nil` is empty. */
  lemma {:induction false} CompactMapNone<T, U>(s: seq<T>, f: T -> Option<U>)
    requires forall k :: 0 <= k < |s| ==> f(s[k]) == None
    ensures CompactMap(s, f) == []
  {
    if s != [] {
      assert forall k :: 0 <= k < |s[1..]| ==> s[1..][k] == s[k + 1];
      CompactMapNone(s[1..], f);
    }
  }

  /** The key the category table is sorted by: the latest date, or the aggregated amount. */
  function StatKey(s: SortType, x: CategoryStat): real {
    if IsDateSorting(s) then x.latestDate as real else x.amount
  }

  /** `getCategoryStats`: the statistics ordered for the sort type. */
  function CategoryTable(categories: seq<Category>, s: SortType, ts: seq<Transaction>): (r: seq<CategoryStat>)
    ensures multiset(r) == multiset(Stats(categories, ts))
    ensures SortedBy(r, x => StatKey(s, x), IsDescending(s))
  {
    SortBy(Stats(categories, ts), x => StatKey(s, x), IsDescending(s))
  }

  /** The key the transaction table is sorted by: the date, or the absolute amount. */
  function TransactionKey(s: SortType, t: Transaction): real {
    if IsDateSorting(s) then t.transactionDate as real else Abs(t.amount)
  }

  /** `getTransactionStats`: the filtered transactions ordered for the sort type, or none when the absolute total is not positive. */
  function TransactionTable(s: SortType, ts: seq<Transaction>): (r: seq<Transaction>)
    ensures AbsoluteTotal(ts) > 0.0 ==> multiset(r) == multiset(ts)
    ensures AbsoluteTotal(ts) <= 0.0 ==> r == []
    ensures SortedBy(r, t => TransactionKey(s, t), IsDescending(s))
  {
    if AbsoluteTotal(ts) > 0.0 then SortBy(ts, t => TransactionKey(s, t), IsDescending(s)) else []
  }

  /** The total row: the signed sum of the filtered amounts. */
  function TotalRow(ts: seq<Transaction>): Decimal {
    SumBy(ts, SignedAmount)
  }

  /**
   * The total row is signed, unlike the absolute total the tables use: it never exceeds
   * it, and for a list of expenses stored as negative amounts it is its negation.
   */
  lemma {:induction false} TotalRowIsSigned(ts: seq<Transaction>)
    ensures TotalRow(ts) <= AbsoluteTotal(ts)
    ensures (forall k :: 0 <= k < |ts| ==> ts[k].amount >= 0.0) ==> TotalRow(ts) == AbsoluteTotal(ts)
    ensures (forall k :: 0 <= k < |ts| ==> ts[k].amount <= 0.0) ==> TotalRow(ts) == -AbsoluteTotal(ts)
  {
    if ts != [] {
      assert forall k :: 0 <= k < |ts[1..]| ==> ts[1..][k] == ts[k + 1];
      TotalRowIsSigned(ts[1..]);
    }
  }
}
