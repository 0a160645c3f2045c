/**
 * `AnalysisViewController`: the analysis screen's period and its cached tables. The period
 * bounds are snapped to the picked days; the tables are recomputed from the transactions
 * and categories of the list screen, when that screen's model is present.
 */
module AnalysisViewController {
  import opened Wrappers
  import opened Foundation
  import opened Models
  import opened Seqs
  import opened Calendar
  import opened TransactionListing
  import opened MyHistoryViewModel
  import opened MyHistoryView
  import opened AnalysisStats

  /**
   * The lists the screen reads from the transactions view model: its transactions, as the
   * cached `Transaction` records this screen's code is written against, and its categories.
   */
  datatype Source = Source(allTransactions: seq<Transaction>, categories: seq<Category>)

  /** The first half of `getCategoryStats`: the loop that fills the per-category dictionary. */
  method AggregateByCategory(filteredTransactions: seq<Transaction>)
    returns (categoryStats: map<Int64, CategoryTotals>, order: seq<Int64>)
    ensures categoryStats == Aggregate(filteredTransactions)
    ensures order == Ids(filteredTransactions)
  {
    categoryStats := map[];
    order := [];
    var i := 0;
    while i < |filteredTransactions|
      invariant 0 <= i <= |filteredTransactions|
      invariant categoryStats == Aggregate(filteredTransactions[..i])
      invariant order == Ids(filteredTransactions[..i])
    {
      var transaction := filteredTransactions[i];
      AggregateStep(filteredTransactions, i);
      if transaction.categoryId in categoryStats {
        var existing := categoryStats[transaction.categoryId];
        var latestDate := if transaction.transactionDate > existing.latestDate then transaction.transactionDate else existing.latestDate;
        categoryStats := categoryStats[transaction.categoryId := CategoryTotals(existing.amount + Abs(transaction.amount), latestDate)];
      } else {
        categoryStats := categoryStats[transaction.categoryId := CategoryTotals(Abs(transaction.amount), transaction.transactionDate)];
        order := order + [transaction.categoryId];
      }
      i := i + 1;
    }
    assert filteredTransactions[..i] == filteredTransactions;
  }

  lemma AggregateStep(ts: seq<Transaction>, i: nat)
    requires i < |ts|
    ensures Aggregate(ts[..i + 1]) == Merge(Aggregate(ts[..i]), ts[i])
    ensures Ids(ts[..i + 1]) == if ts[i].categoryId in Aggregate(ts[..i]) then Ids(ts[..i]) else Ids(ts[..i]) + [ts[i].categoryId]
  {
    assert ts[..i + 1][..i] == ts[..i];
    IdsAreKeys(ts[..i]);
  }

  class AnalysisViewController {
    const viewModel: MyHistoryViewModel
    var source: Option<Source>
    var startDate: Date
    var endDate: Date
    var cachedCategoryStats: seq<CategoryStat>
    var cachedTransactionStats: seq<Transaction>

    /** The period starts at midnight a month ago (`monthAgo`, today when the calendar gives none) and ends at 23:59 today. */
    constructor (vm: MyHistoryViewModel, src: Option<Source>, now: Date, monthAgo: Option<Date>)
      ensures viewModel == vm && source == src
      ensures startDate == StartOfDay(monthAgo.GetOr(now)) && endDate == AtTime(now, 23, 59, 0)
      ensures cachedCategoryStats == [] && cachedTransactionStats == []
    {
      viewModel := vm;
      source := src;
      startDate := StartOfDay(monthAgo.GetOr(now));
      endDate := AtTime(now, 23, 59, 0);
      cachedCategoryStats := [];
      cachedTransactionStats := [];
    }

    /**
     * `changeDate(newValue:typeDate:)`. A new start is midnight of its day and, past the
     * end, pushes the end to 23:59:59 of that day; a new end is 23:59 of its day (seconds
     * left at zero) and, before the start, pulls the start to midnight of that day.
     * Afterwards the start never follows the end.
     */
    method ChangeDate(newValue: Date, typeDate: TypeDate)
      modifies this
      ensures startDate <= endDate
      ensures typeDate == Start ==>
        && startDate == StartOfDay(newValue)
        && endDate == (if StartOfDay(newValue) > old(endDate) then EndOfDay(newValue) else old(endDate))
      ensures typeDate == End ==>
        && endDate == AtTime(newValue, 23, 59, 0)
        && startDate == (if AtTime(newValue, 23, 59, 0) < old(startDate) then StartOfDay(newValue) else old(startDate))
      ensures source == old(source)
      ensures cachedCategoryStats == old(cachedCategoryStats) && cachedTransactionStats == old(cachedTransactionStats)
    {
      match typeDate {
        case Start =>
          startDate := StartOfDay(newValue);
          if startDate > endDate {
            endDate := EndOfDay(newValue);
          }
        case End =>
          endDate := AtTime(newValue, 23, 59, 0);
          if endDate < startDate {
            startDate := AtTime(newValue, 0, 0, 0);
          }
      }
    }

    /** `getFilteredTransactions`: nothing without a source; otherwise the selected direction's transactions of the period. */
    function GetFilteredTransactions(): (r: seq<Transaction>)
      reads this, viewModel
      ensures source.None? ==> r == []
      ensures source.Some? ==> forall t :: t in r <==>
        t in source.value.allTransactions &&
        InAnalysisPeriod(source.value.categories, viewModel.selectedDirection, startDate, endDate, t)
    {
      match source
      case None => []
      case Some(src) =>
        var d, start, end := viewModel.selectedDirection, startDate, endDate;
        forall t
          ensures t in FilteredForPeriod(src.categories, d, start, end, src.allTransactions) <==>
            t in src.allTransactions && InAnalysisPeriod(src.categories, d, start, end, t)
        {
          FilteredForPeriodMember(src.categories, d, start, end, src.allTransactions, t);
        }
        FilteredForPeriod(src.categories, d, start, end, src.allTransactions)
    }

    /**
     * `getCategoryStats`: one loop folds every filtered transaction into its category's
     * entry of the dictionary; the entries of loaded categories then become rows, ordered
     * for the sort type.
     */
    method GetCategoryStats() returns (r: seq<CategoryStat>)
      ensures source.None? ==> r == []
      ensures source.Some? ==> r == CategoryTable(source.value.categories, viewModel.sortType, GetFilteredTransactions())
    {
      if source.None? {
        return [];
      }
      var categories := source.value.categories;
      var filteredTransactions := GetFilteredTransactions();
      var total := AbsoluteTotal(filteredTransactions);
      var categoryStats, order := AggregateByCategory(filteredTransactions);
      var result := CompactMap(order, id => StatFor(categories, total, categoryStats, id));
      var s := viewModel.sortType;
      r := SortBy(result, x => StatKey(s, x), IsDescending(s));
    }

    /** `getTransactionStats`: the filtered transactions ordered for the sort type, none when their absolute total is not positive. */
    method GetTransactionStats() returns (r: seq<Transaction>)
      ensures source.None? ==> r == []
      ensures source.Some? ==> r == TransactionTable(viewModel.sortType, GetFilteredTransactions())
    {
      if source.None? {
        return [];
      }
      r := TransactionTable(viewModel.sortType, GetFilteredTransactions());
    }

    /** `updateCache`: both tables recomputed. */
    method UpdateCache()
      modifies this
      ensures source == old(source) && startDate == old(startDate) && endDate == old(endDate)
      ensures source.Some? ==>
        && cachedCategoryStats == CategoryTable(source.value.categories, viewModel.sortType, GetFilteredTransactions())
        && cachedTransactionStats == TransactionTable(viewModel.sortType, GetFilteredTransactions())
      ensures source.None? ==> cachedCategoryStats == [] && cachedTransactionStats == []
    {
      cachedCategoryStats := GetCategoryStats();
      cachedTransactionStats := GetTransactionStats();
    }

    /** The total row: the signed sum of the filtered amounts. */
    function TotalAmount(): Decimal
      reads this, viewModel
    {
      TotalRow(GetFilteredTransactions())
    }
  }
}
