/**
 * `MyHistoryView`: the history screen's period. Picking a start or end day snaps it to the
 * first or last second of that day and drags the other bound along so the period never
 * inverts; the listed transactions are those of the period and the selected direction.
 */
module MyHistoryView {
  import opened Wrappers
  import opened Foundation
  import opened Models
  import opened Seqs
  import opened Calendar
  import opened TransactionListing
  import opened TransactionsViewModel

  /** `TypeDate`: which bound of the period a picker edits. */
  datatype TypeDate = Start | End

  /** The returned dates that lie in `start...end`, with a known category of direction `d`. */
  predicate InPeriod(f: Formatters, categories: seq<Category>, d: Direction, start: Date, end: Date, t: TransactionResponse) {
    && Kept(categories, d, t)
    && f.isoDate(t.transactionDate).Some?
    && start <= f.isoDate(t.transactionDate).value <= end
  }

  class MyHistoryView {
    var startDate: Date
    var endDate: Date
    var sortType: SortType
    const viewModel: TransactionsViewModel

    /**
     * The period starts at midnight of the day a month ago (`monthAgo`, today when the
     * calendar gives none) and ends at 23:59 today, its seconds left at zero.
     */
    constructor (vm: TransactionsViewModel, now: Date, monthAgo: Option<Date>)
      ensures viewModel == vm && sortType == DateAscending
      ensures startDate == StartOfDay(monthAgo.GetOr(now))
      ensures endDate == AtTime(now, 23, 59, 0)
    {
      viewModel := vm;
      startDate := StartOfDay(monthAgo.GetOr(now));
      endDate := AtTime(now, 23, 59, 0);
      sortType := DateAscending;
    }

    /**
     * `changeDate(newValue:typeDate:)`. A new start is midnight of its day, and pushes the
     * end to 23:59:59 of that day when it passes the end; a new end is 23:59:59 of its day,
     * and pulls the start to midnight of that day when it precedes the start. Afterwards the
     * start never follows the end.
     */
    method ChangeDate(newValue: Date, typeDate: TypeDate)
      modifies this
      ensures startDate <= endDate
      ensures sortType == old(sortType)
      ensures typeDate == Start ==>
        && startDate == StartOfDay(newValue)
        && endDate == (if StartOfDay(newValue) > old(endDate) then EndOfDay(StartOfDay(newValue)) else old(endDate))
      ensures typeDate == End ==>
        && endDate == EndOfDay(newValue)
        && startDate == (if EndOfDay(newValue) < old(startDate) then StartOfDay(EndOfDay(newValue)) else old(startDate))
    {
      match typeDate {
        case Start =>
          var newStartDate := StartOfDay(newValue);
          if newStartDate > endDate {
            endDate := EndOfDay(newStartDate);
          }
          startDate := newStartDate;
        case End =>
          var newEndDate := EndOfDay(newValue);
          if newEndDate < startDate {
            startDate := StartOfDay(newEndDate);
          }
          endDate := newEndDate;
      }
    }

    /** `filteredTransactions`: the period is `startDate...max(startDate, endDate)`. */
    function FilteredTransactions(): (r: seq<TransactionResponse>)
      reads this, viewModel
      ensures forall t :: t in r <==>
        t in viewModel.allTransactions &&
        InPeriod(viewModel.formatters, viewModel.categories, viewModel.selectedDirection,
          startDate, if endDate >= startDate then endDate else startDate, t)
    {
      var f, cs, d := viewModel.formatters, viewModel.categories, viewModel.selectedDirection;
      var start, end := startDate, if endDate >= startDate then endDate else startDate;
      var all := viewModel.allTransactions;
      var r := Filter(all, t => InPeriod(f, cs, d, start, end, t));
      assert forall t :: t in r <==> t in all && InPeriod(f, cs, d, start, end, t) by {
        forall t
          ensures t in r <==> t in all && InPeriod(f, cs, d, start, end, t)
        {
          FilterMember(all, u => InPeriod(f, cs, d, start, end, u), t);
        }
      }
      r
    }

    /** `sortedTransactions`: the filtered transactions, each as often as before, ordered for `sortType`. */
    function SortedTransactions(): (r: seq<TransactionResponse>)
      reads this, viewModel
      ensures multiset(r) == multiset(FilteredTransactions())
      ensures InSortOrder(viewModel.formatters, sortType, r)
    {
      SortedFor(viewModel.formatters, sortType, FilteredTransactions())
    }

    /** `totalAmount`: summed over the sorted list, it is the total of the filtered one. */
    function TotalAmount(): (r: Decimal)
      reads this, viewModel
      ensures r == Total(viewModel.formatters, FilteredTransactions())
    {
      SortedKeepsTotal(viewModel.formatters, sortType, FilteredTransactions());
      Total(viewModel.formatters, SortedTransactions())
    }
  }
}
