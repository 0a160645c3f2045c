/**
 * `MyHistoryViewModel`: the history screen's state. Loading stores the fetched transactions
 * and categories, keeps the selected direction's transactions and totals them; the sorted
 * list is computed on demand.
 */
module MyHistoryViewModel {
  import opened Wrappers
  import opened Foundation
  import opened Errors
  import opened Models
  import opened Seqs
  import opened TransactionListing

  class MyHistoryViewModel {
    var selectedDirection: Direction
    var totalAmount: Decimal
    var allTransactions: seq<TransactionResponse>
    var displayedTransactions: seq<TransactionResponse>
    var categories: seq<Category>
    var isLoading: bool
    var error: Option<Error>
    var sortType: SortType
    const formatters: Formatters

    /** The initializer stores the direction without running its observer. */
    constructor (f: Formatters, direction: Direction)
      ensures formatters == f && selectedDirection == direction && sortType == DateAscending
      ensures totalAmount == 0.0 && allTransactions == [] && displayedTransactions == [] && categories == []
      ensures !isLoading && error == None
    {
      formatters := f;
      selectedDirection := direction;
      totalAmount := 0.0;
      allTransactions := [];
      displayedTransactions := [];
      categories := [];
      isLoading := false;
      error := None;
      sortType := DateAscending;
    }

    /** `sortedTransactions`: the displayed transactions, each as often as before, ordered for `sortType`. */
    function SortedTransactions(): (r: seq<TransactionResponse>)
      reads this
      ensures multiset(r) == multiset(displayedTransactions)
      ensures InSortOrder(formatters, sortType, r)
    {
      SortedFor(formatters, sortType, displayedTransactions)
    }

    /** `filterTransactions`: keeps the transactions whose known category has the selected direction. */
    method FilterTransactions()
      modifies this
      ensures displayedTransactions == ByDirection(categories, selectedDirection, allTransactions)
      ensures selectedDirection == old(selectedDirection) && totalAmount == old(totalAmount)
      ensures allTransactions == old(allTransactions) && categories == old(categories)
      ensures isLoading == old(isLoading) && error == old(error) && sortType == old(sortType)
    {
      displayedTransactions := ByDirection(categories, selectedDirection, allTransactions);
    }

    /** Assigning `selectedDirection` re-filters the list; the stored total is not recomputed. */
    method SetSelectedDirection(d: Direction)
      modifies this
      ensures selectedDirection == d
      ensures displayedTransactions == ByDirection(categories, d, allTransactions)
      ensures totalAmount == old(totalAmount)
      ensures allTransactions == old(allTransactions) && categories == old(categories)
      ensures isLoading == old(isLoading) && error == old(error) && sortType == old(sortType)
    {
      selectedDirection := d;
      FilterTransactions();
    }

    /** `calculateTotalAmount`: the sum of the displayed amounts, unparseable ones counting 0. */
    function CalculateTotalAmount(): Decimal
      reads this
    {
      Total(formatters, displayedTransactions)
    }

    /** Sorting the displayed list for any sort type leaves the total as it is. */
    lemma SortedTotal()
      ensures Total(formatters, SortedTransactions()) == CalculateTotalAmount()
    {
      SortedKeepsTotal(formatters, sortType, displayedTransactions);
    }

    /**
     * `loadData(from:to:accountId:)`: on success the fetched transactions and categories are
     * stored, the selected direction's transactions displayed, and `totalAmount` is their sum;
     * on failure the error is kept and the rest is untouched. `isLoading` is clear afterwards.
     */
    method LoadData(fetched: Result<(seq<TransactionResponse>, seq<Category>), Error>)
      modifies this
      ensures !isLoading && selectedDirection == old(selectedDirection) && sortType == old(sortType)
      ensures fetched.Success? ==>
        && allTransactions == fetched.value.0 && categories == fetched.value.1
        && displayedTransactions == ByDirection(fetched.value.1, selectedDirection, fetched.value.0)
        && totalAmount == Total(formatters, displayedTransactions)
        && error == old(error)
      ensures fetched.Failure? ==>
        && error == Some(fetched.error) && allTransactions == old(allTransactions)
        && categories == old(categories) && displayedTransactions == old(displayedTransactions)
        && totalAmount == old(totalAmount)
    {
      isLoading := true;
      if fetched.Success? {
        allTransactions := fetched.value.0;
        categories := fetched.value.1;
        displayedTransactions := fetched.value.0;
        FilterTransactions();
        totalAmount := CalculateTotalAmount();
      } else {
        error := Some(fetched.error);
      }
      isLoading := false;
    }
  }
}
