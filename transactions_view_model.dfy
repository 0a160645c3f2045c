/**
 * `TransactionsViewModel`: the state behind the income and outcome lists. The displayed
 * list is re-derived from all loaded transactions whenever the direction, the sort order
 * or the data change; deleting removes entries optimistically and rolls back on failure.
 */
module TransactionsViewModel {
  import opened Wrappers
  import opened Foundation
  import opened Errors
  import opened Models
  import opened Seqs
  import opened TransactionListing

  predicate HasResponseId(id: Int64, t: TransactionResponse) {
    t.id == id
  }

  predicate LacksResponseId(id: Int64, t: TransactionResponse) {
    t.id != id
  }

  /** The list after a failed delete: every entry with the id removed, then the first of them appended. */
  function RolledBack(all: seq<TransactionResponse>, id: Int64): seq<TransactionResponse> {
    Filter(all, t => LacksResponseId(id, t)) +
      match First(all, t => HasResponseId(id, t))
      case Some(t) => [t]
      case None => []
  }

  /** At most one entry carries the id. */
  predicate AtMostOne(all: seq<TransactionResponse>, id: Int64) {
    forall i, j :: 0 <= i < |all| && 0 <= j < |all| && all[i].id == id && all[j].id == id ==> i == j
  }

  /** A rollback never invents an entry. */
  lemma RollbackKeeps(all: seq<TransactionResponse>, id: Int64)
    ensures multiset(RolledBack(all, id)) <= multiset(all)
  {
    FilterPartition(all, t => HasResponseId(id, t), t => LacksResponseId(id, t));
    match First(all, t => HasResponseId(id, t)) {
      case Some(x) =>
        FilterMember(all, t => HasResponseId(id, t), x);
      case None =>
    }
  }

  /** Without other entries carrying the id, the tail is what the filter keeps. */
  lemma NoneCarry(rest: seq<TransactionResponse>, id: Int64)
    requires forall k :: 0 <= k < |rest| ==> rest[k].id != id
    ensures Filter(rest, t => LacksResponseId(id, t)) == rest
  {
    FilterAll(rest, t => LacksResponseId(id, t));
  }

  lemma TailAtMostOne(all: seq<TransactionResponse>, id: Int64)
    requires all != [] && AtMostOne(all, id)
    ensures AtMostOne(all[1..], id)
    ensures all[0].id == id ==> forall k :: 0 <= k < |all[1..]| ==> all[1..][k].id != id
  {
    var rest := all[1..];
    forall i, j | 0 <= i < |rest| && 0 <= j < |rest| && rest[i].id == id && rest[j].id == id
      ensures i == j
    {
      assert all[i + 1] == rest[i] && all[j + 1] == rest[j];
    }
    if all[0].id == id {
      forall k | 0 <= k < |rest|
        ensures rest[k].id != id
      {
        assert all[k + 1] == rest[k];
      }
    }
  }

  /** With at most one entry per id, a rollback restores the list's contents exactly, though at a new position. */
  lemma {:induction false} RollbackRestores(all: seq<TransactionResponse>, id: Int64)
    requires AtMostOne(all, id)
    ensures multiset(RolledBack(all, id)) == multiset(all)
  {
    if all != [] {
      var x, rest := all[0], all[1..];
      assert all == [x] + rest;
      TailAtMostOne(all, id);
      FirstCons(all, t => HasResponseId(id, t));
      var kept := Filter(rest, t => LacksResponseId(id, t));
      if x.id == id {
        assert Filter(all, t => LacksResponseId(id, t)) == kept;
        NoneCarry(rest, id);
        assert RolledBack(all, id) == rest + [x];
      } else {
        RollbackRestores(rest, id);
        assert Filter(all, t => LacksResponseId(id, t)) == [x] + kept;
        var tail := match First(rest, t => HasResponseId(id, t)) case Some(t) => [t] case None => [];
        assert RolledBack(rest, id) == kept + tail;
        assert RolledBack(all, id) == ([x] + kept) + tail;
        assert ([x] + kept) + tail == [x] + (kept + tail);
      }
    }
  }

  /** With two entries of the same id, a failed delete brings back only one of them. */
  lemma RollbackDropsDuplicates(t: TransactionResponse)
    ensures RolledBack([t, t], t.id) == [t]
  {
    assert First([t, t], u => HasResponseId(t.id, u)) == Some(t);
    assert Filter([t, t], u => LacksResponseId(t.id, u)) == [];
  }

  class TransactionsViewModel {
    var displayedTransactions: seq<TransactionResponse>
    var allTransactions: seq<TransactionResponse>
    var categories: seq<Category>
    var isLoading: bool
    var error: Option<Error>
    var saveSuccess: bool
    var sortType: SortType
    var selectedDirection: Direction
    const formatters: Formatters

    /** The displayed list is the selected direction's transactions, ordered for the sort type. */
    ghost predicate Valid()
      reads this`sortType, this`categories, this`selectedDirection, this`allTransactions, this`displayedTransactions
    {
      Shows(formatters, sortType, categories, selectedDirection, allTransactions, displayedTransactions)
    }

    /** The initializer stores the direction without running its observer; the lists start empty. */
    constructor (f: Formatters, direction: Direction)
      ensures Valid() && formatters == f && selectedDirection == direction && sortType == DateDescending
      ensures displayedTransactions == [] && allTransactions == [] && categories == []
      ensures !isLoading && error == None && !saveSuccess
    {
      formatters := f;
      selectedDirection := direction;
      sortType := DateDescending;
      displayedTransactions := [];
      allTransactions := [];
      categories := [];
      isLoading := false;
      error := None;
      saveSuccess := false;
    }

    /** `totalAmount`: the sum of the displayed amounts, unparseable ones counting 0. */
    function TotalAmount(): Decimal
      reads this
    {
      Total(formatters, displayedTransactions)
    }

    /** Whatever the order, the total is the sum over the selected direction's transactions. */
    lemma TotalIsDirectionTotal()
      requires Valid()
      ensures TotalAmount() == Total(formatters, ByDirection(categories, selectedDirection, allTransactions))
    {
      SumByPermutation(displayedTransactions, ByDirection(categories, selectedDirection, allTransactions),
        t => AmountKey(formatters, t));
    }

    /** `sortTransactions`: reorders the displayed list in place for the current sort type. */
    method SortTransactions()
      modifies this
      ensures multiset(displayedTransactions) == multiset(old(displayedTransactions))
      ensures InSortOrder(formatters, sortType, displayedTransactions)
      ensures allTransactions == old(allTransactions) && categories == old(categories)
      ensures sortType == old(sortType) && selectedDirection == old(selectedDirection)
      ensures isLoading == old(isLoading) && error == old(error) && saveSuccess == old(saveSuccess)
    {
      displayedTransactions := SortedFor(formatters, sortType, displayedTransactions);
    }

    /** `filterTransactions`: the selected direction's transactions, then sorted. */
    method FilterTransactions()
      modifies this
      ensures Valid()
      ensures allTransactions == old(allTransactions) && categories == old(categories)
      ensures sortType == old(sortType) && selectedDirection == old(selectedDirection)
      ensures isLoading == old(isLoading) && error == old(error) && saveSuccess == old(saveSuccess)
    {
      displayedTransactions := ByDirection(categories, selectedDirection, allTransactions);
      SortTransactions();
    }

    /** Assigning `sortType` re-sorts the list. */
    method SetSortType(s: SortType)
      requires Valid()
      modifies this
      ensures Valid() && sortType == s
      ensures multiset(displayedTransactions) == multiset(old(displayedTransactions))
      ensures allTransactions == old(allTransactions) && categories == old(categories)
      ensures selectedDirection == old(selectedDirection)
      ensures isLoading == old(isLoading) && error == old(error) && saveSuccess == old(saveSuccess)
    {
      sortType := s;
      SortTransactions();
    }

    /** Assigning `selectedDirection` re-filters the list. */
    method SetSelectedDirection(d: Direction)
      modifies this
      ensures Valid() && selectedDirection == d
      ensures allTransactions == old(allTransactions) && categories == old(categories) && sortType == old(sortType)
      ensures isLoading == old(isLoading) && error == old(error) && saveSuccess == old(saveSuccess)
    {
      selectedDirection := d;
      FilterTransactions();
    }

    /**
     * `loadTransactions`: ignored while a load is running; otherwise the fetched transactions
     * and categories replace the loaded ones and the list is re-derived, or the error is kept.
     * The flag is clear again on every exit of a load that ran.
     */
    method LoadTransactions(fetched: Result<(seq<TransactionResponse>, seq<Category>), Error>)
      requires Valid()
      modifies this
      ensures Valid()
      ensures old(isLoading) ==> unchanged(this)
      ensures !old(isLoading) ==> !isLoading
      ensures !old(isLoading) && fetched.Success? ==>
        allTransactions == fetched.value.0 && categories == fetched.value.1 && error == old(error)
      ensures !old(isLoading) && fetched.Failure? ==>
        error == Some(fetched.error) && allTransactions == old(allTransactions) &&
        categories == old(categories) && displayedTransactions == old(displayedTransactions)
      ensures sortType == old(sortType) && selectedDirection == old(selectedDirection) && saveSuccess == old(saveSuccess)
    {
      if isLoading {
        return;
      }
      isLoading := true;
      if fetched.Success? {
        allTransactions := fetched.value.0;
        categories := fetched.value.1;
        FilterTransactions();
      } else {
        error := Some(fetched.error);
      }
      isLoading := false;
    }

    /** `switchDirection(to:)`: re-filters, then reloads. */
    method SwitchDirection(d: Direction, fetched: Result<(seq<TransactionResponse>, seq<Category>), Error>)
      requires Valid()
      modifies this
      ensures Valid() && selectedDirection == d
      ensures sortType == old(sortType) && saveSuccess == old(saveSuccess)
      ensures isLoading == old(isLoading)
      ensures old(isLoading) ==>
        allTransactions == old(allTransactions) && categories == old(categories) && error == old(error)
      ensures !old(isLoading) && fetched.Success? ==>
        allTransactions == fetched.value.0 && categories == fetched.value.1 && error == old(error)
      ensures !old(isLoading) && fetched.Failure? ==>
        error == Some(fetched.error) && allTransactions == old(allTransactions) && categories == old(categories)
    {
      SetSelectedDirection(d);
      LoadTransactions(fetched);
    }

    /** `createTransaction`: after the service call succeeds the list reloads; a failure is kept as the error. */
    method CreateTransaction(created: Outcome<Error>, fetched: Result<(seq<TransactionResponse>, seq<Category>), Error>)
      requires Valid()
      modifies this
      ensures Valid()
      ensures created.Fail? ==>
        error == Some(created.error) && allTransactions == old(allTransactions) &&
        displayedTransactions == old(displayedTransactions)
      ensures created.Pass? && !old(isLoading) && fetched.Success? ==>
        allTransactions == fetched.value.0 && categories == fetched.value.1 && error == old(error)
      ensures created.Pass? && !old(isLoading) && fetched.Failure? ==>
        error == Some(fetched.error) && allTransactions == old(allTransactions)
      ensures created.Pass? && old(isLoading) ==> allTransactions == old(allTransactions) && error == old(error)
      ensures created.Fail? || old(isLoading) || fetched.Failure? ==> categories == old(categories)
      ensures isLoading == old(isLoading)
      ensures sortType == old(sortType) && selectedDirection == old(selectedDirection) && saveSuccess == old(saveSuccess)
    {
      match created {
        case Pass => LoadTransactions(fetched);
        case Fail(e) => error := Some(e);
      }
    }

    /**
     * `updateTransaction`: the list reloads either way; success flips `saveSuccess`, a failure
     * is kept as the error, set after the reload.
     */
    method UpdateTransaction(updated: Outcome<Error>, fetched: Result<(seq<TransactionResponse>, seq<Category>), Error>)
      requires Valid()
      modifies this
      ensures Valid()
      ensures saveSuccess == (if updated.Pass? then !old(saveSuccess) else old(saveSuccess))
      ensures updated.Fail? ==> error == Some(updated.error)
      ensures !old(isLoading) && fetched.Success? ==> allTransactions == fetched.value.0 && categories == fetched.value.1
      ensures old(isLoading) || fetched.Failure? ==> allTransactions == old(allTransactions) && categories == old(categories)
      ensures updated.Pass? ==> error == if !old(isLoading) && fetched.Failure? then Some(fetched.error) else old(error)
      ensures sortType == old(sortType) && selectedDirection == old(selectedDirection) && isLoading == old(isLoading)
    {
      match updated {
        case Pass =>
          saveSuccess := !saveSuccess;
          LoadTransactions(fetched);
        case Fail(e) =>
          LoadTransactions(fetched);
          error := Some(e);
      }
    }

    /**
     * `deleteTransaction(withId:)`: every entry with the id leaves the lists before the
     * service is called. On success the list reloads; on failure the first removed entry
     * comes back at the end and the error is kept.
     */
    method DeleteTransaction(id: Int64, deleted: Outcome<Error>,
                             fetched: Result<(seq<TransactionResponse>, seq<Category>), Error>)
      requires Valid()
      modifies this
      ensures Valid()
      ensures deleted.Fail? ==> allTransactions == RolledBack(old(allTransactions), id) && error == Some(deleted.error)
      ensures deleted.Pass? && (old(isLoading) || fetched.Failure?) ==>
        allTransactions == Filter(old(allTransactions), t => LacksResponseId(id, t))
      ensures deleted.Pass? && !old(isLoading) && fetched.Success? ==>
        allTransactions == fetched.value.0 && categories == fetched.value.1
      ensures deleted.Fail? || old(isLoading) || fetched.Failure? ==> categories == old(categories)
      ensures deleted.Pass? ==> error == if !old(isLoading) && fetched.Failure? then Some(fetched.error) else old(error)
      ensures isLoading == old(isLoading)
      ensures sortType == old(sortType) && selectedDirection == old(selectedDirection) && saveSuccess == old(saveSuccess)
    {
      var toDelete := First(allTransactions, t => HasResponseId(id, t));
      var kept := Filter(allTransactions, t => LacksResponseId(id, t));
      allTransactions := kept;
      FilterTransactions();
      if deleted.Pass? {
        LoadTransactions(fetched);
      } else {
        if toDelete.Some? {
          allTransactions := allTransactions + [toDelete.value];
          FilterTransactions();
        }
        error := Some(deleted.error);
      }
    }
  }
}
