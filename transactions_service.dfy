/**
 * `TransactionsService`: transactions over the file cache, with ids handed out by a
 * counter that starts above every id found in the cache file.
 */
module TransactionsService {
  import opened Wrappers
  import opened Foundation
  import opened Errors
  import opened Models
  import opened Seqs
  import opened FileCache

  /** The largest id of the list, or 0 for the empty list: `map { $0.id }.max() ?? 0`. */
  function MaxId(ts: seq<Transaction>): (r: Int64)
    ensures forall k :: 0 <= k < |ts| ==> ts[k].id <= r
    ensures ts == [] ==> r == 0
    ensures ts != [] ==> exists k :: 0 <= k < |ts| && ts[k].id == r
  {
    if ts == [] then 0
    else
      var rest := MaxId(ts[1..]);
      if ts[1..] == [] || ts[0].id >= rest then ts[0].id else rest
  }

  /** Every id in the list is below `bound`. */
  predicate IdsBelow(ts: seq<Transaction>, bound: int) {
    forall k :: 0 <= k < |ts| ==> ts[k].id < bound
  }

  predicate InPeriod(start: Date, end: Date, t: Transaction) {
    start <= t.transactionDate <= end
  }

  class TransactionsService {
    const cache: TransactionsFileCache
    var nextId: int

    /** Every cached id is below the next id to hand out, which is above the smallest `Int`. */
    ghost predicate Valid()
      reads this, cache
    {
      INT64_MIN < nextId && IdsBelow(cache.transactions, nextId)
    }

    /** `init(cache:)`: load the file, ignoring a failure, and start above the largest id. */
    constructor (c: TransactionsFileCache)
      modifies c
      ensures cache == c && c.file == old(c.file)
      ensures match old(c.file)
        case None => c.transactions == []
        case Some(Unreadable(_)) => c.transactions == old(c.transactions)
        case Some(Document(j)) => c.transactions == Decoded(c.formatters, j)
      ensures nextId == MaxId(c.transactions) + 1
      ensures Valid()
    {
      cache := c;
      var _ := c.LoadFromFile();
      nextId := MaxId(c.transactions) + 1;
    }

    /** `getTransactions(for:)`: the cached transactions dated within the closed period, in cache order. */
    function GetTransactions(start: Date, end: Date): (r: seq<Transaction>)
      requires start <= end
      reads this, cache
      ensures forall k :: 0 <= k < |r| ==> start <= r[k].transactionDate <= end
    {
      Filter(cache.transactions, t => InPeriod(start, end, t))
    }

    /**
     * `createTransaction(...)`: a transaction with the next id, stamped `now`; the counter
     * moves on before the cache is written, so a failed write still uses up the id.
     */
    method CreateTransaction(accountId: Int64, amount: Decimal, transactionDate: Date, categoryId: Int64,
                             comment: Option<string>, now: Date, write: Outcome<Error>)
      returns (r: Result<Transaction, Error>)
      requires nextId <= INT64_MAX
      requires Valid()
      modifies this, cache
      ensures Valid()
      ensures nextId == old(nextId) + 1
      ensures var t := Transaction(old(nextId), accountId, categoryId, amount, transactionDate, comment, now, now);
        && cache.transactions == old(cache.transactions) + [t]
        && r == (if write.Pass? then Success(t) else Failure(write.error))
      ensures cache.file == if write.Pass? then Some(Document(Snapshot(cache.formatters, cache.transactions))) else old(cache.file)
    {
      var t := Transaction(nextId, accountId, categoryId, amount, transactionDate, comment, now, now);
      nextId := nextId + 1;
      NewIdIsAppended(cache.transactions, t);
      var saved := cache.AddTransaction(t, write);
      assert cache.transactions == old(cache.transactions) + [t];
      if saved.Pass? {
        r := Success(t);
      } else {
        r := Failure(saved.error);
      }
    }

    /** `updateTransaction(_:)`: an upsert into the cache. */
    method UpdateTransaction(t: Transaction, write: Outcome<Error>) returns (r: Outcome<Error>)
      requires Valid()
      modifies cache
      ensures cache.transactions == Upsert(old(cache.transactions), t) && r == write
      ensures cache.file == if write.Pass? then Some(Document(Snapshot(cache.formatters, cache.transactions))) else old(cache.file)
      ensures t.id < nextId ==> Valid()
      ensures unchanged(this)
    {
      r := cache.AddTransaction(t, write);
      UpsertBelow(old(cache.transactions), t, nextId);
    }

    /** `deleteTransaction(withId:)`: remove every cached transaction with the id. */
    method DeleteTransaction(id: Int64, write: Outcome<Error>) returns (r: Outcome<Error>)
      requires Valid()
      modifies cache
      ensures cache.transactions == RemoveId(old(cache.transactions), id) && r == write
      ensures cache.file == if write.Pass? then Some(Document(Snapshot(cache.formatters, cache.transactions))) else old(cache.file)
      ensures Valid()
      ensures unchanged(this)
    {
      r := cache.RemoveTransaction(id, write);
      RemoveBelow(old(cache.transactions), id, nextId);
    }
  }

  /** A transaction whose id no entry has is appended by the upsert. */
  lemma NewIdIsAppended(ts: seq<Transaction>, t: Transaction)
    requires IdsBelow(ts, t.id)
    ensures Upsert(ts, t) == ts + [t]
  {
    UpsertShape(ts, t);
  }

  /** Upserting an id below the bound keeps every id below it. */
  lemma UpsertBelow(ts: seq<Transaction>, t: Transaction, bound: int)
    requires IdsBelow(ts, bound)
    ensures t.id < bound ==> IdsBelow(Upsert(ts, t), bound)
  {
    UpsertShape(ts, t);
  }

  /** Removal keeps every id below the bound. */
  lemma RemoveBelow(ts: seq<Transaction>, id: Int64, bound: int)
    requires IdsBelow(ts, bound)
    ensures IdsBelow(RemoveId(ts, id), bound)
  {
    var r := RemoveId(ts, id);
    forall k | 0 <= k < |r|
      ensures r[k].id < bound
    {
      FilterMember(ts, x => LacksId(id, x), r[k]);
    }
  }

  /** A transaction is returned for a period exactly when it is cached and dated within it. */
  lemma GetTransactionsMember(ts: seq<Transaction>, start: Date, end: Date, t: Transaction)
    ensures t in Filter(ts, x => InPeriod(start, end, x)) <==> t in ts && start <= t.transactionDate <= end
  {
    FilterMember(ts, x => InPeriod(start, end, x), t);
  }
}
