/**
 * `SwiftDataTransactionsStorage`: transactions kept in a SwiftData table of `LocalTransaction`
 * records. The table is a sequence in fetch order; an insert appends, so the upsert that
 * `@Attribute(.unique)` performs on a duplicate id is not modelled, and lookups by id act on
 * the first matching record.
 */
module SwiftDataTransactions {
  import opened Wrappers
  import opened Foundation
  import opened Models
  import opened Seqs

  /** `LocalTransaction`: the fields of a transaction the table keeps, amount and date as text. */
  datatype LocalTransaction = LocalTransaction(
    id: Int64, amount: string, categoryId: Int64, transactionDate: string, comment: Option<string>)

  /** The account `toResponse` fills in, until real values are stored. */
  const PLACEHOLDER_ACCOUNT: AccountBrief := AccountBrief(0, "", "0", "")

  /** `toResponse()`: a placeholder account, a nameless outcome category "💸", and the date as both timestamps. */
  function ToResponse(l: LocalTransaction): (r: TransactionResponse)
    ensures r.id == l.id && r.amount == l.amount && r.transactionDate == l.transactionDate && r.comment == l.comment
    ensures r.account == PLACEHOLDER_ACCOUNT
    ensures r.category == Category(l.categoryId, "", '💸', Outcome)
    ensures r.createdAt == l.transactionDate && r.updatedAt == l.transactionDate
  {
    TransactionResponse(l.id, PLACEHOLDER_ACCOUNT, Category(l.categoryId, "", '💸', Outcome),
      l.amount, l.transactionDate, l.comment, l.transactionDate, l.transactionDate)
  }

  /** `fromResponse(_:)`: the fields the record keeps. */
  function FromResponse(r: TransactionResponse): (l: LocalTransaction)
    ensures l.id == r.id && l.amount == r.amount && l.categoryId == r.category.id
    ensures l.transactionDate == r.transactionDate && l.comment == r.comment
  {
    LocalTransaction(r.id, r.amount, r.category.id, r.transactionDate, r.comment)
  }

  /** A round trip through the table keeps id, amount, category id, date and comment. */
  lemma ToResponseFromResponse(r: TransactionResponse)
    ensures var back := ToResponse(FromResponse(r));
      back.id == r.id && back.amount == r.amount && back.category.id == r.category.id
      && back.transactionDate == r.transactionDate && back.comment == r.comment
  {
  }

  /** The round trip loses the category's direction: an income category comes back as outcome. */
  lemma RoundTripLosesDirection(r: TransactionResponse)
    requires r.category.direction == Income
    ensures ToResponse(FromResponse(r)) != r
  {
    assert ToResponse(FromResponse(r)).category.direction == Outcome;
  }

  predicate HasId(id: Int64, l: LocalTransaction) {
    l.id == id
  }

  /** The record after `updateTransaction`: amount, category id, date and comment from the response. */
  function Updated(l: LocalTransaction, t: TransactionResponse): (r: LocalTransaction)
    ensures r.id == l.id
    ensures r.amount == t.amount && r.categoryId == t.category.id
    ensures r.transactionDate == t.transactionDate && r.comment == t.comment
  {
    l.(amount := t.amount, categoryId := t.category.id, transactionDate := t.transactionDate, comment := t.comment)
  }

  class SwiftDataTransactionsStorage {
    var records: seq<LocalTransaction>

    constructor ()
      ensures records == []
    {
      records := [];
    }

    /** `getAllTransactions()`. */
    function GetAllTransactions(): (r: seq<TransactionResponse>)
      reads this
      ensures |r| == |records|
      ensures forall k :: 0 <= k < |r| ==> FromResponse(r[k]) == records[k]
    {
      Map(records, ToResponse)
    }

    /** `createTransaction(_:)`: insert the converted record. */
    method CreateTransaction(t: TransactionResponse)
      modifies this
      ensures records == old(records) + [FromResponse(t)]
    {
      records := records + [FromResponse(t)];
    }

    /** `updateTransaction(id:with:)`: overwrite four fields of the first record with the id, if any. */
    method UpdateTransaction(id: Int64, t: TransactionResponse)
      modifies this
      ensures match FirstIndex(old(records), l => HasId(id, l))
        case Some(i) => records == old(records)[i := Updated(old(records)[i], t)]
        case None => records == old(records)
    {
      match FirstIndex(records, l => HasId(id, l)) {
        case Some(i) => records := records[i := Updated(records[i], t)];
        case None =>
      }
    }

    /** `deleteTransaction(id:)`: delete the first record with the id, if any. */
    method DeleteTransaction(id: Int64)
      modifies this
      ensures match FirstIndex(old(records), l => HasId(id, l))
        case Some(i) => records == RemoveAt(old(records), i)
        case None => records == old(records)
    {
      match FirstIndex(records, l => HasId(id, l)) {
        case Some(i) => records := RemoveAt(records, i);
        case None =>
      }
    }
  }
}
