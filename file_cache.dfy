/**
 * `TransactionsFileCache`: the transactions kept in memory and mirrored, after every
 * change, into a JSON file that holds an array of transaction dictionaries.
 */
module FileCache {
  import opened Wrappers
  import opened Foundation
  import opened Json
  import opened Errors
  import opened Models
  import opened Seqs
  import TransactionJson

  /**
   * What the cache file holds: a JSON document (an array or a dictionary at top level), or
   * bytes that `JSONSerialization` cannot read, which include a lone top-level scalar.
   */
  datatype FileContent = Document(json: Json) | Unreadable(readError: Error)

  predicate HasId(id: Int64, t: Transaction) {
    t.id == id
  }

  predicate LacksId(id: Int64, t: Transaction) {
    t.id != id
  }

  /** No two transactions share an id. */
  predicate UniqueIds(ts: seq<Transaction>) {
    forall i, j :: 0 <= i < j < |ts| ==> ts[i].id != ts[j].id
  }

  /** The list after `addTransaction(t)`: the first entry with `t`'s id is replaced, or `t` is appended. */
  function Upsert(ts: seq<Transaction>, t: Transaction): seq<Transaction> {
    match FirstIndex(ts, x => HasId(t.id, x))
    case Some(i) => ts[i := t]
    case None => ts + [t]
  }

  /** The list after `removeTransaction(withId:)`: every entry with that id is gone. */
  function RemoveId(ts: seq<Transaction>, id: Int64): seq<Transaction> {
    Filter(ts, x => LacksId(id, x))
  }

  /** The document `saveToFile` writes: the array of the transactions' dictionaries. */
  function Snapshot(f: Formatters, ts: seq<Transaction>): Json {
    JArray(Map(ts, t => TransactionJson.ToJson(f, t)))
  }

  /** The list `loadFromFile` reads: the array's entries that parse, in file order; anything but an array reads as empty. */
  function Decoded(f: Formatters, j: Json): seq<Transaction> {
    if j.JArray? then CompactMap(j.items, (x: Json) => TransactionJson.Parse(f, x).ToOption()) else []
  }

  class TransactionsFileCache {
    var transactions: seq<Transaction>
    /** The cache file; `None` while it does not exist. */
    var file: Option<FileContent>
    const formatters: Formatters

    constructor (f: Formatters, existing: Option<FileContent>)
      ensures transactions == [] && file == existing && formatters == f
    {
      transactions := [];
      file := existing;
      formatters := f;
    }

    /** `saveToFile()`: `write` is what the file system answers to the write. */
    method SaveToFile(write: Outcome<Error>) returns (r: Outcome<Error>)
      modifies this
      ensures r == write && transactions == old(transactions)
      ensures file == if write.Pass? then Some(Document(Snapshot(formatters, transactions))) else old(file)
    {
      if write.Pass? {
        file := Some(Document(Snapshot(formatters, transactions)));
      }
      r := write;
    }

    /** `addTransaction(_:)`: upsert by id, then save. A failed save leaves the new list in memory. */
    method AddTransaction(t: Transaction, write: Outcome<Error>) returns (r: Outcome<Error>)
      modifies this
      ensures transactions == Upsert(old(transactions), t) && r == write
      ensures file == if write.Pass? then Some(Document(Snapshot(formatters, transactions))) else old(file)
    {
      match FirstIndex(transactions, x => HasId(t.id, x)) {
        case Some(i) => transactions := transactions[i := t];
        case None => transactions := transactions + [t];
      }
      r := SaveToFile(write);
    }

    /** `removeTransaction(withId:)`: drop every entry with the id, then save. */
    method RemoveTransaction(id: Int64, write: Outcome<Error>) returns (r: Outcome<Error>)
      modifies this
      ensures transactions == RemoveId(old(transactions), id) && r == write
      ensures file == if write.Pass? then Some(Document(Snapshot(formatters, transactions))) else old(file)
    {
      transactions := Filter(transactions, x => LacksId(id, x));
      r := SaveToFile(write);
    }

    /**
     * `loadFromFile()`: a missing file gives the empty list, an unreadable one is an error
     * that keeps the list, and a document replaces the list with what parses.
     */
    method LoadFromFile() returns (r: Outcome<Error>)
      modifies this
      ensures file == old(file)
      ensures match file
        case None => transactions == [] && r == Pass
        case Some(Unreadable(e)) => transactions == old(transactions) && r == Fail(e)
        case Some(Document(j)) => transactions == Decoded(formatters, j) && r == Pass
    {
      match file {
        case None =>
          transactions := [];
          r := Pass;
        case Some(Unreadable(e)) =>
          r := Fail(e);
        case Some(Document(j)) =>
          transactions := Decoded(formatters, j);
          r := Pass;
      }
    }
  }

  /** Replacing keeps the position and every other entry; a new id is appended at the end. */
  lemma UpsertShape(ts: seq<Transaction>, t: Transaction)
    ensures (exists k :: 0 <= k < |ts| && ts[k].id == t.id) ==>
      exists i :: 0 <= i < |ts| && ts[i].id == t.id && (forall j :: 0 <= j < i ==> ts[j].id != t.id) &&
        Upsert(ts, t) == ts[i := t]
    ensures (forall k :: 0 <= k < |ts| ==> ts[k].id != t.id) ==> Upsert(ts, t) == ts + [t]
  {
    var found := FirstIndex(ts, x => HasId(t.id, x));
    if found.Some? {
      var i := found.value;
      assert Upsert(ts, t) == ts[i := t];
      assert ts[i].id == t.id && forall j :: 0 <= j < i ==> ts[j].id != t.id;
    } else {
      assert Upsert(ts, t) == ts + [t];
      assert forall k :: 0 <= k < |ts| ==> ts[k].id != t.id;
    }
  }

  /** Upserting into a list of unique ids keeps them unique, and `t` is then the only entry with its id. */
  lemma UpsertKeepsUniqueIds(ts: seq<Transaction>, t: Transaction)
    requires UniqueIds(ts)
    ensures UniqueIds(Upsert(ts, t))
    ensures t in Upsert(ts, t)
    ensures forall k :: 0 <= k < |Upsert(ts, t)| && Upsert(ts, t)[k].id == t.id ==> Upsert(ts, t)[k] == t
  {
    match FirstIndex(ts, x => HasId(t.id, x)) {
      case Some(i) =>
        assert Upsert(ts, t) == ts[i := t];
        assert Upsert(ts, t)[i] == t;
      case None =>
        assert Upsert(ts, t) == ts + [t];
    }
  }

  /** After removal no entry has the id; the others keep their order; an absent id changes nothing. */
  lemma RemoveIdShape(ts: seq<Transaction>, id: Int64)
    ensures forall k :: 0 <= k < |RemoveId(ts, id)| ==> RemoveId(ts, id)[k].id != id
    ensures forall x :: x in ts && x.id != id ==> x in RemoveId(ts, id)
    ensures (forall k :: 0 <= k < |ts| ==> ts[k].id != id) ==> RemoveId(ts, id) == ts
  {
    forall x | x in ts && x.id != id
      ensures x in RemoveId(ts, id)
    {
      FilterMember(ts, y => LacksId(id, y), x);
    }
    if forall k :: 0 <= k < |ts| ==> ts[k].id != id {
      FilterAll(ts, y => LacksId(id, y));
    }
  }

  /** Removal keeps the ids unique. */
  lemma {:induction false} RemoveIdKeepsUniqueIds(ts: seq<Transaction>, id: Int64)
    requires UniqueIds(ts)
    ensures UniqueIds(RemoveId(ts, id))
  {
    if ts != [] {
      RemoveIdKeepsUniqueIds(ts[1..], id);
      var rest := RemoveId(ts[1..], id);
      forall k | 0 <= k < |rest|
        ensures rest[k].id != ts[0].id
      {
        FilterMember(ts[1..], y => LacksId(id, y), rest[k]);
        assert rest[k] in ts[1..];
      }
    }
  }

  /** What `saveToFile` writes, `loadFromFile` reads back unchanged. */
  lemma LoadAfterSave(f: Formatters, ts: seq<Transaction>)
    requires Lawful(f) && forall k :: 0 <= k < |ts| ==> IsDecimal(ts[k].amount)
    ensures Decoded(f, Snapshot(f, ts)) == ts
  {
    var g := t => TransactionJson.ToJson(f, t);
    var p := (x: Json) => TransactionJson.Parse(f, x).ToOption();
    forall k | 0 <= k < |ts|
      ensures p(g(ts[k])) == Some(ts[k])
    {
      TransactionJson.ParseToJson(f, ts[k]);
    }
    CompactMapOfMap(ts, g, p);
  }

  /** Whatever was loaded, saved again, loads back as the same list. */
  lemma SaveAfterLoad(f: Formatters, j: Json)
    requires Lawful(f)
    ensures Decoded(f, Snapshot(f, Decoded(f, j))) == Decoded(f, j)
  {
    var ts := Decoded(f, j);
    forall k | 0 <= k < |ts|
      ensures IsDecimal(ts[k].amount)
    {
      var p := (x: Json) => TransactionJson.Parse(f, x).ToOption();
      CompactMapMember(j.items, p, ts[k]);
      var i :| 0 <= i < |j.items| && p(j.items[i]) == Some(ts[k]);
      TransactionJson.ParsedRoundTrips(f, j.items[i]);
    }
    LoadAfterSave(f, ts);
  }

  /** Loading keeps exactly the entries that parse, skipping the others, and never yields more entries than the file holds. */
  lemma DecodedSkipsCorrupt(f: Formatters, items: seq<Json>, t: Transaction)
    ensures |Decoded(f, JArray(items))| <= |items|
    ensures t in Decoded(f, JArray(items)) <==>
      exists k :: 0 <= k < |items| && TransactionJson.Parse(f, items[k]) == Success(t)
  {
    var p := (x: Json) => TransactionJson.Parse(f, x).ToOption();
    CompactMapMember(items, p, t);
    assert forall k :: 0 <= k < |items| ==> (p(items[k]) == Some(t) <==> TransactionJson.Parse(f, items[k]) == Success(t));
  }
}
