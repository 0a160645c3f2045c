/**
 * The pending-operation ("backup") stores: SwiftData tables of operations whose payload
 * (a transaction or an account) is kept as JSON-encoded `Data`. Both stores share this
 * shape and differ only in the payload type; records are kept in fetch order, an insert
 * appends, so the upsert that `@Attribute(.unique)` performs on a duplicate id is not
 * modelled.
 */
module BackupStorage {
  import opened Wrappers
  import opened Foundation
  import opened Seqs

  /** `Data`. */
  type Bytes = seq<bv8>

  /** `JSONEncoder().encode` and `JSONDecoder().decode` for one payload type; either may fail. */
  datatype Codec<!P> = Codec(encode: P -> Option<Bytes>, decode: Bytes -> Option<P>)

  /** Whatever the encoder produces, the decoder reads back as the same payload. */
  ghost predicate LawfulCodec<P(!new)>(c: Codec<P>) {
    forall p: P :: c.encode(p).Some? ==> c.decode(c.encode(p).value) == Some(p)
  }

  /** `BackupOperationType` and `AccountBackupOperationType`, whose raw values are the case names. */
  datatype OperationType = Create | Update | Delete

  function OperationTypeRawValue(o: OperationType): string {
    match o
    case Create => "create"
    case Update => "update"
    case Delete => "delete"
  }

  function OperationTypeFromRawValue(s: string): (r: Option<OperationType>)
    ensures r.Some? ==> OperationTypeRawValue(r.value) == s
    ensures forall o :: OperationTypeRawValue(o) == s ==> r == Some(o)
  {
    if s == "create" then Some(Create) else if s == "update" then Some(Update)
    else if s == "delete" then Some(Delete) else None
  }

  /** A pending operation on one payload. */
  datatype BackupOperation<P> = BackupOperation(id: Int64, opType: OperationType, payload: P)

  /** The stored record: the type as its raw text and the payload as bytes. */
  datatype LocalBackupOperation = LocalBackupOperation(id: Int64, opType: string, data: Bytes)

  /** `toBackupOperation()`: `nil` when the payload does not decode or the type text is unknown. */
  function ToBackupOperation<P>(c: Codec<P>, l: LocalBackupOperation): (r: Option<BackupOperation<P>>)
    ensures r.None? <==> c.decode(l.data).None? || OperationTypeFromRawValue(l.opType).None?
    ensures r.Some? ==>
      r.value.id == l.id && OperationTypeRawValue(r.value.opType) == l.opType &&
      c.decode(l.data) == Some(r.value.payload)
  {
    var payload :- c.decode(l.data);
    var opType :- OperationTypeFromRawValue(l.opType);
    Some(BackupOperation(l.id, opType, payload))
  }

  /** `fromBackupOperation(_:)`: `nil` when the payload does not encode. */
  function FromBackupOperation<P>(c: Codec<P>, op: BackupOperation<P>): (r: Option<LocalBackupOperation>)
    ensures r.None? <==> c.encode(op.payload).None?
    ensures r.Some? ==>
      r.value.id == op.id && r.value.opType == OperationTypeRawValue(op.opType) &&
      c.encode(op.payload) == Some(r.value.data)
  {
    var data :- c.encode(op.payload);
    Some(LocalBackupOperation(op.id, OperationTypeRawValue(op.opType), data))
  }

  /** `toBackupOperation(fromBackupOperation(op)) == op` for every operation whose payload encodes. */
  lemma ToFromBackupOperation<P(!new)>(c: Codec<P>, op: BackupOperation<P>)
    requires LawfulCodec(c) && c.encode(op.payload).Some?
    ensures FromBackupOperation(c, op).Some?
    ensures ToBackupOperation(c, FromBackupOperation(c, op).value) == Some(op)
  {
    RecordRoundTrip(c, op);
  }

  /** The same round trip for one operation, whose payload alone the codec reads back. */
  lemma RecordRoundTrip<P>(c: Codec<P>, op: BackupOperation<P>)
    requires c.encode(op.payload).Some? && c.decode(c.encode(op.payload).value) == Some(op.payload)
    ensures FromBackupOperation(c, op).Some?
    ensures ToBackupOperation(c, FromBackupOperation(c, op).value) == Some(op)
  {
    var l := FromBackupOperation(c, op).value;
    assert c.decode(l.data) == Some(op.payload);
  }

  predicate HasId(id: Int64, l: LocalBackupOperation) {
    l.id == id
  }

  class SwiftDataBackupStorage<P> {
    var records: seq<LocalBackupOperation>
    const codec: Codec<P>

    constructor (c: Codec<P>)
      ensures records == [] && codec == c
    {
      records := [];
      codec := c;
    }

    /** `getAllBackupOperations()`: the records that convert, in fetch order; corrupt ones are skipped. */
    function GetAllBackupOperations(): (r: seq<BackupOperation<P>>)
      reads this
      ensures |r| <= |records|
    {
      CompactMap(records, l => ToBackupOperation(codec, l))
    }

    /** `addBackupOperation(_:)`: insert the converted record, or do nothing when the payload does not encode. */
    method AddBackupOperation(op: BackupOperation<P>)
      modifies this
      ensures match FromBackupOperation(codec, op)
        case Some(l) => records == old(records) + [l]
        case None => records == old(records)
    {
      match FromBackupOperation(codec, op) {
        case Some(l) => records := records + [l];
        case None =>
      }
    }

    /** `removeBackupOperation(id:)`: delete the first record with the id, if any. */
    method RemoveBackupOperation(id: Int64)
      modifies this
      ensures match FirstIndex(old(records), l => HasId(id, l))
        case Some(i) => records == RemoveAt(old(records), i)
        case None => records == old(records)
    {
      match FirstIndex(records, l => HasId(id, l)) {
        case Some(i) => records := RemoveAt(records, i);
        case None =>
      }
    }
  }

  /** After adding an operation whose payload encodes, the listing ends with exactly that operation. */
  lemma ListingAfterAdd<P(!new)>(c: Codec<P>, records: seq<LocalBackupOperation>, op: BackupOperation<P>)
    requires LawfulCodec(c) && c.encode(op.payload).Some?
    ensures var l := FromBackupOperation(c, op).value;
      CompactMap(records + [l], x => ToBackupOperation(c, x)) ==
        CompactMap(records, x => ToBackupOperation(c, x)) + [op]
  {
    var l := FromBackupOperation(c, op).value;
    ToFromBackupOperation(c, op);
    CompactMapAppend(records, [l], x => ToBackupOperation(c, x));
    assert CompactMap([l], x => ToBackupOperation(c, x)) == [op];
  }

  /** An operation is listed exactly when some stored record converts to it. */
  lemma ListingMember<P>(c: Codec<P>, records: seq<LocalBackupOperation>, op: BackupOperation<P>)
    ensures op in CompactMap(records, x => ToBackupOperation(c, x)) <==>
      exists k :: 0 <= k < |records| && ToBackupOperation(c, records[k]) == Some(op)
  {
    CompactMapMember(records, x => ToBackupOperation(c, x), op);
  }
}
