/**
 * `SwiftDataBankAccountsBackupStorage`: the pending-operation store whose payload is a
 * `BankAccount`, encoded with its own `Codable` mapping and stored as JSON bytes.
 */
module AccountsBackup {
  import opened Wrappers
  import opened Foundation
  import opened Json
  import opened Models
  import opened BackupStorage
  import BankAccountModel

  /** Writing a JSON document to bytes and reading bytes back as a document. */
  datatype JsonData = JsonData(serialize: Json -> Bytes, parse: Bytes -> Option<Json>)

  /** Bytes written from a document whose numbers are decimals read back as that document. */
  ghost predicate LawfulJsonData(d: JsonData) {
    forall j :: DecimalNumbers(j) ==> d.parse(d.serialize(j)) == Some(j)
  }

  function EncodeAccount(f: Formatters, d: JsonData, a: BankAccount): Option<Bytes> {
    Some(d.serialize(JObject(BankAccountModel.Encode(f, a))))
  }

  function DecodeAccount(f: Formatters, d: JsonData, b: Bytes): Option<BankAccount> {
    match d.parse(b)
    case Some(JObject(m)) => BankAccountModel.Decode(f, m).ToOption()
    case _ => None
  }

  /** `JSONEncoder().encode` and `JSONDecoder().decode(BankAccount.self, from:)`. */
  function AccountCodec(f: Formatters, d: JsonData): Codec<BankAccount> {
    Codec(a => EncodeAccount(f, d, a), b => DecodeAccount(f, d, b))
  }

  /** An account operation is `AccountBackupOperation`. */
  type AccountBackupOperation = BackupOperation<BankAccount>

  /** An account whose balance is a decimal encodes, and the codec reads it back. */
  lemma AccountRoundTrip(f: Formatters, d: JsonData, a: BankAccount)
    requires Lawful(f) && LawfulJsonData(d) && IsDecimal(a.balance)
    ensures EncodeAccount(f, d, a).Some? && DecodeAccount(f, d, EncodeAccount(f, d, a).value) == Some(a)
  {
    var j := JObject(BankAccountModel.Encode(f, a));
    BankAccountModel.DecodeEncode(f, a);
    assert DecimalNumbers(j);
    assert d.parse(d.serialize(j)) == Some(j);
  }

  /**
   * An account always encodes, so `addBackupOperation` never skips one, and the stored
   * record converts back to the same operation.
   */
  lemma AccountBackupRoundTrip(f: Formatters, d: JsonData, op: AccountBackupOperation)
    requires Lawful(f) && LawfulJsonData(d) && IsDecimal(op.payload.balance)
    ensures FromBackupOperation(AccountCodec(f, d), op).Some?
    ensures ToBackupOperation(AccountCodec(f, d), FromBackupOperation(AccountCodec(f, d), op).value) == Some(op)
  {
    AccountRoundTrip(f, d, op.payload);
    RecordRoundTrip(AccountCodec(f, d), op);
  }

  /** Every account read back from a record has a decimal balance, so it round-trips again. */
  lemma DecodedAccountRoundTrips(f: Formatters, d: JsonData, b: Bytes)
    requires Lawful(f) && LawfulJsonData(d) && DecodeAccount(f, d, b).Some?
    ensures IsDecimal(DecodeAccount(f, d, b).value.balance)
    ensures DecodeAccount(f, d, EncodeAccount(f, d, DecodeAccount(f, d, b).value).value) == DecodeAccount(f, d, b)
  {
    var m := d.parse(b).value.fields;
    BankAccountModel.DecodedReencodes(f, m);
    AccountRoundTrip(f, d, DecodeAccount(f, d, b).value);
  }

  /** A stored payload that is not a dictionary, or whose balance text is not a decimal, makes the record corrupt. */
  lemma CorruptAccountRecord(f: Formatters, d: JsonData, l: LocalBackupOperation)
    requires match d.parse(l.data)
      case Some(JObject(m)) => BankAccountModel.Decode(f, m).Failure?
      case _ => true
    ensures ToBackupOperation(AccountCodec(f, d), l) == None
  {
  }
}
