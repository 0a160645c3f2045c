/** `BankAccount`'s `Codable` mapping, which stores the decimal balance as text. */
module BankAccountModel {
  import opened Wrappers
  import opened Foundation
  import opened Json
  import opened Models

  /** `init(from:)`: id, userId, name, currency, balance (text that must be a decimal), createdAt, updatedAt. */
  function Decode(f: Formatters, c: Container): (r: Result<BankAccount, DecodingError>) {
    var id :- DecodeInt(c, "id");
    var userId :- DecodeInt(c, "userId");
    var name :- DecodeString(c, "name");
    var currency :- DecodeString(c, "currency");
    var balanceText :- DecodeString(c, "balance");
    match f.decimalFromString(balanceText)
    case None => Failure(DataCorrupted("balance", "Balance string is not a valid decimal"))
    case Some(balance) =>
      var createdAt :- DecodeDate(c, "createdAt");
      var updatedAt :- DecodeDate(c, "updatedAt");
      Success(BankAccount(id, userId, name, balance, currency, createdAt, updatedAt))
  }

  /** `encode(to:)`: the balance is written as its description, a string. */
  function Encode(f: Formatters, a: BankAccount): (r: Container)
    ensures r.Keys == {"id", "userId", "name", "balance", "currency", "createdAt", "updatedAt"}
    ensures r["balance"] == JString(f.decimalDescription(a.balance))
  {
    map["id" := JInt(a.id), "userId" := JInt(a.userId), "name" := JString(a.name),
        "balance" := JString(f.decimalDescription(a.balance)), "currency" := JString(a.currency),
        "createdAt" := JInt(a.createdAt), "updatedAt" := JInt(a.updatedAt)]
  }

  /** Decoding succeeds exactly when all seven keys decode and the balance text is a decimal. */
  lemma DecodeSucceeds(f: Formatters, c: Container)
    ensures Decode(f, c).Success? <==>
      && DecodeInt(c, "id").Success? && DecodeInt(c, "userId").Success?
      && DecodeString(c, "name").Success? && DecodeString(c, "currency").Success?
      && DecodeString(c, "balance").Success? && f.decimalFromString(DecodeString(c, "balance").value).Some?
      && DecodeDate(c, "createdAt").Success? && DecodeDate(c, "updatedAt").Success?
  {
  }

  /** A balance text that is not a decimal is corrupted data, once the keys before it decoded. */
  lemma DecodeRejectsBadBalance(f: Formatters, c: Container)
    requires DecodeInt(c, "id").Success? && DecodeInt(c, "userId").Success?
    requires DecodeString(c, "name").Success? && DecodeString(c, "currency").Success?
    requires "balance" in c && c["balance"].JString? && f.decimalFromString(c["balance"].s).None?
    ensures Decode(f, c) == Failure(DataCorrupted("balance", "Balance string is not a valid decimal"))
  {
  }

  /** A balance supplied as a number rather than text is a type mismatch. */
  lemma DecodeRejectsNumericBalance(f: Formatters, c: Container)
    requires DecodeInt(c, "id").Success? && DecodeInt(c, "userId").Success?
    requires DecodeString(c, "name").Success? && DecodeString(c, "currency").Success?
    requires "balance" in c && (c["balance"].JNumber? || c["balance"].JInt?)
    ensures Decode(f, c) == Failure(TypeMismatch("balance"))
  {
  }

  /** The round trip preserves every field of an account whose balance is a decimal. */
  lemma DecodeEncode(f: Formatters, a: BankAccount)
    requires Lawful(f) && IsDecimal(a.balance)
    ensures Decode(f, Encode(f, a)) == Success(a)
  {
    assert f.decimalFromString(f.decimalDescription(a.balance)) == Some(a.balance);
  }

  /** A decoded balance is a decimal, so every decoded account encodes and decodes back to itself. */
  lemma DecodedReencodes(f: Formatters, c: Container)
    requires Lawful(f) && Decode(f, c).Success?
    ensures IsDecimal(Decode(f, c).value.balance)
    ensures Decode(f, Encode(f, Decode(f, c).value)) == Decode(f, c)
  {
    var balanceText := DecodeString(c, "balance").value;
    assert f.decimalFromString(balanceText) == Some(Decode(f, c).value.balance);
    DecodeEncode(f, Decode(f, c).value);
  }
}
