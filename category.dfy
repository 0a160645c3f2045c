/** `Category`'s initialisers and its `Codable` mapping between `direction` and `isIncome`. */
module CategoryModel {
  import opened Wrappers
  import opened Foundation
  import opened Json
  import opened Models

  /** `init(id:name:emoji:isIncome:)`. */
  function WithIsIncome(id: Int64, name: string, emoji: char, isIncome: bool): (c: Category)
    ensures c.id == id && c.name == name && c.emoji == emoji
    ensures c.direction == Income <==> isIncome
  {
    Category(id, name, emoji, if isIncome then Income else Outcome)
  }

  /** `init(from:)`: id, name, emoji (which must not be empty) and isIncome, in that order. */
  function Decode(c: Container): (r: Result<Category, DecodingError>) {
    var id :- DecodeInt(c, "id");
    var name :- DecodeString(c, "name");
    var emojiString :- DecodeString(c, "emoji");
    if emojiString == [] then Failure(DataCorrupted("emoji", "emoji string is empty"))
    else
      var isIncome :- DecodeBool(c, "isIncome");
      Success(Category(id, name, emojiString[0], if isIncome then Income else Outcome))
  }

  /** `encode(to:)`. */
  function Encode(cat: Category): (r: Container)
    ensures r.Keys == {"id", "name", "emoji", "isIncome"}
    ensures r["emoji"] == JString([cat.emoji])
    ensures r["isIncome"] == JBool(cat.direction == Income)
  {
    map["id" := JInt(cat.id), "name" := JString(cat.name), "emoji" := JString([cat.emoji]),
        "isIncome" := JBool(cat.direction == Income)]
  }

  /** `init(isIncome:)` is `init(direction:)` with true meaning income and false outcome. */
  lemma WithIsIncomeAgrees(id: Int64, name: string, emoji: char, d: Direction)
    ensures WithIsIncome(id, name, emoji, d == Income) == Category(id, name, emoji, d)
  {
  }

  /** Decoding succeeds exactly when every key decodes and the emoji text is not empty. */
  lemma DecodeSucceeds(c: Container)
    ensures Decode(c).Success? <==>
      && DecodeInt(c, "id").Success?
      && DecodeString(c, "name").Success?
      && DecodeString(c, "emoji").Success? && DecodeString(c, "emoji").value != []
      && DecodeBool(c, "isIncome").Success?
  {
  }

  /** A decoded category is income exactly when `isIncome` is true, and keeps the first emoji character. */
  lemma DecodedFields(c: Container)
    requires Decode(c).Success?
    ensures Decode(c).value.direction == Income <==> c["isIncome"] == JBool(true)
    ensures c["emoji"].JString? && Decode(c).value.emoji == c["emoji"].s[0]
    ensures c["id"] == JInt(Decode(c).value.id) || c["id"] == JNumber(Decode(c).value.id as real)
    ensures c["name"] == JString(Decode(c).value.name)
  {
  }

  /** An empty emoji string is reported as corrupted data once id and name have decoded. */
  lemma DecodeRejectsEmptyEmoji(c: Container)
    requires DecodeInt(c, "id").Success? && DecodeString(c, "name").Success?
    requires "emoji" in c && c["emoji"] == JString("")
    ensures Decode(c) == Failure(DataCorrupted("emoji", "emoji string is empty"))
  {
  }

  /** `decode(encode(c)) == c`. */
  lemma DecodeEncode(cat: Category)
    ensures Decode(Encode(cat)) == Success(cat)
  {
  }
}
