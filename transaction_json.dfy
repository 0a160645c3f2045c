/** The `JSONSerialization` dictionary form of a `Transaction`, as the file cache stores it. */
module TransactionJson {
  import opened Wrappers
  import opened Foundation
  import opened Json
  import opened Errors
  import opened Models

  /** The required keys, in the order `parse(jsonObject:)` looks them up. */
  const REQUIRED_KEYS: seq<string> :=
    ["id", "accountId", "categoryId", "amount", "transactionDate", "createdAt", "updatedAt"]

  const REQUIRED_KEY_SET: set<string> :=
    {"id", "accountId", "categoryId", "amount", "transactionDate", "createdAt", "updatedAt"}

  /** The three required keys whose values are read `as? Int`; the other four are read `as? String`. */
  predicate IsIntKey(key: string) {
    key == "id" || key == "accountId" || key == "categoryId"
  }

  /** `dict[key] as? Int` (for the integer keys) or `as? String` (for the others) succeeds. */
  predicate Present(d: map<string, Json>, key: string) {
    && key in d
    && if IsIntKey(key) then AsInt(d[key]).Some? else d[key].JString?
  }

  /** Every required key is present with the type it is read as. */
  predicate AllPresent(d: map<string, Json>) {
    && Present(d, "id") && Present(d, "accountId") && Present(d, "categoryId")
    && Present(d, "amount") && Present(d, "transactionDate") && Present(d, "createdAt")
    && Present(d, "updatedAt")
  }

  function IntField(d: map<string, Json>, key: string): Result<Int64, ParsingError> {
    if key in d && AsInt(d[key]).Some? then Success(AsInt(d[key]).value)
    else Failure(MissingRequiredField(key))
  }

  function StringField(d: map<string, Json>, key: string): Result<string, ParsingError> {
    if key in d && d[key].JString? then Success(d[key].s) else Failure(MissingRequiredField(key))
  }

  function DateField(f: Formatters, key: string, text: string): Result<Date, ParsingError> {
    match f.isoDate(text)
    case Some(d) => Success(d)
    case None => Failure(InvalidDateFormat(key + ": " + text))
  }

  /** `parse(jsonObject:)`. */
  function Parse(f: Formatters, j: Json): Result<Transaction, ParsingError> {
    if !j.JObject? then Failure(InvalidJSONStructure)
    else
      var d := j.fields;
      var id :- IntField(d, "id");
      var accountId :- IntField(d, "accountId");
      var categoryId :- IntField(d, "categoryId");
      var amountValue :- StringField(d, "amount");
      var transactionDateString :- StringField(d, "transactionDate");
      var createdAtString :- StringField(d, "createdAt");
      var updatedAtString :- StringField(d, "updatedAt");
      match f.decimalFromString(amountValue)
      case None => Failure(InvalidAmountFormat(amountValue))
      case Some(amount) =>
        var transactionDate :- DateField(f, "transactionDate", transactionDateString);
        var createdAt :- DateField(f, "createdAt", createdAtString);
        var updatedAt :- DateField(f, "updatedAt", updatedAtString);
        var comment := if "comment" in d && d["comment"].JString? then Some(d["comment"].s) else None;
        Success(Transaction(id, accountId, categoryId, amount, transactionDate, comment, createdAt, updatedAt))
  }

  /** `jsonObject`. */
  function ToJson(f: Formatters, t: Transaction): (r: Json)
    ensures r.JObject?
    ensures r.fields.Keys == if t.comment.Some? then REQUIRED_KEY_SET + {"comment"} else REQUIRED_KEY_SET
    ensures "comment" in r.fields <==> t.comment.Some?
  {
    var fixed := map[
      "id" := JInt(t.id), "accountId" := JInt(t.accountId), "categoryId" := JInt(t.categoryId),
      "amount" := JString(f.decimalDescription(t.amount)),
      "transactionDate" := JString(f.isoString(t.transactionDate)),
      "createdAt" := JString(f.isoString(t.createdAt)),
      "updatedAt" := JString(f.isoString(t.updatedAt))];
    match t.comment
    case Some(c) => JObject(fixed["comment" := JString(c)])
    case None => JObject(fixed)
  }

  /** Anything other than a dictionary is an invalid structure. */
  lemma NonObjectIsInvalid(f: Formatters, j: Json)
    requires !j.JObject?
    ensures Parse(f, j) == Failure(InvalidJSONStructure)
  {
  }

  /** The first required key, in lookup order, that is absent or of the wrong type is the one reported. */
  lemma FirstMissingKeyReported(f: Formatters, d: map<string, Json>, i: nat)
    requires i < |REQUIRED_KEYS|
    requires forall k :: 0 <= k < i ==> Present(d, REQUIRED_KEYS[k])
    requires !Present(d, REQUIRED_KEYS[i])
    ensures Parse(f, JObject(d)) == Failure(MissingRequiredField(REQUIRED_KEYS[i]))
  {
    if i > 0 { assert Present(d, REQUIRED_KEYS[0]); }
    if i > 1 { assert Present(d, REQUIRED_KEYS[1]); }
    if i > 2 { assert Present(d, REQUIRED_KEYS[2]); }
    if i > 3 { assert Present(d, REQUIRED_KEYS[3]); }
    if i > 4 { assert Present(d, REQUIRED_KEYS[4]); }
    if i > 5 { assert Present(d, REQUIRED_KEYS[5]); }
  }

  /** An integer field supplied as a string counts as missing (`"id": "one"` in the tests). */
  lemma StringIdIsMissing(f: Formatters, d: map<string, Json>)
    requires "id" in d && d["id"].JString?
    ensures Parse(f, JObject(d)) == Failure(MissingRequiredField("id"))
  {
  }

  /** With every key present, an amount that is not decimal text is reported, before any date is checked. */
  lemma BadAmountReported(f: Formatters, d: map<string, Json>)
    requires AllPresent(d) && f.decimalFromString(d["amount"].s).None?
    ensures Parse(f, JObject(d)) == Failure(InvalidAmountFormat(d["amount"].s))
  {
  }

  /** With every key present and a valid amount, the first of the three dates that is not ISO 8601 is reported. */
  lemma FirstBadDateReported(f: Formatters, d: map<string, Json>)
    requires AllPresent(d) && f.decimalFromString(d["amount"].s).Some?
    ensures var td, ca, ua := d["transactionDate"].s, d["createdAt"].s, d["updatedAt"].s;
      && (f.isoDate(td).None? ==>
            Parse(f, JObject(d)) == Failure(InvalidDateFormat("transactionDate: " + td)))
      && (f.isoDate(td).Some? && f.isoDate(ca).None? ==>
            Parse(f, JObject(d)) == Failure(InvalidDateFormat("createdAt: " + ca)))
      && (f.isoDate(td).Some? && f.isoDate(ca).Some? && f.isoDate(ua).None? ==>
            Parse(f, JObject(d)) == Failure(InvalidDateFormat("updatedAt: " + ua)))
  {
    assert "transactionDate" + ": " == "transactionDate: ";
    assert "createdAt" + ": " == "createdAt: ";
    assert "updatedAt" + ": " == "updatedAt: ";
  }

  /** A dictionary parses exactly when every key is present, the amount is decimal text and the three dates are ISO 8601. */
  lemma ParseSucceeds(f: Formatters, d: map<string, Json>)
    ensures Parse(f, JObject(d)).Success? <==>
      && AllPresent(d) && f.decimalFromString(d["amount"].s).Some?
      && f.isoDate(d["transactionDate"].s).Some? && f.isoDate(d["createdAt"].s).Some?
      && f.isoDate(d["updatedAt"].s).Some?
  {
  }

  /** The comment is the "comment" string when there is one; any other value is silently dropped. */
  lemma CommentIsOptional(f: Formatters, d: map<string, Json>)
    requires Parse(f, JObject(d)).Success?
    ensures Parse(f, JObject(d)).value.comment ==
      if "comment" in d && d["comment"].JString? then Some(d["comment"].s) else None
  {
  }

  /** `parse(jsonObject: t.jsonObject) == t`. */
  lemma ParseToJson(f: Formatters, t: Transaction)
    requires Lawful(f) && IsDecimal(t.amount)
    ensures Parse(f, ToJson(f, t)) == Success(t)
  {
    ToJsonFields(f, t);
    ParseFieldsOf(f, ToJson(f, t).fields, t);
  }

  /** A parsed amount is a decimal, so whatever parses writes a dictionary that parses back to it. */
  lemma ParsedRoundTrips(f: Formatters, j: Json)
    requires Lawful(f) && Parse(f, j).Success?
    ensures IsDecimal(Parse(f, j).value.amount)
    ensures Parse(f, ToJson(f, Parse(f, j).value)) == Parse(f, j)
  {
    var t := Parse(f, j).value;
    assert f.decimalFromString(j.fields["amount"].s) == Some(t.amount);
    ParseToJson(f, t);
  }

  /** The dictionary `jsonObject` builds holds each field under its key. */
  lemma ToJsonFields(f: Formatters, t: Transaction)
    ensures Holds(f, ToJson(f, t).fields, t)
  {
  }

  /** `d` holds `t`'s fields in the form `jsonObject` writes them. */
  predicate Holds(f: Formatters, d: map<string, Json>, t: Transaction) {
    && REQUIRED_KEY_SET <= d.Keys
    && d["id"] == JInt(t.id) && d["accountId"] == JInt(t.accountId) && d["categoryId"] == JInt(t.categoryId)
    && d["amount"] == JString(f.decimalDescription(t.amount))
    && d["transactionDate"] == JString(f.isoString(t.transactionDate))
    && d["createdAt"] == JString(f.isoString(t.createdAt))
    && d["updatedAt"] == JString(f.isoString(t.updatedAt))
    && ("comment" in d <==> t.comment.Some?)
    && (t.comment.Some? ==> d["comment"] == JString(t.comment.value))
  }

  lemma ParseFieldsOf(f: Formatters, d: map<string, Json>, t: Transaction)
    requires Lawful(f) && IsDecimal(t.amount) && Holds(f, d, t)
    ensures Parse(f, JObject(d)) == Success(t)
  {
    assert f.decimalFromString(f.decimalDescription(t.amount)) == Some(t.amount);
    assert f.isoDate(f.isoString(t.transactionDate)) == Some(t.transactionDate);
    assert f.isoDate(f.isoString(t.createdAt)) == Some(t.createdAt);
    assert f.isoDate(f.isoString(t.updatedAt)) == Some(t.updatedAt);
  }
}
