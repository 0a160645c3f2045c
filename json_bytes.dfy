/**
 * A byte form of JSON documents that reads back every document whose numbers are
 * decimals. It is not `JSONSerialization`'s text form; it shows that the law
 * `AccountsBackup.LawfulJsonData` the account backups assume can hold.
 *
 * Each value starts with a tag byte. Numbers are written in unary (that many 1s, then
 * a 0), and strings, arrays and objects as lists whose entries each start with a 1 and
 * which end with a 0.
 */
module JsonBytes {
  import opened Wrappers
  import opened Foundation
  import opened Json
  import opened BackupStorage
  import opened AccountsBackup
  import LawfulFormatters

  function EncodeNat(n: nat): Bytes {
    if n == 0 then [0] else [1] + EncodeNat(n - 1)
  }

  function DecodeNat(b: Bytes): (r: Option<(nat, Bytes)>)
    ensures r.Some? ==> |r.value.1| < |b|
  {
    if b == [] then None
    else if b[0] == 0 then Some((0, b[1..]))
    else if b[0] == 1 then
      match DecodeNat(b[1..])
      case None => None
      case Some((n, rest)) => Some((n + 1, rest))
    else None
  }

  lemma {:induction false} DecodeEncodeNat(n: nat, rest: Bytes)
    ensures DecodeNat(EncodeNat(n) + rest) == Some((n, rest))
  {
    if n > 0 {
      assert (EncodeNat(n) + rest)[1..] == EncodeNat(n - 1) + rest;
      DecodeEncodeNat(n - 1, rest);
    }
  }

  /** A sign byte, then the magnitude. */
  function EncodeInt(i: int): Bytes {
    if i < 0 then [1] + EncodeNat(-i) else [0] + EncodeNat(i)
  }

  function DecodeInt(b: Bytes): (r: Option<(int, Bytes)>)
    ensures r.Some? ==> |r.value.1| < |b|
  {
    if b == [] || b[0] > 1 then None
    else match DecodeNat(b[1..])
      case None => None
      case Some((n, rest)) =>
        var i: int := if b[0] == 1 then -(n as int) else n;
        Some((i, rest))
  }

  lemma DecodeEncodeInt(i: int, rest: Bytes)
    ensures DecodeInt(EncodeInt(i) + rest) == Some((i, rest))
  {
    var n: nat := if i < 0 then -i else i;
    var b := EncodeInt(i) + rest;
    assert b[1..] == EncodeNat(n) + rest;
    DecodeEncodeNat(n, rest);
  }

  /** A decimal as its mantissa and its number of places. */
  ghost function EncodeDecimal(x: real): Bytes {
    if IsDecimal(x) then
      EncodeInt(LawfulFormatters.Representation(x).0) + EncodeNat(LawfulFormatters.Representation(x).1)
    else []
  }

  predicate IsScalarValue(n: nat) {
    n < 0xD800 || 0xE000 <= n < 0x11_0000
  }

  function EncodeString(s: string): Bytes {
    if s == [] then [0] else [1] + EncodeNat(s[0] as int) + EncodeString(s[1..])
  }

  function DecodeString(b: Bytes): (r: Option<(string, Bytes)>)
    ensures r.Some? ==> |r.value.1| < |b|
    decreases |b|
  {
    if b == [] then None
    else if b[0] == 0 then Some(([], b[1..]))
    else if b[0] == 1 then
      match DecodeNat(b[1..])
      case None => None
      case Some((n, r1)) =>
        if !IsScalarValue(n) then None
        else match DecodeString(r1)
          case None => None
          case Some((s, r2)) => Some(([n as char] + s, r2))
    else None
  }

  lemma {:induction false} DecodeEncodeString(s: string, rest: Bytes)
    ensures DecodeString(EncodeString(s) + rest) == Some((s, rest))
  {
    if s != [] {
      var code: nat := s[0] as int;
      assert EncodeString(s) == [1] + EncodeNat(code) + EncodeString(s[1..]);
      Layout2(1, EncodeNat(code), EncodeString(s[1..]), rest);
      DecodeEncodeNat(code, EncodeString(s[1..]) + rest);
      DecodeEncodeString(s[1..], rest);
      assert [code as char] + s[1..] == s;
    }
  }

  /** The keys of a map, each once, in some order. */
  ghost function KeyList(keys: set<string>): (r: seq<string>)
    ensures forall k :: k in r <==> k in keys
  {
    if keys == {} then []
    else
      var k :| k in keys;
      [k] + KeyList(keys - {k})
  }

  ghost function Encode(j: Json): Bytes
    decreases j
  {
    match j
    case JNull => [0]
    case JBool(b) => [1, if b then 1 else 0]
    case JInt(i) => [2] + EncodeInt(i)
    case JNumber(x) => [3] + EncodeDecimal(x)
    case JString(s) => [4] + EncodeString(s)
    case JArray(items) => [5] + EncodeItems(j, 0)
    case JObject(fields) => [6] + EncodeFields(j, KeyList(fields.Keys))
  }

  /** The items of the array `parent` from index `k` on. */
  ghost function EncodeItems(parent: Json, k: nat): Bytes
    requires parent.JArray? && k <= |parent.items|
    decreases parent, |parent.items| - k
  {
    if k == |parent.items| then [0]
    else [1] + Encode(parent.items[k]) + EncodeItems(parent, k + 1)
  }

  /** The fields of the object `parent` under `keys`, in that order. */
  ghost function EncodeFields(parent: Json, keys: seq<string>): Bytes
    requires parent.JObject? && forall k :: k in keys ==> k in parent.fields
    decreases parent, |keys|
  {
    if keys == [] then [0]
    else [1] + EncodeString(keys[0]) + Encode(parent.fields[keys[0]]) + EncodeFields(parent, keys[1..])
  }

  function Decode(b: Bytes): (r: Option<(Json, Bytes)>)
    ensures r.Some? ==> |r.value.1| < |b|
    decreases |b|
  {
    if b == [] then None
    else if b[0] == 0 then Some((JNull, b[1..]))
    else if b[0] == 1 then
      if |b| >= 2 && b[1] <= 1 then Some((JBool(b[1] == 1), b[2..])) else None
    else if b[0] == 2 then
      match DecodeInt(b[1..])
      case None => None
      case Some((i, rest)) => Some((JInt(i), rest))
    else if b[0] == 3 then
      match DecodeInt(b[1..])
      case None => None
      case Some((m, r1)) =>
        match DecodeNat(r1)
        case None => None
        case Some((e, r2)) => Some((JNumber(Scaled(m, e)), r2))
    else if b[0] == 4 then
      match DecodeString(b[1..])
      case None => None
      case Some((s, rest)) => Some((JString(s), rest))
    else if b[0] == 5 then
      match DecodeItems(b[1..])
      case None => None
      case Some((items, rest)) => Some((JArray(items), rest))
    else if b[0] == 6 then
      match DecodeFields(b[1..])
      case None => None
      case Some((fields, rest)) => Some((JObject(fields), rest))
    else None
  }

  function DecodeItems(b: Bytes): (r: Option<(seq<Json>, Bytes)>)
    ensures r.Some? ==> |r.value.1| < |b|
    decreases |b|
  {
    if b == [] then None
    else if b[0] == 0 then Some(([], b[1..]))
    else if b[0] == 1 then
      match Decode(b[1..])
      case None => None
      case Some((item, r1)) =>
        match DecodeItems(r1)
        case None => None
        case Some((items, r2)) => Some(([item] + items, r2))
    else None
  }

  function DecodeFields(b: Bytes): (r: Option<(map<string, Json>, Bytes)>)
    ensures r.Some? ==> |r.value.1| < |b|
    decreases |b|
  {
    if b == [] then None
    else if b[0] == 0 then Some((map[], b[1..]))
    else if b[0] == 1 then
      match DecodeString(b[1..])
      case None => None
      case Some((key, r1)) =>
        match Decode(r1)
        case None => None
        case Some((value, r2)) =>
          match DecodeFields(r2)
          case None => None
          case Some((fields, r3)) => Some((fields[key := value], r3))
    else None
  }

  /** Every document whose numbers are decimals decodes back from its bytes, leaving what follows. */
  lemma DecodeEncode(j: Json, rest: Bytes)
    requires DecimalNumbers(j)
    ensures Decode(Encode(j) + rest) == Some((j, rest))
    decreases j, 1
  {
    match j {
      case JNull =>
      case JBool(_) =>
      case JInt(i) => DecodeEncodeScalar(j, rest);
      case JNumber(x) => DecodeEncodeScalar(j, rest);
      case JString(s) => DecodeEncodeScalar(j, rest);
      case JArray(items) => DecodeEncodeArray(j, rest);
      case JObject(fields) => DecodeEncodeObject(j, rest);
    }
  }

  lemma DecodeEncodeScalar(j: Json, rest: Bytes)
    requires DecimalNumbers(j) && (j.JInt? || j.JNumber? || j.JString?)
    ensures Decode(Encode(j) + rest) == Some((j, rest))
  {
    match j {
      case JInt(i) => DecodeEncodeJInt(i, rest);
      case JNumber(x) => DecodeEncodeJNumber(x, rest);
      case JString(s) => DecodeEncodeJString(s, rest);
    }
  }

  lemma DecodeEncodeJInt(i: int, rest: Bytes)
    ensures Decode(Encode(JInt(i)) + rest) == Some((JInt(i), rest))
  {
    var b := Encode(JInt(i)) + rest;
    assert b[0] == 2 && b[1..] == EncodeInt(i) + rest;
    DecodeEncodeInt(i, rest);
  }

  lemma DecodeEncodeJNumber(x: real, rest: Bytes)
    requires IsDecimal(x)
    ensures Decode(Encode(JNumber(x)) + rest) == Some((JNumber(x), rest))
  {
    var b := Encode(JNumber(x)) + rest;
    var (m, e) := LawfulFormatters.Representation(x);
    assert b[0] == 3 && b[1..] == EncodeInt(m) + (EncodeNat(e) + rest);
    DecodeEncodeInt(m, EncodeNat(e) + rest);
    DecodeEncodeNat(e, rest);
  }

  lemma DecodeEncodeJString(s: string, rest: Bytes)
    ensures Decode(Encode(JString(s)) + rest) == Some((JString(s), rest))
  {
    var b := Encode(JString(s)) + rest;
    assert b[0] == 4 && b[1..] == EncodeString(s) + rest;
    DecodeEncodeString(s, rest);
  }

  lemma DecodeEncodeArray(j: Json, rest: Bytes)
    requires DecimalNumbers(j) && j.JArray?
    ensures Decode(Encode(j) + rest) == Some((j, rest))
    decreases j, 0
  {
    var b := Encode(j) + rest;
    assert b[0] == 5 && b[1..] == EncodeItems(j, 0) + rest;
    DecodeEncodeItems(j, 0, rest);
    assert j.items[0..] == j.items;
  }

  lemma DecodeEncodeObject(j: Json, rest: Bytes)
    requires DecimalNumbers(j) && j.JObject?
    ensures Decode(Encode(j) + rest) == Some((j, rest))
    decreases j, 0
  {
    var b := Encode(j) + rest;
    var keys := KeyList(j.fields.Keys);
    assert b[0] == 6 && b[1..] == EncodeFields(j, keys) + rest;
    DecodeEncodeFields(j, keys, rest);
    RestrictAll(j.fields, keys);
  }

  /** The fields of `fields` under `keys`. */
  function Restrict(fields: map<string, Json>, keys: seq<string>): (r: map<string, Json>)
    requires forall k :: k in keys ==> k in fields
    ensures forall k :: k in r <==> k in keys
    ensures forall k :: k in r ==> r[k] == fields[k]
  {
    if keys == [] then map[] else Restrict(fields, keys[1..])[keys[0] := fields[keys[0]]]
  }

  lemma RestrictAll(fields: map<string, Json>, keys: seq<string>)
    requires forall k :: k in keys <==> k in fields
    ensures Restrict(fields, keys) == fields
  {
  }

  lemma DecodeEncodeItems(parent: Json, k: nat, rest: Bytes)
    requires parent.JArray? && k <= |parent.items| && DecimalNumbers(parent)
    ensures DecodeItems(EncodeItems(parent, k) + rest) == Some((parent.items[k..], rest))
    decreases parent, 0, |parent.items| - k
  {
    var items := parent.items;
    var b := EncodeItems(parent, k) + rest;
    if k == |items| {
      assert b[0] == 0 && b[1..] == rest;
      assert items[k..] == [];
    } else {
      var tail := EncodeItems(parent, k + 1) + rest;
      assert EncodeItems(parent, k) == [1] + Encode(items[k]) + EncodeItems(parent, k + 1);
      Layout2(1, Encode(items[k]), EncodeItems(parent, k + 1), rest);
      DecodeEncode(items[k], tail);
      DecodeEncodeItems(parent, k + 1, rest);
      DecodeItemsStep(b, items[k], tail, items[k + 1..], rest);
      assert [items[k]] + items[k + 1..] == items[k..];
    }
  }

  /** One item, then the rest of the list. */
  lemma DecodeItemsStep(b: Bytes, item: Json, r1: Bytes, items: seq<Json>, r2: Bytes)
    requires b != [] && b[0] == 1
    requires Decode(b[1..]) == Some((item, r1)) && DecodeItems(r1) == Some((items, r2))
    ensures DecodeItems(b) == Some(([item] + items, r2))
  {
  }

  lemma DecodeEncodeFields(parent: Json, keys: seq<string>, rest: Bytes)
    requires parent.JObject? && DecimalNumbers(parent)
    requires forall k :: k in keys ==> k in parent.fields
    ensures DecodeFields(EncodeFields(parent, keys) + rest) == Some((Restrict(parent.fields, keys), rest))
    decreases parent, 0, |keys|
  {
    var b := EncodeFields(parent, keys) + rest;
    if keys == [] {
      assert b[0] == 0 && b[1..] == rest;
    } else {
      var fields := parent.fields;
      var key := keys[0];
      var tail := EncodeFields(parent, keys[1..]) + rest;
      var r1 := Encode(fields[key]) + tail;
      FieldsLayout(parent, keys, rest);
      DecodeEncodeString(key, r1);
      DecodeEncode(fields[key], tail);
      DecodeEncodeFields(parent, keys[1..], rest);
      DecodeFieldsStep(b, key, r1, fields[key], tail, Restrict(fields, keys[1..]), rest);
    }
  }

  lemma FieldsLayout(parent: Json, keys: seq<string>, rest: Bytes)
    requires parent.JObject? && keys != [] && forall k :: k in keys ==> k in parent.fields
    ensures var b := EncodeFields(parent, keys) + rest;
      b != [] && b[0] == 1 &&
      b[1..] == EncodeString(keys[0]) + (Encode(parent.fields[keys[0]]) + (EncodeFields(parent, keys[1..]) + rest))
  {
    var x, y, z := EncodeString(keys[0]), Encode(parent.fields[keys[0]]), EncodeFields(parent, keys[1..]);
    assert EncodeFields(parent, keys) == [1] + x + y + z;
    Layout(1, x, y, z, rest);
  }

  /** A head followed by two parts and a rest splits after the head. */
  lemma Layout2<T>(h: T, x: seq<T>, y: seq<T>, rest: seq<T>)
    ensures var b := [h] + x + y + rest; b[0] == h && b[1..] == x + (y + rest)
  {
    var b := [h] + x + y + rest;
    assert b == [h] + (x + (y + rest));
  }

  /** A head followed by three parts and a rest splits after the head. */
  lemma Layout<T>(h: T, x: seq<T>, y: seq<T>, z: seq<T>, rest: seq<T>)
    ensures var b := [h] + x + y + z + rest; b[0] == h && b[1..] == x + (y + (z + rest))
  {
    var b := [h] + x + y + z + rest;
    assert b == [h] + (x + (y + (z + rest)));
  }

  /** One key and its value, then the rest of the fields. */
  lemma DecodeFieldsStep(b: Bytes, key: string, r1: Bytes, value: Json, r2: Bytes,
                         fields: map<string, Json>, r3: Bytes)
    requires b != [] && b[0] == 1
    requires DecodeString(b[1..]) == Some((key, r1)) && Decode(r1) == Some((value, r2))
    requires DecodeFields(r2) == Some((fields, r3))
    ensures DecodeFields(b) == Some((fields[key := value], r3))
  {
  }

  function Parse(b: Bytes): Option<Json> {
    match Decode(b)
    case Some((j, rest)) => if rest == [] then Some(j) else None
    case None => None
  }

  ghost function Witness(): JsonData {
    JsonData(j => Encode(j), b => Parse(b))
  }

  /** Some serialization meets `LawfulJsonData`. */
  lemma LawfulJsonDataExists()
    ensures exists d :: LawfulJsonData(d)
  {
    var d := Witness();
    forall j | DecimalNumbers(j)
      ensures d.parse(d.serialize(j)) == Some(j)
    {
      DecodeEncode(j, []);
      assert Encode(j) + [] == Encode(j);
    }
    assert LawfulJsonData(d);
  }
}
