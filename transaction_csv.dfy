/**
 * The one-line CSV form of a `Transaction`: id, accountId, categoryId, amount,
 * transactionDate, createdAt, updatedAt and, when present, the comment, joined by commas.
 */
module TransactionCsv {
  import opened Wrappers
  import opened Foundation
  import opened IntText
  import opened Text
  import opened Models

  predicate IsComma(c: char) {
    c == ','
  }

  function Components(line: string): seq<string> {
    SplitWhere(line, IsComma)
  }

  /** The fields `csvString` joins: seven fixed ones and the comment when there is one. */
  function Fields(f: Formatters, t: Transaction): (r: seq<string>)
    ensures |r| == if t.comment.Some? then 8 else 7
    ensures t.comment.Some? ==> r[7] == t.comment.value
  {
    [ShowInt(t.id), ShowInt(t.accountId), ShowInt(t.categoryId), f.decimalDescription(t.amount),
     f.isoString(t.transactionDate), f.isoString(t.createdAt), f.isoString(t.updatedAt)]
    + (if t.comment.Some? then [t.comment.value] else [])
  }

  /** `csvString`. */
  function CsvString(f: Formatters, t: Transaction): string {
    Join(Fields(f, t), ',')
  }

  /** The fields 0 to 6 of a line, or `None` when one of them does not parse. */
  function ParseFixed(f: Formatters, c: seq<string>, comment: Option<string>): Option<Transaction>
    requires |c| >= 7
  {
    var id :- ParseInt(c[0]);
    var accountId :- ParseInt(c[1]);
    var categoryId :- ParseInt(c[2]);
    var amount :- f.decimalFromString(c[3]);
    var transactionDate :- f.isoDate(c[4]);
    var createdAt :- f.isoDate(c[5]);
    var updatedAt :- f.isoDate(c[6]);
    Some(Transaction(id, accountId, categoryId, amount, transactionDate, comment, createdAt, updatedAt))
  }

  /** `parse(csvString:)` as written: the comment is component 7 alone, and later components are dropped. */
  function Parse(f: Formatters, line: string): Option<Transaction> {
    var c := Components(line);
    if |c| < 7 then None
    else ParseFixed(f, c, if |c| > 7 then Some(c[7]) else None)
  }

  /**
   * `parse(csvString:)` as evidently intended: the comment is everything after the
   * seventh comma, so a comment that contains commas is kept whole.
   */
  function ParseKeepingComment(f: Formatters, line: string): Option<Transaction> {
    var c := Components(line);
    if |c| < 7 then None
    else ParseFixed(f, c, if |c| > 7 then Some(Join(c[7..], ',')) else None)
  }

  /** Fewer than seven fields is never a transaction. */
  lemma ParseNeedsSevenFields(f: Formatters, line: string)
    requires |Components(line)| < 7
    ensures Parse(f, line).None? && ParseKeepingComment(f, line).None?
  {
  }

  /**
   * A line parses exactly when it has seven fields, the first three are integers, the
   * fourth a decimal and the next three ISO 8601 dates; the fields are then the ones read.
   */
  lemma ParseSucceeds(f: Formatters, line: string)
    ensures var c := Components(line);
      Parse(f, line).Some? <==>
        && |c| >= 7
        && ParseInt(c[0]).Some? && ParseInt(c[1]).Some? && ParseInt(c[2]).Some?
        && f.decimalFromString(c[3]).Some?
        && f.isoDate(c[4]).Some? && f.isoDate(c[5]).Some? && f.isoDate(c[6]).Some?
    ensures var c := Components(line);
      Parse(f, line).Some? ==>
        var t := Parse(f, line).value;
        && ParseInt(c[0]) == Some(t.id) && ParseInt(c[1]) == Some(t.accountId)
        && ParseInt(c[2]) == Some(t.categoryId) && f.decimalFromString(c[3]) == Some(t.amount)
        && f.isoDate(c[4]) == Some(t.transactionDate) && f.isoDate(c[5]) == Some(t.createdAt)
        && f.isoDate(c[6]) == Some(t.updatedAt)
        && t.comment == (if |c| > 7 then Some(c[7]) else None)
  {
  }

  /** Every printed field except the comment is free of commas. */
  lemma FixedFieldsHaveNoComma(f: Formatters, t: Transaction)
    requires Lawful(f)
    ensures forall k :: 0 <= k < 7 ==> NoSeparator(Fields(f, t)[k], IsComma)
  {
    ShowIntHasNoComma(t.id);
    ShowIntHasNoComma(t.accountId);
    ShowIntHasNoComma(t.categoryId);
    var r := Fields(f, t);
    forall k | 0 <= k < 7
      ensures NoSeparator(r[k], IsComma)
    {
      assert ',' !in r[k];
    }
  }

  /** The fixed fields print and parse back to the same values. */
  lemma FixedFieldsParseBack(f: Formatters, t: Transaction, c: seq<string>)
    requires Lawful(f) && IsDecimal(t.amount) && |c| >= 7 && c[..7] == Fields(f, t)[..7]
    ensures ParseFixed(f, c, t.comment) == Some(t)
  {
    assert c[0] == ShowInt(t.id) && c[1] == ShowInt(t.accountId) && c[2] == ShowInt(t.categoryId);
    assert c[3] == f.decimalDescription(t.amount);
    assert c[4] == f.isoString(t.transactionDate) && c[5] == f.isoString(t.createdAt) && c[6] == f.isoString(t.updatedAt);
    ParseShowInt(t.id);
    ParseShowInt(t.accountId);
    ParseShowInt(t.categoryId);
  }

  /** `parse(t.csvString) == t` whenever the comment, if any, contains no comma. */
  lemma ParseCsvString(f: Formatters, t: Transaction)
    requires Lawful(f) && IsDecimal(t.amount)
    requires t.comment.Some? ==> ',' !in t.comment.value
    ensures Parse(f, CsvString(f, t)) == Some(t)
  {
    var r := Fields(f, t);
    FixedFieldsHaveNoComma(f, t);
    if t.comment.Some? {
      assert NoSeparator(r[7], IsComma);
    }
    SplitJoin(r, ',', IsComma);
    FixedFieldsParseBack(f, t, r);
  }

  /** An empty comment prints as a trailing comma and parses back as the empty text, not as no comment. */
  lemma EmptyCommentIsTrailingComma(f: Formatters, t: Transaction)
    requires Lawful(f) && IsDecimal(t.amount) && t.comment == Some("")
    ensures CsvString(f, t) == CsvString(f, t.(comment := None)) + ","
    ensures Parse(f, CsvString(f, t)) == Some(t)
  {
    var none := t.(comment := None);
    assert Fields(f, t) == Fields(f, none) + [""];
    JoinSnoc(Fields(f, none), "", ',');
    ParseCsvString(f, t);
  }

  /** A comment that contains a comma is cut at its first comma by `Parse`. */
  lemma ParseCutsCommentAtComma(f: Formatters, t: Transaction, before: string, after: string)
    requires Lawful(f) && IsDecimal(t.amount)
    requires ',' !in before && t.comment == Some(before + "," + after)
    ensures Parse(f, CsvString(f, t)) == Some(t.(comment := Some(before)))
    ensures Parse(f, CsvString(f, t)) != Some(t)
  {
    var fixed := Fields(f, t)[..7];
    FixedFieldsHaveNoComma(f, t);
    assert Fields(f, t) == fixed + [before + "," + after];
    JoinSnoc(fixed, before + "," + after, ',');
    SplitJoinAppend(fixed, before + "," + after, ',', IsComma);
    assert NoSeparator(before, IsComma);
    SplitAfterPiece(before, ',', after, IsComma);
    var c := Components(CsvString(f, t));
    assert c == fixed + ([before] + SplitWhere(after, IsComma));
    assert c[7] == before;
    FixedFieldsParseBack(f, t.(comment := Some(before)), c);
    assert |before| < |before + "," + after|;
  }

  /** The test line "Test, comment" comes back as "Test": the as-written parser loses part of the comment. */
  lemma CommaCommentExample(f: Formatters, t: Transaction)
    requires Lawful(f) && IsDecimal(t.amount) && t.comment == Some("Test, comment")
    ensures Parse(f, CsvString(f, t)) == Some(t.(comment := Some("Test")))
  {
    assert "Test, comment" == "Test" + "," + " comment";
    ParseCutsCommentAtComma(f, t, "Test", " comment");
  }

  /** The corrected parser round-trips every transaction, whatever its comment. */
  lemma ParseKeepingCommentCsvString(f: Formatters, t: Transaction)
    requires Lawful(f) && IsDecimal(t.amount)
    ensures ParseKeepingComment(f, CsvString(f, t)) == Some(t)
  {
    var r := Fields(f, t);
    FixedFieldsHaveNoComma(f, t);
    var fixed := r[..7];
    match t.comment {
      case None =>
        assert r == fixed;
        SplitJoin(r, ',', IsComma);
        FixedFieldsParseBack(f, t, r);
      case Some(x) =>
        assert r == fixed + [x];
        JoinSnoc(fixed, x, ',');
        SplitJoinAppend(fixed, x, ',', IsComma);
        var c := Components(CsvString(f, t));
        assert c == fixed + SplitWhere(x, IsComma);
        assert c[7..] == SplitWhere(x, IsComma);
        JoinSplit(x, ',', IsComma);
        FixedFieldsParseBack(f, t, c);
    }
  }

  /**
   * Whatever line parses prints as a line that parses back to the same transaction: the
   * amount read is a decimal, and the comment read is one component, so it holds no comma.
   */
  lemma ParsePrintParse(f: Formatters, line: string)
    requires Lawful(f) && Parse(f, line).Some?
    ensures Parse(f, CsvString(f, Parse(f, line).value)) == Parse(f, line)
  {
    var c := Components(line);
    var t := Parse(f, line).value;
    ParseSucceeds(f, line);
    assert IsDecimal(t.amount) by {
      assert f.decimalFromString(c[3]) == Some(t.amount);
    }
    assert t.comment.Some? ==> ',' !in t.comment.value by {
      if |c| > 7 {
        assert NoSeparator(c[7], IsComma);
        assert forall k :: 0 <= k < |c[7]| ==> c[7][k] != ',';
      }
    }
    ParseCsvString(f, t);
  }

  /** Both parsers agree on every line whose comment field holds no further comma. */
  lemma ParsersAgreeWithoutExtraFields(f: Formatters, line: string)
    requires |Components(line)| <= 8
    ensures ParseKeepingComment(f, line) == Parse(f, line)
  {
    var c := Components(line);
    if |c| == 8 {
      assert c[7..] == [c[7]];
    }
  }
}
