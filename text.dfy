/** `components(separatedBy:)` and `joined(separator:)` on strings. */
module Text {

  /** No character of `s` is a separator. */
  predicate NoSeparator(s: string, isSep: char -> bool) {
    forall i :: 0 <= i < |s| ==> !isSep(s[i])
  }

  /**
   * `components(separatedBy:)`: the pieces between separator characters, empty pieces
   * included, so that a string with `k` separators has `k + 1` pieces.
   */
  function SplitWhere(s: string, isSep: char -> bool): (r: seq<string>)
    ensures |r| >= 1
    ensures forall k :: 0 <= k < |r| ==> NoSeparator(r[k], isSep)
  {
    if s == [] then [""]
    else
      var rest := SplitWhere(s[1..], isSep);
      if isSep(s[0]) then [""] + rest
      else [[s[0]] + rest[0]] + rest[1..]
  }

  /** `joined(separator:)` with a one-character separator. */
  function Join(parts: seq<string>, sep: char): string {
    if parts == [] then ""
    else if |parts| == 1 then parts[0]
    else parts[0] + [sep] + Join(parts[1..], sep)
  }

  /** Splitting a string that starts with a separator-free piece puts that piece in front of the first component. */
  lemma {:induction false} SplitPrefix(p: string, tail: string, isSep: char -> bool)
    requires NoSeparator(p, isSep)
    ensures SplitWhere(p + tail, isSep) ==
      [p + SplitWhere(tail, isSep)[0]] + SplitWhere(tail, isSep)[1..]
  {
    if p != [] {
      assert (p + tail)[1..] == p[1..] + tail;
      SplitPrefix(p[1..], tail, isSep);
      assert [p[0]] + (p[1..] + SplitWhere(tail, isSep)[0]) == p + SplitWhere(tail, isSep)[0];
    } else {
      var r := SplitWhere(tail, isSep);
      assert p + tail == tail;
      assert p + r[0] == r[0];
      assert r == [r[0]] + r[1..];
    }
  }

  /** Splitting `a + [sep] + b` at a separator-free `a` gives `a` followed by the pieces of `b`. */
  lemma SplitAfterPiece(a: string, sep: char, b: string, isSep: char -> bool)
    requires NoSeparator(a, isSep) && isSep(sep)
    ensures SplitWhere(a + [sep] + b, isSep) == [a] + SplitWhere(b, isSep)
  {
    assert a + [sep] + b == a + ([sep] + b);
    SplitPrefix(a, [sep] + b, isSep);
    assert ([sep] + b)[1..] == b;
    assert SplitWhere([sep] + b, isSep) == [""] + SplitWhere(b, isSep);
    assert a + "" == a;
  }

  /** Splitting undoes joining, when no piece contains the separator: the pieces come back unchanged. */
  lemma {:induction false} SplitJoin(parts: seq<string>, sep: char, isSep: char -> bool)
    requires |parts| >= 1 && isSep(sep)
    requires forall k :: 0 <= k < |parts| ==> NoSeparator(parts[k], isSep)
    ensures SplitWhere(Join(parts, sep), isSep) == parts
  {
    if |parts| == 1 {
      SplitPrefix(parts[0], "", isSep);
      assert parts[0] + "" == parts[0];
    } else {
      SplitJoin(parts[1..], sep, isSep);
      SplitAfterPiece(parts[0], sep, Join(parts[1..], sep), isSep);
    }
  }

  /** Joining the pieces of a string with its one separator character gives the string back. */
  lemma {:induction false} JoinSplit(s: string, sep: char, isSep: char -> bool)
    requires forall c :: isSep(c) <==> c == sep
    ensures Join(SplitWhere(s, isSep), sep) == s
  {
    if s != [] {
      var rest := SplitWhere(s[1..], isSep);
      JoinSplit(s[1..], sep, isSep);
      if isSep(s[0]) {
        assert s == [sep] + s[1..];
      } else {
        var r := [[s[0]] + rest[0]] + rest[1..];
        if |rest| == 1 {
          assert s == [s[0]] + rest[0];
        } else {
          assert r[1..] == rest[1..];
          assert Join(rest, sep) == rest[0] + [sep] + Join(rest[1..], sep);
          assert s == [s[0]] + s[1..];
        }
      }
    }
  }

  /** Joining `k` pieces with one more piece at the end adds the separator and that piece. */
  lemma {:induction false} JoinSnoc(parts: seq<string>, last: string, sep: char)
    requires |parts| >= 1
    ensures Join(parts + [last], sep) == Join(parts, sep) + [sep] + last
  {
    if |parts| == 1 {
      assert parts + [last] == [parts[0], last];
    } else {
      assert (parts + [last])[1..] == parts[1..] + [last];
      JoinSnoc(parts[1..], last, sep);
    }
  }

  /** Splitting at a separator between two strings gives the pieces of the first, then those of the second. */
  lemma {:induction false} SplitConcat(x: string, sep: char, y: string, isSep: char -> bool)
    requires isSep(sep)
    ensures SplitWhere(x + [sep] + y, isSep) == SplitWhere(x, isSep) + SplitWhere(y, isSep)
  {
    if x == [] {
      assert x + [sep] + y == [sep] + y;
      assert ([sep] + y)[1..] == y;
    } else {
      SplitConcat(x[1..], sep, y, isSep);
      SplitConcatStep(x, sep, y, isSep);
    }
  }

  /** One character in front of both sides of `SplitConcat`. */
  lemma SplitConcatStep(x: string, sep: char, y: string, isSep: char -> bool)
    requires x != [] && isSep(sep)
    requires SplitWhere(x[1..] + [sep] + y, isSep) == SplitWhere(x[1..], isSep) + SplitWhere(y, isSep)
    ensures SplitWhere(x + [sep] + y, isSep) == SplitWhere(x, isSep) + SplitWhere(y, isSep)
  {
    var s := x + [sep] + y;
    var t := x[1..] + [sep] + y;
    assert s == [x[0]] + t;
    assert s[0] == x[0] && s[1..] == t;
    var a, b := SplitWhere(x[1..], isSep), SplitWhere(y, isSep);
    var r := SplitWhere(t, isSep);
    assert r == a + b;
    assert SplitWhere(s, isSep) == if isSep(x[0]) then [""] + r else [[x[0]] + r[0]] + r[1..];
    assert SplitWhere(x, isSep) == if isSep(x[0]) then [""] + a else [[x[0]] + a[0]] + a[1..];
    if isSep(x[0]) {
      AppendAssoc([""], a, b);
    } else {
      var h := [x[0]] + a[0];
      AppendTail(a, b);
      AppendAssoc([h], a[1..], b);
    }
  }

  lemma AppendAssoc<T>(a: seq<T>, b: seq<T>, c: seq<T>)
    ensures a + (b + c) == (a + b) + c
  {
  }

  lemma AppendTail<T>(a: seq<T>, b: seq<T>)
    requires a != []
    ensures (a + b)[0] == a[0] && (a + b)[1..] == a[1..] + b
  {
  }

  /** A string of separator-free pieces splits into those pieces followed by the pieces of the tail. */
  lemma SplitJoinAppend(parts: seq<string>, tail: string, sep: char, isSep: char -> bool)
    requires |parts| >= 1 && isSep(sep)
    requires forall k :: 0 <= k < |parts| ==> NoSeparator(parts[k], isSep)
    ensures SplitWhere(Join(parts, sep) + [sep] + tail, isSep) == parts + SplitWhere(tail, isSep)
  {
    SplitConcat(Join(parts, sep), sep, tail, isSep);
    SplitJoin(parts, sep, isSep);
  }
}
