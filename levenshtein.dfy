/**
 * `FuzzySearch.levenshteinDistance`: edit distance computed row by row, and the textbook
 * definition it agrees with.
 */
module Levenshtein {

  function Min3(a: int, b: int, c: int): (r: int)
    ensures r <= a && r <= b && r <= c
    ensures r == a || r == b || r == c
  {
    if a <= b && a <= c then a else if b <= c then b else c
  }

  /**
   * The recurrence the rows follow: the distance between the first `i` characters of `s`
   * and the first `j` of `t`. Equal last characters cost nothing more; otherwise the best
   * of substitution, deletion and insertion, plus one.
   */
  function Rows(s: string, t: string, i: nat, j: nat): nat
    requires i <= |s| && j <= |t|
    decreases i + j
  {
    if i == 0 then j
    else if j == 0 then i
    else if s[i - 1] == t[j - 1] then Rows(s, t, i - 1, j - 1)
    else Min3(Rows(s, t, i - 1, j - 1), Rows(s, t, i - 1, j), Rows(s, t, i, j - 1)) + 1
  }

  /** The textbook edit distance: the cheapest of deleting, inserting or substituting (free when equal). */
  function Standard(s: string, t: string, i: nat, j: nat): nat
    requires i <= |s| && j <= |t|
    decreases i + j
  {
    if i == 0 then j
    else if j == 0 then i
    else Min3(Standard(s, t, i - 1, j) + 1, Standard(s, t, i, j - 1) + 1,
              Standard(s, t, i - 1, j - 1) + (if s[i - 1] == t[j - 1] then 0 else 1))
  }

  /** The Levenshtein distance of two strings. */
  function EditDistance(s: string, t: string): nat {
    Rows(s, t, |s|, |t|)
  }

  /** One row of the table: `last`, row `i`, is the row before this one. */
  ghost predicate IsRow(s: string, t: string, i: nat, row: seq<nat>)
    requires i <= |s|
  {
    |row| == |t| + 1 && forall j :: 0 <= j <= |t| ==> row[j] == Rows(s, t, i, j)
  }

  /** The inner loop of `levenshteinDistance`: the row for `s1[..i + 1]` from the row for `s1[..i]`. */
  method NextRow(s1: string, s2: string, i: nat, last: seq<nat>) returns (cur: seq<nat>)
    requires i < |s1| && IsRow(s1, s2, i, last)
    ensures IsRow(s1, s2, i + 1, cur)
  {
    var n := |s2|;
    cur := [i + 1] + seq(n, _ => 0);
    var j := 0;
    while j < n
      invariant 0 <= j <= n
      invariant |cur| == n + 1
      invariant forall k :: 0 <= k <= j ==> cur[k] == Rows(s1, s2, i + 1, k)
    {
      var v := if s1[i] == s2[j] then last[j] else Min3(last[j], last[j + 1], cur[j]) + 1;
      assert v == Rows(s1, s2, i + 1, j + 1);
      cur := cur[j + 1 := v];
      j := j + 1;
    }
  }

  /** `levenshteinDistance(s1, s2)`: two rows of the table, the previous one and the one being filled. */
  method LevenshteinDistance(s1: string, s2: string) returns (d: nat)
    ensures d == EditDistance(s1, s2)
  {
    var last: seq<nat> := seq(|s2| + 1, j requires 0 <= j <= |s2| => j);
    var i := 0;
    while i < |s1|
      invariant 0 <= i <= |s1|
      invariant IsRow(s1, s2, i, last)
    {
      last := NextRow(s1, s2, i, last);
      i := i + 1;
    }
    d := last[|s2|];
  }

  /** Dropping the last character of `t` lowers the textbook distance by at most one ... */
  lemma {:induction false} DropLastOfT(s: string, t: string, a: nat, b: nat)
    requires a <= |s| && 1 <= b <= |t|
    ensures Standard(s, t, a, b - 1) <= Standard(s, t, a, b) + 1
    decreases a + b
  {
    if a > 0 {
      DeleteStep(s, t, a, b - 1);
      DropLastOfT(s, t, a - 1, b);
    }
  }

  /** ... and so does dropping the last character of `s`. */
  lemma {:induction false} DropLastOfS(s: string, t: string, a: nat, b: nat)
    requires 1 <= a <= |s| && b <= |t|
    ensures Standard(s, t, a - 1, b) <= Standard(s, t, a, b) + 1
    decreases a + b
  {
    if b > 0 {
      InsertStep(s, t, a - 1, b);
      DropLastOfS(s, t, a, b - 1);
    }
  }

  /** One more character of `s` costs at most one more edit. */
  lemma DeleteStep(s: string, t: string, a: nat, c: nat)
    requires 1 <= a <= |s| && c <= |t|
    ensures Standard(s, t, a, c) <= Standard(s, t, a - 1, c) + 1
  {
  }

  /** One more character of `t` costs at most one more edit. */
  lemma InsertStep(s: string, t: string, c: nat, b: nat)
    requires c <= |s| && 1 <= b <= |t|
    ensures Standard(s, t, c, b) <= Standard(s, t, c, b - 1) + 1
  {
  }

  /** The row recurrence is the textbook distance: skipping the minimum on equal characters loses nothing. */
  lemma {:induction false} RowsIsStandard(s: string, t: string, i: nat, j: nat)
    requires i <= |s| && j <= |t|
    ensures Rows(s, t, i, j) == Standard(s, t, i, j)
    decreases i + j
  {
    if i > 0 && j > 0 {
      RowsIsStandard(s, t, i - 1, j - 1);
      RowsIsStandard(s, t, i - 1, j);
      RowsIsStandard(s, t, i, j - 1);
      if s[i - 1] == t[j - 1] {
        DropLastOfT(s, t, i - 1, j);
        DropLastOfS(s, t, i, j - 1);
      }
    }
  }

  /** `levenshteinDistance` computes the textbook edit distance. */
  lemma EditDistanceIsStandard(s: string, t: string)
    ensures EditDistance(s, t) == Standard(s, t, |s|, |t|)
  {
    RowsIsStandard(s, t, |s|, |t|);
  }

  lemma {:induction false} RowsSelf(s: string, i: nat)
    requires i <= |s|
    ensures Rows(s, s, i, i) == 0
  {
    if i > 0 {
      RowsSelf(s, i - 1);
    }
  }

  lemma {:induction false} RowsBound(s: string, t: string, i: nat, j: nat)
    requires i <= |s| && j <= |t|
    ensures Rows(s, t, i, j) <= if i >= j then i else j
    decreases i + j
  {
    if i > 0 && j > 0 {
      RowsBound(s, t, i - 1, j - 1);
    }
  }

  /** A string is at distance 0 from itself, |s| from the empty string, and never more than the longer length away. */
  lemma EditDistanceFacts(s: string, t: string)
    ensures EditDistance(s, s) == 0
    ensures EditDistance(s, "") == |s| && EditDistance("", t) == |t|
    ensures EditDistance(s, t) <= if |s| >= |t| then |s| else |t|
  {
    RowsSelf(s, |s|);
    RowsBound(s, t, |s|, |t|);
  }
}
