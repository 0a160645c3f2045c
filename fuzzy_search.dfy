/**
 * `FuzzySearch`: the category search of the management screen. A query matches a category
 * name when the name contains it, its transliteration either way, or a window of one of
 * its words within one typo of any of the three; matches are ordered by a relevance score.
 */
module FuzzySearch {
  import opened Wrappers
  import opened Foundation
  import opened Models
  import opened Seqs
  import Text
  import opened Levenshtein

  /**
   * The transliteration dictionary, whose keys are all single characters: Cyrillic letters
   * to Latin ones, then Latin letters back to Cyrillic. `None` for a character that is not a key.
   */
  function Mapping(key: char): Option<string> {
    match key
    case 'а' => Some("a")
    case 'б' => Some("b")
    case 'в' => Some("v")
    case 'г' => Some("g")
    case 'д' => Some("d")
    case 'е' => Some("e")
    case 'ё' => Some("e")
    case 'ж' => Some("zh")
    case 'з' => Some("z")
    case 'и' => Some("i")
    case 'й' => Some("y")
    case 'к' => Some("k")
    case 'л' => Some("l")
    case 'м' => Some("m")
    case 'н' => Some("n")
    case 'о' => Some("o")
    case 'п' => Some("p")
    case 'р' => Some("r")
    case 'с' => Some("s")
    case 'т' => Some("t")
    case 'у' => Some("u")
    case 'ф' => Some("f")
    case 'х' => Some("h")
    case 'ц' => Some("ts")
    case 'ч' => Some("ch")
    case 'ш' => Some("sh")
    case 'щ' => Some("sch")
    case 'ъ' => Some("")
    case 'ы' => Some("y")
    case 'ь' => Some("")
    case 'э' => Some("e")
    case 'ю' => Some("yu")
    case 'я' => Some("ya")
    case 'a' => Some("а")
    case 'b' => Some("б")
    case 'c' => Some("к")
    case 'd' => Some("д")
    case 'e' => Some("е")
    case 'f' => Some("ф")
    case 'g' => Some("г")
    case 'h' => Some("х")
    case 'i' => Some("и")
    case 'j' => Some("ж")
    case 'k' => Some("к")
    case 'l' => Some("л")
    case 'm' => Some("м")
    case 'n' => Some("н")
    case 'o' => Some("о")
    case 'p' => Some("п")
    case 'q' => Some("к")
    case 'r' => Some("р")
    case 's' => Some("с")
    case 't' => Some("т")
    case 'u' => Some("у")
    case 'v' => Some("в")
    case 'w' => Some("в")
    case 'x' => Some("кс")
    case 'y' => Some("й")
    case 'z' => Some("з")
    case _ => None
  }

  /**
   * `entries` lists the dictionary's key-value pairs in its iteration order, which
   * the Swift dictionary does not specify: every pair is an entry of `Mapping`, and every
   * entry of `Mapping` is listed.
   */
  predicate IsEnumeration(entries: seq<(char, string)>) {
    && (forall k :: 0 <= k < |entries| ==> Mapping(entries[k].0) == Some(entries[k].1))
    && (forall key :: Mapping(key).Some? ==> (key, Mapping(key).value) in entries)
  }

  predicate HasValue(value: string, e: (char, string)) {
    e.1 == value
  }

  /** `mapping[charStr] ?? charStr`. */
  function Forward(c: char): string {
    Mapping(c).GetOr([c])
  }

  /** `mapping.first(where: { $0.value == charStr })?.key`, falling back to the forward lookup. */
  function Backward(entries: seq<(char, string)>, c: char): string {
    match First(entries, e => HasValue([c], e))
    case Some(e) => [e.0]
    case None => Forward(c)
  }

  function Piece(entries: seq<(char, string)>, reverse: bool, c: char): string {
    if reverse then Backward(entries, c) else Forward(c)
  }

  /** The transliteration of `s`: each character replaced by its piece, in order. */
  function Transliterated(entries: seq<(char, string)>, s: string, reverse: bool): string {
    if s == [] then "" else Transliterated(entries, s[..|s| - 1], reverse) + Piece(entries, reverse, s[|s| - 1])
  }

  /** `transliterate(string, reverse:)`: appends one piece per character to `result`. */
  method Transliterate(entries: seq<(char, string)>, s: string, reverse: bool) returns (result: string)
    ensures result == Transliterated(entries, s, reverse)
  {
    result := "";
    var i := 0;
    while i < |s|
      invariant 0 <= i <= |s|
      invariant result == Transliterated(entries, s[..i], reverse)
    {
      var charStr := s[i];
      if reverse {
        match First(entries, e => HasValue([charStr], e)) {
          case Some(e) => result := result + [e.0];
          case None => result := result + Mapping(charStr).GetOr([charStr]);
        }
      } else {
        result := result + Mapping(charStr).GetOr([charStr]);
      }
      assert s[..i + 1][..i] == s[..i];
      i := i + 1;
    }
    assert s[..|s|] == s;
  }

  /** Forward transliteration replaces a character by its dictionary entry, possibly empty or several letters, and keeps an unmapped one. */
  lemma ForwardPiece(c: char)
    ensures Mapping(c).Some? ==> Forward(c) == Mapping(c).value
    ensures Mapping(c).None? ==> Forward(c) == [c]
  {
  }

  /**
   * Reverse transliteration picks some key whose value is the character (which one, when
   * several share it, depends on the iteration order); when no value is the character it
   * uses the forward entry.
   */
  lemma BackwardPiece(entries: seq<(char, string)>, c: char)
    requires IsEnumeration(entries)
    ensures (exists key :: Mapping(key) == Some([c])) ==>
      |Backward(entries, c)| == 1 && Mapping(Backward(entries, c)[0]) == Some([c])
    ensures (forall key :: Mapping(key) != Some([c])) ==> Backward(entries, c) == Forward(c)
  {
    match First(entries, e => HasValue([c], e))
    case Some(e) =>
    case None =>
      forall key | Mapping(key).Some?
        ensures Mapping(key) != Some([c])
      {
        assert (key, Mapping(key).value) in entries;
      }
  }

  /** Only "е", "ё" and "э" have the value "e". */
  lemma KeysOfE(key: char)
    requires Mapping(key) == Some("e")
    ensures key in {'е', 'ё', 'э'}
  {
  }

  /** Only "c", "k" and "q" have the value "к". */
  lemma KeysOfKa(key: char)
    requires Mapping(key) == Some("к")
    ensures key in {'c', 'k', 'q'}
  {
  }

  /** "е", "ё" and "э" all become "e", so "e" may come back as any of them; "c", "k" and "q" share "к". */
  lemma SharedValues(entries: seq<(char, string)>)
    requires IsEnumeration(entries)
    ensures Backward(entries, 'e') in {"е", "ё", "э"}
    ensures Backward(entries, 'к') in {"c", "k", "q"}
  {
    BackwardOfE(entries);
    BackwardOfKa(entries);
  }

  lemma BackwardOfE(entries: seq<(char, string)>)
    requires IsEnumeration(entries)
    ensures Backward(entries, 'e') in {"е", "ё", "э"}
  {
    assert Mapping('е') == Some("e");
    BackwardPiece(entries, 'e');
    var b := Backward(entries, 'e');
    KeysOfE(b[0]);
    assert b == [b[0]];
  }

  lemma BackwardOfKa(entries: seq<(char, string)>)
    requires IsEnumeration(entries)
    ensures Backward(entries, 'к') in {"c", "k", "q"}
  {
    assert Mapping('k') == Some("к");
    BackwardPiece(entries, 'к');
    var b := Backward(entries, 'к');
    KeysOfKa(b[0]);
    assert b == [b[0]];
  }

  /** No key has the value "x", so reverse transliteration falls back to its forward entry. */
  lemma ReverseFallsBack(entries: seq<(char, string)>)
    requires IsEnumeration(entries)
    ensures Backward(entries, 'x') == "кс"
  {
    forall key
      ensures Mapping(key) != Some("x")
    {
    }
    BackwardPiece(entries, 'x');
  }

  /** `.whitespacesAndNewlines`: the Unicode space separators, tab, the line and paragraph separators and the other line breaks. */
  predicate IsWhitespaceOrNewline(c: char) {
    || '\U{0009}' <= c <= '\U{000D}' || c == ' ' || c == '\U{0085}' || c == '\U{00A0}' || c == '\U{1680}'
    || '\U{2000}' <= c <= '\U{200A}' || c == '\U{2028}' || c == '\U{2029}' || c == '\U{202F}'
    || c == '\U{205F}' || c == '\U{3000}'
  }

  /** `components(separatedBy: .whitespacesAndNewlines)`. */
  function Words(s: string): (r: seq<string>)
    ensures |r| >= 1
  {
    Text.SplitWhere(s, IsWhitespaceOrNewline)
  }

  /** The `n` characters of `s` from offset `i`. */
  function Window(s: string, i: nat, n: nat): (r: string)
    requires i + n <= |s|
    ensures |r| == n
  {
    s[i..i + n]
  }

  /** Some window of `word` as long as `sub` is at most one edit away from it. */
  predicate HasTypoWindow(word: string, sub: string) {
    exists i: nat :: i + |sub| <= |word| && EditDistance(Window(word, i, |sub|), sub) <= 1
  }

  /** What `containsWithTypos` decides: a substring of three or more characters is one typo away from a window of some word. */
  predicate TypoMatch(s: string, sub: string) {
    |sub| >= 3 && exists k :: 0 <= k < |Words(s)| && HasTypoWindow(Words(s)[k], sub)
  }

  /** `containsWithTypos(string, substring)`: every word long enough, every window, stopping at the first near match. */
  method ContainsWithTypos(s: string, sub: string) returns (r: bool)
    ensures r == TypoMatch(s, sub)
    ensures |sub| < 3 ==> !r
  {
    if |sub| < 3 {
      return false;
    }
    var words := Words(s);
    var k := 0;
    while k < |words|
      invariant 0 <= k <= |words|
      invariant forall m :: 0 <= m < k ==> !HasTypoWindow(words[m], sub)
    {
      var word := words[k];
      if |word| >= |sub| {
        var i := 0;
        while i <= |word| - |sub|
          invariant 0 <= i <= |word| - |sub| + 1
          invariant forall m: nat :: m < i ==> EditDistance(Window(word, m, |sub|), sub) > 1
        {
          var chunk := Window(word, i, |sub|);
          var d := LevenshteinDistance(chunk, sub);
          if d <= 1 {
            assert EditDistance(Window(words[k], i, |sub|), sub) <= 1;
            assert HasTypoWindow(words[k], sub);
            return true;
          }
          
          i := i + 1;
        }
        assert !HasTypoWindow(words[k], sub);
      } else {
        assert !HasTypoWindow(words[k], sub);
      }
      k := k + 1;
    }
    return false;
  }

  /** `String.contains`: `sub` occurs in `s` at some offset (the empty string occurs everywhere). */
  predicate Contains(s: string, sub: string) {
    exists i: nat :: i + |sub| <= |s| && Window(s, i, |sub|) == sub
  }

  function Max(a: int, b: int): int {
    if a >= b then a else b
  }

  function Min(a: int, b: int): int {
    if a <= b then a else b
  }

  /**
   * `relevanceScore(categoryName, searchText)`: 100 for an exact match, 50 for a prefix, 30
   * for a substring (each against the query or its reverse transliteration), and up to 20
   * more the closer the name is to either. Exact matches, and only they, reach 100.
   */
  function RelevanceScore(f: Formatters, entries: seq<(char, string)>, categoryName: string, searchText: string): (r: int)
    ensures 0 <= r <= 200
    ensures r >= 100 <==> (f.lowercased(categoryName) == f.lowercased(searchText) ||
      f.lowercased(categoryName) == Transliterated(entries, f.lowercased(searchText), true))
  {
    var name := f.lowercased(categoryName);
    var search := f.lowercased(searchText);
    var transliterated := Transliterated(entries, search, true);
    var exact := if name == search || name == transliterated then 100 else 0;
    var prefix := if search <= name || transliterated <= name then 50 else 0;
    var substring := if Contains(name, search) || Contains(name, transliterated) then 30 else 0;
    var distance := Min(EditDistance(name, search), EditDistance(name, transliterated));
    ZeroDistance(name, search);
    ZeroDistance(name, transliterated);
    exact + prefix + substring + Max(0, 20 - distance * 5)
  }

  lemma {:induction false} RowsZero(s: string, t: string, i: nat, j: nat)
    requires i <= |s| && j <= |t|
    requires Rows(s, t, i, j) == 0
    ensures i == j && s[..i] == t[..j]
    decreases i + j
  {
    if i > 0 && j > 0 {
      RowsZero(s, t, i - 1, j - 1);
      assert s[..i] == s[..i - 1] + [s[i - 1]];
      assert t[..j] == t[..j - 1] + [t[j - 1]];
    }
  }

  /** Only equal strings are at distance zero. */
  lemma ZeroDistance(s: string, t: string)
    ensures EditDistance(s, t) == 0 <==> s == t
  {
    EditDistanceFacts(s, t);
    if EditDistance(s, t) == 0 {
      RowsZero(s, t, |s|, |t|);
      assert s == s[..|s|] && t == t[..|t|];
    }
  }

  /** A name equal to the query scores the maximum. */
  lemma ExactMatchScoresMost(f: Formatters, entries: seq<(char, string)>, categoryName: string, searchText: string)
    requires f.lowercased(categoryName) == f.lowercased(searchText)
    ensures RelevanceScore(f, entries, categoryName, searchText) == 200
  {
    var name := f.lowercased(categoryName);
    ZeroDistance(name, name);
    assert Window(name, 0, |name|) == name;
    assert Contains(name, name);
    assert name <= name;
  }

  /** The filter of `search`: the name contains, or nearly contains, the query or one of its transliterations. */
  predicate IsMatch(f: Formatters, entries: seq<(char, string)>, query: string, c: Category) {
    var name := f.lowercased(c.name);
    var toCyrillic := Transliterated(entries, query, true);
    var toLatin := Transliterated(entries, query, false);
    || Contains(name, query) || Contains(name, toCyrillic) || Contains(name, toLatin)
    || TypoMatch(name, query) || TypoMatch(name, toCyrillic) || TypoMatch(name, toLatin)
  }

  function Score(f: Formatters, entries: seq<(char, string)>, query: string, c: Category): real {
    RelevanceScore(f, entries, c.name, query) as real
  }

  /** `search(text:in:)`. */
  function Search(f: Formatters, entries: seq<(char, string)>, text: string, categories: seq<Category>): (r: seq<Category>)
    ensures f.lowercased(text) == "" ==> r == categories
    ensures |r| <= |categories|
  {
    var query := f.lowercased(text);
    if query == "" then categories
    else SortBy(Filter(categories, c => IsMatch(f, entries, query, c)), c => Score(f, entries, query, c), true)
  }

  /**
   * For a non-empty query the result holds exactly the matching categories, each as often
   * as in the input, ordered by non-increasing relevance with every score taken in the one
   * dictionary order `entries` (see `SearchOrderedInEveryOrder` for scores taken in others).
   */
  lemma SearchResult(f: Formatters, entries: seq<(char, string)>, text: string, categories: seq<Category>)
    requires f.lowercased(text) != ""
    ensures multiset(Search(f, entries, text, categories)) ==
      multiset(Filter(categories, c => IsMatch(f, entries, f.lowercased(text), c)))
    ensures forall c :: multiset(Search(f, entries, text, categories))[c] ==
                        if IsMatch(f, entries, f.lowercased(text), c) then multiset(categories)[c] else 0
    ensures multiset(Search(f, entries, text, categories)) <= multiset(categories)
    ensures forall c :: c in Search(f, entries, text, categories) <==>
      c in categories && IsMatch(f, entries, f.lowercased(text), c)
    ensures forall i, j :: 0 <= i < j < |Search(f, entries, text, categories)| ==>
      RelevanceScore(f, entries, Search(f, entries, text, categories)[i].name, f.lowercased(text)) >=
      RelevanceScore(f, entries, Search(f, entries, text, categories)[j].name, f.lowercased(text))
  {
    var query := f.lowercased(text);
    var kept := Filter(categories, c => IsMatch(f, entries, query, c));
    var r := Search(f, entries, text, categories);
    assert r == SortBy(kept, c => Score(f, entries, query, c), true);
    FilterSubMultiset(categories, c => IsMatch(f, entries, query, c));
    forall c
      ensures c in r <==> c in categories && IsMatch(f, entries, query, c)
      ensures multiset(r)[c] == if IsMatch(f, entries, query, c) then multiset(categories)[c] else 0
    {
      FilterMember(categories, c => IsMatch(f, entries, query, c), c);
      FilterCount(categories, c => IsMatch(f, entries, query, c), c);
      assert c in r <==> c in multiset(r);
    }
  }

  /** At most one key of the table has the one-character value `c`, so reversing `c` needs no choice. */
  predicate Unshared(c: char) {
    forall k1, k2 :: Mapping(k1) == Some([c]) && Mapping(k2) == Some([c]) ==> k1 == k2
  }

  /** A character no two keys share reverses the same way whatever order the dictionary is listed in. */
  lemma BackwardAgrees(e1: seq<(char, string)>, e2: seq<(char, string)>, c: char)
    requires IsEnumeration(e1) && IsEnumeration(e2) && Unshared(c)
    ensures Backward(e1, c) == Backward(e2, c)
  {
    BackwardPiece(e1, c);
    BackwardPiece(e2, c);
    if exists key :: Mapping(key) == Some([c]) {
      var b1, b2 := Backward(e1, c), Backward(e2, c);
      assert b1 == [b1[0]] && b2 == [b2[0]];
    }
  }

  /** A text of such characters reverse-transliterates the same way in every dictionary order. */
  lemma {:induction false} TransliteratedAgrees(e1: seq<(char, string)>, e2: seq<(char, string)>, s: string)
    requires IsEnumeration(e1) && IsEnumeration(e2)
    requires forall k :: 0 <= k < |s| ==> Unshared(s[k])
    ensures Transliterated(e1, s, true) == Transliterated(e2, s, true)
  {
    if s != [] {
      TransliteratedAgrees(e1, e2, s[..|s| - 1]);
      BackwardAgrees(e1, e2, s[|s| - 1]);
    }
  }

  /** `relevanceScore` then gives the same score in every dictionary order. */
  lemma ScoreAgrees(f: Formatters, e1: seq<(char, string)>, e2: seq<(char, string)>, categoryName: string, searchText: string)
    requires IsEnumeration(e1) && IsEnumeration(e2)
    requires forall k :: 0 <= k < |f.lowercased(searchText)| ==> Unshared(f.lowercased(searchText)[k])
    ensures RelevanceScore(f, e1, categoryName, searchText) == RelevanceScore(f, e2, categoryName, searchText)
  {
    TransliteratedAgrees(e1, e2, f.lowercased(searchText));
  }

  /**
   * `relevanceScore` builds its dictionary afresh on every call, so each call may list it
   * in another order. For a query none of whose characters is a value several keys share,
   * the result of `search` is ordered by non-increasing relevance in every such order.
   */
  lemma SearchOrderedInEveryOrder(f: Formatters, entries: seq<(char, string)>, other: seq<(char, string)>,
                                  text: string, categories: seq<Category>)
    requires IsEnumeration(entries) && IsEnumeration(other) && f.lowercased(text) != ""
    requires forall k :: 0 <= k < |f.lowercased(f.lowercased(text))| ==> Unshared(f.lowercased(f.lowercased(text))[k])
    ensures forall i, j :: 0 <= i < j < |Search(f, entries, text, categories)| ==>
      RelevanceScore(f, other, Search(f, entries, text, categories)[i].name, f.lowercased(text)) >=
      RelevanceScore(f, other, Search(f, entries, text, categories)[j].name, f.lowercased(text))
  {
    var r := Search(f, entries, text, categories);
    SearchResult(f, entries, text, categories);
    forall i, j | 0 <= i < j < |r|
      ensures RelevanceScore(f, other, r[i].name, f.lowercased(text)) >= RelevanceScore(f, other, r[j].name, f.lowercased(text))
    {
      ScoreAgrees(f, entries, other, r[i].name, f.lowercased(text));
      ScoreAgrees(f, entries, other, r[j].name, f.lowercased(text));
    }
  }
}
