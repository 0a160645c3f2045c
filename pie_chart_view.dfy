/**
 * `PieChartView`: the colours of the pie chart. A colour is decoded from hex text of 3, 6 or
 * 8 digits; only the first six entities get a segment and a legend row, one per palette
 * colour.
 */
module PieChartView {
  import opened Foundation
  import opened Seqs

  /** `Entity`: one slice's value and its `label` (a reserved word in Dafny, hence `caption`). */
  datatype Entity = Entity(value: Decimal, caption: string)

  /** The integer channels `UIColor(hex:)` computes before dividing each by 255. */
  datatype Rgba = Rgba(alpha: int, red: int, green: int, blue: int)

  predicate InByteRange(c: Rgba) {
    0 <= c.alpha <= 255 && 0 <= c.red <= 255 && 0 <= c.green <= 255 && 0 <= c.blue <= 255
  }

  /** Membership in `CharacterSet.alphanumerics`, for ASCII text. */
  predicate IsAlphanumeric(c: char) {
    '0' <= c <= '9' || 'a' <= c <= 'z' || 'A' <= c <= 'Z'
  }

  function TrimStart(s: string): (r: string)
    ensures r != [] ==> IsAlphanumeric(r[0])
    ensures |r| <= |s|
    ensures forall k :: 0 <= k < |s| - |r| ==> !IsAlphanumeric(s[k])
    ensures r == s[|s| - |r|..]
  {
    if s == [] || IsAlphanumeric(s[0]) then s
    else TrimStart(s[1..])
  }

  function TrimEnd(s: string): (r: string)
    ensures r != [] ==> IsAlphanumeric(r[|r| - 1])
    ensures |r| <= |s|
    ensures forall k :: |r| <= k < |s| ==> !IsAlphanumeric(s[k])
    ensures r == s[..|r|]
  {
    if s == [] || IsAlphanumeric(s[|s| - 1]) then s
    else TrimEnd(s[..|s| - 1])
  }

  /**
   * `r` is the stretch of `s` from offset `i` on, and only non-alphanumeric characters of
   * `s` lie before it or after it.
   */
  predicate IsStretch(s: string, i: nat, r: string) {
    && i + |r| <= |s| && r == s[i..i + |r|]
    && (forall k :: 0 <= k < i ==> !IsAlphanumeric(s[k]))
    && (forall k :: i + |r| <= k < |s| ==> !IsAlphanumeric(s[k]))
  }

  /** `trimmingCharacters(in: .alphanumerics.inverted)`: non-alphanumerics dropped from both ends. */
  function Trimmed(s: string): (r: string)
    ensures r != [] ==> IsAlphanumeric(r[0]) && IsAlphanumeric(r[|r| - 1])
    ensures |r| <= |s|
  {
    TrimEnd(TrimStart(s))
  }

  /**
   * Trimming keeps the stretch of `s` that follows its leading non-alphanumerics and
   * starts and ends with an alphanumeric character: only non-alphanumerics are cut.
   */
  lemma TrimmedIsStretch(s: string)
    ensures Trimmed(s) != [] ==> IsAlphanumeric(Trimmed(s)[0]) && IsAlphanumeric(Trimmed(s)[|Trimmed(s)| - 1])
    ensures IsStretch(s, |s| - |TrimStart(s)|, Trimmed(s))
  {
    SuffixPrefix(s, TrimStart(s), TrimEnd(TrimStart(s)));
  }

  /** A prefix `r` of a suffix `t` of `s` is a stretch of `s`, when only non-alphanumerics lie around it. */
  lemma SuffixPrefix(s: string, t: string, r: string)
    requires |t| <= |s| && t == s[|s| - |t|..] && |r| <= |t| && r == t[..|r|]
    requires forall k :: 0 <= k < |s| - |t| ==> !IsAlphanumeric(s[k])
    requires forall k :: |r| <= k < |t| ==> !IsAlphanumeric(t[k])
    ensures IsStretch(s, |s| - |t|, r)
  {
    var i := |s| - |t|;
    forall k | i + |r| <= k < |s|
      ensures !IsAlphanumeric(s[k])
    {
      assert s[k] == t[k - i];
    }
  }

  predicate IsHexDigit(c: char) {
    '0' <= c <= '9' || 'a' <= c <= 'f' || 'A' <= c <= 'F'
  }

  function DigitValue(c: char): (r: nat)
    requires IsHexDigit(c)
    ensures r < 16
  {
    if '0' <= c <= '9' then c as int - '0' as int
    else if 'a' <= c <= 'f' then c as int - 'a' as int + 10
    else c as int - 'A' as int + 10
  }

  function Pow16(n: nat): (r: nat)
    ensures r >= 1
  {
    if n == 0 then 1 else 16 * Pow16(n - 1)
  }

  /** The length of the leading run of hex digits. */
  function HexRun(s: string): (r: nat)
    ensures r <= |s|
    ensures forall k :: 0 <= k < r ==> IsHexDigit(s[k])
    ensures r < |s| ==> !IsHexDigit(s[r])
  {
    if s == [] || !IsHexDigit(s[0]) then 0 else 1 + HexRun(s[1..])
  }

  /** The value of a run of hex digits, most significant first. */
  function HexValue(s: string): (r: nat)
    requires forall k :: 0 <= k < |s| ==> IsHexDigit(s[k])
    ensures r < Pow16(|s|)
  {
    if s == [] then 0 else HexValue(s[..|s| - 1]) * 16 + DigitValue(s[|s| - 1])
  }

  /**
   * `Scanner.scanHexInt64`: an optional "0x" or "0X", then the longest run of hex digits;
   * 0 when there is none.
   */
  function ScanHex(s: string): (r: nat)
    ensures r < Pow16(|s|)
  {
    var t := if |s| >= 2 && s[0] == '0' && (s[1] == 'x' || s[1] == 'X') then s[2..] else s;
    var n := HexRun(t);
    PowMonotonic(n, |s|);
    HexValue(t[..n])
  }

  lemma {:induction false} PowMonotonic(a: nat, b: nat)
    requires a <= b
    ensures Pow16(a) <= Pow16(b)
  {
    if a < b {
      PowMonotonic(a, b - 1);
    }
  }

  /** Three digits: `(int >> 8) * 17`, `(int >> 4 & 0xF) * 17`, `(int & 0xF) * 17`, opaque. */
  function FromThree(n: nat): (c: Rgba)
    requires n < 0x1000
    ensures InByteRange(c) && c.alpha == 255
  {
    var r, g, b := n / 0x100, n / 0x10 % 0x10, n % 0x10;
    assert r < 0x10;
    Rgba(255, r * 17, g * 17, b * 17)
  }

  /** Six digits: `int >> 16`, `int >> 8 & 0xFF`, `int & 0xFF`, opaque. */
  function FromSix(n: nat): (c: Rgba)
    requires n < 0x100_0000
    ensures InByteRange(c) && c.alpha == 255
  {
    Rgba(255, n / 0x1_0000, n / 0x100 % 0x100, n % 0x100)
  }

  /** Eight digits: the top byte `int >> 24` is alpha, then red, green and blue. */
  function FromEight(n: nat): (c: Rgba)
    requires n < 0x1_0000_0000
    ensures InByteRange(c)
  {
    Rgba(n / 0x100_0000, n / 0x1_0000 % 0x100, n / 0x100 % 0x100, n % 0x100)
  }

  const OPAQUE_BLACK: Rgba := Rgba(255, 0, 0, 0)

  /**
   * `UIColor(hex:)`: three digits are nibbles scaled by 17, six are RGB bytes, eight are
   * ARGB bytes; alpha is opaque unless given, and any other length is opaque black.
   */
  function HexColor(hex: string): (c: Rgba)
    ensures InByteRange(c)
    ensures |Trimmed(hex)| != 3 && |Trimmed(hex)| != 6 && |Trimmed(hex)| != 8 ==> c == OPAQUE_BLACK
    ensures |Trimmed(hex)| == 3 || |Trimmed(hex)| == 6 ==> c.alpha == 255
  {
    var h := Trimmed(hex);
    var n := ScanHex(h);
    if |h| == 3 then
      assert Pow16(3) == 0x1000;
      FromThree(n)
    else if |h| == 6 then
      assert Pow16(6) == 0x100_0000;
      FromSix(n)
    else if |h| == 8 then
      assert Pow16(8) == 0x1_0000_0000;
      FromEight(n)
    else OPAQUE_BLACK
  }

  /** Text that is all alphanumeric is not trimmed. */
  lemma TrimKeepsAlphanumeric(s: string)
    requires forall k :: 0 <= k < |s| ==> IsAlphanumeric(s[k])
    ensures Trimmed(s) == s
  {
  }

  /** Each digit shifts the value read so far by four bits. */
  lemma HexPrefixes(s: string)
    requires forall k :: 0 <= k < |s| ==> IsHexDigit(s[k])
    ensures forall k :: 0 <= k < |s| ==> HexValue(s[..k + 1]) == HexValue(s[..k]) * 16 + DigitValue(s[k])
  {
    forall k | 0 <= k < |s|
      ensures HexValue(s[..k + 1]) == HexValue(s[..k]) * 16 + DigitValue(s[k])
    {
      assert s[..k + 1][..k] == s[..k];
    }
  }

  /** The text a colour is scanned from, when it is exactly its digits. */
  lemma ScansAllDigits(s: string)
    requires forall k :: 0 <= k < |s| ==> IsHexDigit(s[k])
    requires |s| >= 2 ==> s[1] != 'x' && s[1] != 'X'
    ensures ScanHex(s) == HexValue(s)
  {
    var n := HexRun(s);
    assert n == |s|;
    assert s[..n] == s;
  }

  /** The byte two hex digits at `i` spell. */
  function ByteAt(s: string, i: nat): (r: nat)
    requires i + 1 < |s| && IsHexDigit(s[i]) && IsHexDigit(s[i + 1])
    ensures r < 0x100
  {
    DigitValue(s[i]) * 16 + DigitValue(s[i + 1])
  }

  lemma ThreeDigitValue(s: string)
    requires |s| == 3 && forall k :: 0 <= k < 3 ==> IsHexDigit(s[k])
    ensures HexValue(s) == DigitValue(s[0]) * 0x100 + DigitValue(s[1]) * 0x10 + DigitValue(s[2])
  {
    HexPrefixes(s);
    assert s[..3] == s && s[..0] == [];
  }

  lemma SixDigitValue(s: string)
    requires |s| == 6 && forall k :: 0 <= k < 6 ==> IsHexDigit(s[k])
    ensures HexValue(s) == ByteAt(s, 0) * 0x1_0000 + ByteAt(s, 2) * 0x100 + ByteAt(s, 4)
  {
    HexPrefixes(s);
    assert s[..6] == s && s[..0] == [];
  }

  lemma EightDigitValue(s: string)
    requires |s| == 8 && forall k :: 0 <= k < 8 ==> IsHexDigit(s[k])
    ensures HexValue(s) == ByteAt(s, 0) * 0x100_0000 + ByteAt(s, 2) * 0x1_0000 + ByteAt(s, 4) * 0x100 + ByteAt(s, 6)
  {
    HexPrefixes(s);
    assert s[..8] == s && s[..0] == [];
  }

  /** Splitting a number at a power of the base: the quotient and remainder of `q * m + r`. */
  lemma {:induction false} DivMod(q: nat, r: nat, m: nat)
    requires 0 <= r < m
    ensures (q * m + r) / m == q && (q * m + r) % m == r
  {
    var n := q * m + r;
    var q', r' := n / m, n % m;
    assert n == q' * m + r';
    if q' < q {
      MulGrows(q - q', m);
    } else if q' > q {
      MulGrows(q' - q, m);
    }
  }

  lemma MulGrows(k: int, m: nat)
    requires k >= 1
    ensures k * m >= m
  {
    assert k * m == (k - 1) * m + m;
  }

  lemma Nibbles(s: string)
    requires |s| == 3 && forall k :: 0 <= k < 3 ==> IsHexDigit(s[k])
    ensures HexValue(s) < 0x1000
    ensures FromThree(HexValue(s)) == Rgba(255, DigitValue(s[0]) * 17, DigitValue(s[1]) * 17, DigitValue(s[2]) * 17)
  {
    ThreeDigitValue(s);
    var a, b, c := DigitValue(s[0]), DigitValue(s[1]), DigitValue(s[2]);
    DivMod(a, b * 0x10 + c, 0x100);
    DivMod(a * 0x10 + b, c, 0x10);
    DivMod(a, b, 0x10);
  }

  lemma RgbBytes(s: string)
    requires |s| == 6 && forall k :: 0 <= k < 6 ==> IsHexDigit(s[k])
    ensures HexValue(s) < 0x100_0000
    ensures FromSix(HexValue(s)) == Rgba(255, ByteAt(s, 0), ByteAt(s, 2), ByteAt(s, 4))
  {
    var r, g, b := ByteAt(s, 0), ByteAt(s, 2), ByteAt(s, 4);
    SixDigitValue(s);
    SixBytes(r, g, b);
  }

  /** Three bytes packed most significant first unpack to the same three bytes, opaque. */
  lemma SixBytes(r: nat, g: nat, b: nat)
    requires r < 0x100 && g < 0x100 && b < 0x100
    ensures r * 0x1_0000 + g * 0x100 + b < 0x100_0000
    ensures FromSix(r * 0x1_0000 + g * 0x100 + b) == Rgba(255, r, g, b)
  {
    DivMod(r, g * 0x100 + b, 0x1_0000);
    assert r * 0x1_0000 + g * 0x100 + b == (r * 0x100 + g) * 0x100 + b;
    DivMod(r * 0x100 + g, b, 0x100);
    DivMod(r, g, 0x100);
  }

  lemma ArgbBytes(s: string)
    requires |s| == 8 && forall k :: 0 <= k < 8 ==> IsHexDigit(s[k])
    ensures HexValue(s) < 0x1_0000_0000
    ensures FromEight(HexValue(s)) == Rgba(ByteAt(s, 0), ByteAt(s, 2), ByteAt(s, 4), ByteAt(s, 6))
  {
    var a, r, g, b := ByteAt(s, 0), ByteAt(s, 2), ByteAt(s, 4), ByteAt(s, 6);
    EightDigitValue(s);
    EightBytes(a, r, g, b);
  }

  /** Four bytes packed most significant first unpack to the same four bytes. */
  lemma EightBytes(a: nat, r: nat, g: nat, b: nat)
    requires a < 0x100 && r < 0x100 && g < 0x100 && b < 0x100
    ensures a * 0x100_0000 + r * 0x1_0000 + g * 0x100 + b < 0x1_0000_0000
    ensures FromEight(a * 0x100_0000 + r * 0x1_0000 + g * 0x100 + b) == Rgba(a, r, g, b)
  {
    var n := a * 0x100_0000 + r * 0x1_0000 + g * 0x100 + b;
    var low := g * 0x100 + b;
    DivMod(a, r * 0x1_0000 + low, 0x100_0000);
    assert n == (a * 0x100 + r) * 0x1_0000 + low;
    DivMod(a * 0x100 + r, low, 0x1_0000);
    DivMod(a, r, 0x100);
    assert n == ((a * 0x100 + r) * 0x100 + g) * 0x100 + b;
    DivMod((a * 0x100 + r) * 0x100 + g, b, 0x100);
    DivMod(a * 0x100 + r, g, 0x100);
  }

  /** Three hex digits give one nibble per channel, each scaled by 17. */
  lemma ThreeDigits(hex: string, s: string)
    requires s == Trimmed(hex) && |s| == 3 && forall k :: 0 <= k < 3 ==> IsHexDigit(s[k])
    requires s[1] != 'x' && s[1] != 'X'
    ensures HexColor(hex) == Rgba(255, DigitValue(s[0]) * 17, DigitValue(s[1]) * 17, DigitValue(s[2]) * 17)
  {
    ScansAllDigits(s);
    Nibbles(s);
  }

  /** Six hex digits: red, green and blue bytes, opaque. */
  lemma SixDigits(hex: string, s: string)
    requires s == Trimmed(hex) && |s| == 6 && forall k :: 0 <= k < 6 ==> IsHexDigit(s[k])
    requires s[1] != 'x' && s[1] != 'X'
    ensures HexColor(hex) == Rgba(255, ByteAt(s, 0), ByteAt(s, 2), ByteAt(s, 4))
  {
    ScansAllDigits(s);
    RgbBytes(s);
  }

  /** Eight hex digits: a leading byte for alpha, then red, green and blue. */
  lemma EightDigits(hex: string, s: string)
    requires s == Trimmed(hex) && |s| == 8 && forall k :: 0 <= k < 8 ==> IsHexDigit(s[k])
    requires s[1] != 'x' && s[1] != 'X'
    ensures HexColor(hex) == Rgba(ByteAt(s, 0), ByteAt(s, 2), ByteAt(s, 4), ByteAt(s, 6))
  {
    ScansAllDigits(s);
    ArgbBytes(s);
  }

  /** The hex text of `segmentColors`, the palette with one colour per drawn slice. */
  const SEGMENT_HEX: seq<string> := ["#2AE881", "#FCE300", "#FF9500", "#FF2D55", "#AF52DE", "#F2F2F2"]

  /** The colour of the slice at `index`. */
  function SegmentColor(index: nat): (c: Rgba)
    requires index < |SEGMENT_HEX|
    ensures InByteRange(c)
  {
    HexColor(SEGMENT_HEX[index])
  }

  /** A leading "#" is trimmed away. */
  lemma TrimsHash(hex: string)
    requires |hex| > 1 && hex[0] == '#' && forall k :: 1 <= k < |hex| ==> IsAlphanumeric(hex[k])
    ensures Trimmed(hex) == hex[1..]
  {
    var digits := hex[1..];
    assert IsAlphanumeric(digits[0]) && IsAlphanumeric(digits[|digits| - 1]);
    assert TrimStart(hex) == TrimStart(digits) == digits;
  }

  /** "#" and six hex digits: an opaque colour of the three bytes they spell. */
  lemma HashAndSixDigits(hex: string)
    requires |hex| == 7 && hex[0] == '#' && forall k :: 1 <= k < 7 ==> IsHexDigit(hex[k])
    ensures HexColor(hex) == Rgba(255, ByteAt(hex, 1), ByteAt(hex, 3), ByteAt(hex, 5))
  {
    var digits := hex[1..];
    TrimsHash(hex);
    SixDigits(hex, digits);
    assert ByteAt(digits, 0) == ByteAt(hex, 1);
    assert ByteAt(digits, 2) == ByteAt(hex, 3);
    assert ByteAt(digits, 4) == ByteAt(hex, 5);
  }

  /** The first slice is drawn in #2AE881: red 0x2A, green 0xE8, blue 0x81. */
  lemma FirstSegmentColor()
    ensures SegmentColor(0) == Rgba(255, 0x2A, 0xE8, 0x81)
  {
    var hex := SEGMENT_HEX[0];
    assert hex[1] == '2' && hex[2] == 'A' && hex[3] == 'E' && hex[4] == '8' && hex[5] == '8' && hex[6] == '1';
    HashAndSixDigits(hex);
  }

  /** Every palette colour is opaque. */
  lemma PaletteIsOpaque(index: nat)
    requires index < |SEGMENT_HEX|
    ensures SegmentColor(index).alpha == 255
  {
    HashAndSixDigits(SEGMENT_HEX[index]);
  }

  /** The number of slices drawn: `prefix(6)`. */
  function Drawn(entities: seq<Entity>): (r: nat)
    ensures r <= 6 && r <= |entities|
    ensures r == |entities| || r == 6
  {
    if |entities| < 6 then |entities| else 6
  }

  /** The rows of the legend: each of the first six entities with its palette colour. */
  function LegendRows(entities: seq<Entity>): (r: seq<(Rgba, string)>)
    ensures |r| == Drawn(entities)
    ensures forall i :: 0 <= i < |r| ==> r[i] == (SegmentColor(i), entities[i].caption)
  {
    seq(Drawn(entities), i requires 0 <= i < Drawn(entities) => (SegmentColor(i), entities[i].caption))
  }

  /**
   * `drawChart`: nothing when the values do not sum to a positive total, otherwise one
   * stroke per slice of `prefix(6)`, in the palette's order. The angles are not part of
   * this model.
   */
  method DrawChart(entities: seq<Entity>) returns (strokes: seq<Rgba>)
    ensures SumBy(entities, (e: Entity) => e.value) <= 0.0 ==> strokes == []
    ensures SumBy(entities, (e: Entity) => e.value) > 0.0 ==>
      |strokes| == Drawn(entities) && forall i :: 0 <= i < |strokes| ==> strokes[i] == SegmentColor(i)
  {
    strokes := [];
    if SumBy(entities, (e: Entity) => e.value) <= 0.0 {
      return;
    }
    strokes := Strokes(Drawn(entities), Palette);
  }

  /** The colour of slice `i` of the palette; only the first six slices are ever drawn. */
  function Palette(i: nat): (c: Rgba)
    ensures i < |SEGMENT_HEX| ==> c == SegmentColor(i)
  {
    if i < |SEGMENT_HEX| then SegmentColor(i) else OPAQUE_BLACK
  }

  /** The drawing loop: one stroke per slice, slice `index` in colour `color(index)`. */
  method Strokes(n: nat, color: nat -> Rgba) returns (strokes: seq<Rgba>)
    ensures |strokes| == n && forall i :: 0 <= i < n ==> strokes[i] == color(i)
  {
    strokes := [];
    for index := 0 to n
      invariant |strokes| == index
      invariant forall i :: 0 <= i < index ==> strokes[i] == color(i)
    {
      strokes := strokes + [color(index)];
    }
  }
}
