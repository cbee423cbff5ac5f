/** Character and string helpers shared by the front end (JavaScript) and the back end
    (Python): whitespace stripping in both dialects, ASCII lower-casing, word characters
    and decimal rendering of numbers. */
module Text {

  /** The two languages whose `trim()`/`strip()` are modelled; they disagree on a few
      whitespace characters. */
  datatype Dialect = JavaScript | Python

  /** Whitespace as JavaScript's `String.prototype.trim` sees it (WhiteSpace and
      LineTerminator) and as Python's `str.strip()` sees it (`str.isspace`): both take
      TAB to CR, SPACE, NO-BREAK SPACE, OGHAM SPACE MARK, EN QUAD to HAIR SPACE, LINE and
      PARAGRAPH SEPARATOR, NARROW NO-BREAK SPACE, MEDIUM MATHEMATICAL SPACE and
      IDEOGRAPHIC SPACE; JavaScript adds the BYTE ORDER MARK, Python the separators
      U+001C to U+001F and NEXT LINE. */
  predicate IsSpace(d: Dialect, c: char) {
    var u := c as int;
    || (9 <= u <= 13) || u == 0x20 || u == 0xA0 || u == 0x1680 || (0x2000 <= u <= 0x200A)
    || u == 0x2028 || u == 0x2029 || u == 0x202F || u == 0x205F || u == 0x3000
    || (d == JavaScript && u == 0xFEFF)
    || (d == Python && ((0x1C <= u <= 0x1F) || u == 0x85))
  }

  predicate AllSpace(d: Dialect, s: string) {
    forall k :: 0 <= k < |s| ==> IsSpace(d, s[k])
  }

  /** Removes leading whitespace: the result is a suffix of `s` that is empty or starts
      with a non-space character (`DropLeadingSpaces`: what it drops is whitespace). */
  function DropLeading(d: Dialect, s: string): (r: string)
    ensures |r| <= |s| && r == s[|s| - |r|..]
    ensures r != [] ==> !IsSpace(d, r[0])
  {
    if s != [] && IsSpace(d, s[0]) then DropLeading(d, s[1..]) else s
  }

  /** Removes trailing whitespace: the result is a prefix of `s` that is empty or ends
      with a non-space character (`DropTrailingSpaces`: what it drops is whitespace). */
  function DropTrailing(d: Dialect, s: string): (r: string)
    ensures |r| <= |s| && r == s[..|r|]
    ensures r != [] ==> !IsSpace(d, r[|r| - 1])
  {
    if s != [] && IsSpace(d, s[|s| - 1]) then DropTrailing(d, s[..|s| - 1]) else s
  }

  /** What `DropLeading` drops is whitespace. */
  lemma {:induction false} DropLeadingSpaces(d: Dialect, s: string)
    ensures forall k :: 0 <= k < |s| - |DropLeading(d, s)| ==> IsSpace(d, s[k])
  {
    if s != [] && IsSpace(d, s[0]) {
      DropLeadingSpaces(d, s[1..]);
      forall k | 1 <= k < |s| - |DropLeading(d, s)| ensures IsSpace(d, s[k]) {
        assert s[k] == s[1..][k - 1];
      }
    }
  }

  /** What `DropTrailing` drops is whitespace. */
  lemma {:induction false} DropTrailingSpaces(d: Dialect, s: string)
    ensures forall k :: |DropTrailing(d, s)| <= k < |s| ==> IsSpace(d, s[k])
  {
    if s != [] && IsSpace(d, s[|s| - 1]) {
      var t := s[..|s| - 1];
      DropTrailingSpaces(d, t);
      forall k | |DropTrailing(d, s)| <= k < |s| - 1 ensures IsSpace(d, s[k]) {
        assert s[k] == t[k];
      }
    }
  }

  /** Every character of `s` before index `i` and from index `j` on is whitespace. */
  predicate SpaceOutside(d: Dialect, s: string, i: int, j: int) {
    && (forall k :: 0 <= k < i && k < |s| ==> IsSpace(d, s[k]))
    && (forall k :: j <= k < |s| && 0 <= k ==> IsSpace(d, s[k]))
  }

  /** `trim()` in JavaScript, `strip()` in Python. */
  function Strip(d: Dialect, s: string): (r: string)
  {
    DropTrailing(d, DropLeading(d, s))
  }

  // What stripping does: the result is the part of `s` after its leading whitespace
  // (StripInfix), everything outside it is whitespace (StripOutside), it neither starts
  // nor ends with whitespace (StripEnds), and it is empty exactly when `s` is all
  // whitespace (StripEmptyIff).

  lemma StripInfix(d: Dialect, s: string)
    ensures var i, r := |s| - |DropLeading(d, s)|, Strip(d, s);
      i + |r| <= |s| && r == s[i..i + |r|]
  {
    var l := DropLeading(d, s);
    var i := |s| - |l|;
    assert l == s[i..];
    assert Strip(d, s) == l[..|Strip(d, s)|];
  }

  lemma StripOutside(d: Dialect, s: string)
    ensures var i, r := |s| - |DropLeading(d, s)|, Strip(d, s);
      SpaceOutside(d, s, i, i + |r|)
  {
    var l := DropLeading(d, s);
    var i := |s| - |l|;
    var n := |Strip(d, s)|;
    DropLeadingSpaces(d, s);
    DropTrailingSpaces(d, l);
    forall k | i + n <= k < |s| ensures IsSpace(d, s[k]) {
      assert s[k] == l[k - i];
    }
  }

  lemma StripEnds(d: Dialect, s: string)
    ensures var r := Strip(d, s);
      r != [] ==> !IsSpace(d, r[0]) && !IsSpace(d, r[|r| - 1])
  {
    var l := DropLeading(d, s);
    assert Strip(d, s) != [] ==> Strip(d, s)[0] == l[0];
  }

  lemma StripEmptyIff(d: Dialect, s: string)
    ensures Strip(d, s) == [] <==> AllSpace(d, s)
  {
    var l := DropLeading(d, s);
    var i := |s| - |l|;
    StripOutside(d, s);
    assert l != [] ==> l[0] == s[i];
    assert l != [] ==> Strip(d, s) != [] by {
      assert l != [] ==> DropTrailing(d, l)[..0] == [] && !IsSpace(d, l[0]);
    }
  }

  /** Stripping twice is stripping once. */
  lemma StripIdempotent(d: Dialect, s: string)
    ensures Strip(d, Strip(d, s)) == Strip(d, s)
  {
    var r := Strip(d, s);
    if r != [] {
      StripEnds(d, s);
      assert DropLeading(d, r) == r;
      assert DropTrailing(d, r) == r;
    }
  }

  /** A one-character string strips to nothing exactly when its character is
      whitespace. */
  lemma StripSingle(d: Dialect, c: char)
    ensures Strip(d, [c]) == if IsSpace(d, c) then [] else [c]
  {
    if IsSpace(d, c) {
      assert [c][1..] == [];
    }
  }

  // ---------------------------------------------------------------------------------
  // ASCII case and word characters (the model restricts Python's `\w` and `lower()` to
  // ASCII).

  predicate IsUpper(c: char) { 'A' <= c <= 'Z' }

  predicate IsWordChar(c: char) {
    ('a' <= c <= 'z') || ('A' <= c <= 'Z') || ('0' <= c <= '9') || c == '_'
  }

  function LowerChar(c: char): (r: char)
    ensures !IsUpper(r)
    ensures IsWordChar(r) <==> IsWordChar(c)
    ensures !IsUpper(c) ==> r == c
  {
    if IsUpper(c) then (c as int - 'A' as int + 'a' as int) as char else c
  }

  /** `str.lower()` restricted to ASCII letters. */
  function Lower(s: string): (r: string)
    ensures |r| == |s|
    ensures forall k :: 0 <= k < |s| ==> r[k] == LowerChar(s[k])
  {
    seq(|s|, k requires 0 <= k < |s| => LowerChar(s[k]))
  }

  lemma LowerIdempotent(s: string)
    ensures Lower(Lower(s)) == Lower(s)
  {
  }

  // ---------------------------------------------------------------------------------
  // Decimal rendering of natural numbers, as JavaScript template literals and Python
  // f-strings print them.

  function DigitChar(n: nat): (c: char)
    requires n < 10
  {
    ('0' as int + n) as char
  }

  predicate IsDigit(c: char) { '0' <= c <= '9' }

  function Decimal(n: nat): (s: string)
    decreases n
  {
    if n < 10 then [DigitChar(n)] else Decimal(n / 10) + [DigitChar(n % 10)]
  }

  /** The number that a string of digits denotes. */
  function DecimalValue(s: string): nat
    requires forall k :: 0 <= k < |s| ==> IsDigit(s[k])
  {
    if s == [] then 0
    else
      var last := s[|s| - 1];
      assert IsDigit(last);
      10 * DecimalValue(s[..|s| - 1]) + (last as int - '0' as int)
  }

  /** Decimal rendering is a non-empty digit string without a leading zero that reads back
      as the number it renders. */
  lemma {:induction false} DecimalRoundTrip(n: nat)
    ensures var s := Decimal(n);
      && s != []
      && (forall k :: 0 <= k < |s| ==> IsDigit(s[k]))
      && (|s| > 1 ==> s[0] != '0')
      && DecimalValue(s) == n
  {
    if n >= 10 {
      DecimalRoundTrip(n / 10);
      var s := Decimal(n);
      assert s[..|s| - 1] == Decimal(n / 10);
    }
  }
}
