/**
 * String helpers that both layers rely on: JavaScript's String.prototype.trim and Number(),
 * Java's String.isBlank and the Bean Validation @NotBlank check, ASCII case folding,
 * substring search, and the case-insensitive comparison behind the page's `cmpStr`.
 */
module Text {
  import opened Wrappers

  // ---------------------------------------------------------------------------
  // JavaScript trim

  /** The characters String.prototype.trim removes: WhiteSpace (including every Zs
      space separator) and LineTerminator. */
  predicate IsJsWhitespace(c: char) {
    c == '\t' || c == '\n' || c == '\U{B}' || c == '\U{C}' || c == '\r' || c == ' ' ||
    c == '\U{A0}' || c == '\U{1680}' || ('\U{2000}' <= c <= '\U{200A}') ||
    c == '\U{2028}' || c == '\U{2029}' || c == '\U{202F}' || c == '\U{205F}' ||
    c == '\U{3000}' || c == '\U{FEFF}'
  }

  /** The first index at or after `i` that does not hold JavaScript whitespace, or |s|. */
  function SkipForward(s: string, i: nat): (r: nat)
    requires i <= |s|
    ensures i <= r <= |s|
    ensures forall k :: i <= k < r ==> IsJsWhitespace(s[k])
    ensures r < |s| ==> !IsJsWhitespace(s[r])
    decreases |s| - i
  {
    if i < |s| && IsJsWhitespace(s[i]) then SkipForward(s, i + 1) else i
  }

  /** The end of `s[lo..j]` once its trailing JavaScript whitespace is dropped. */
  function SkipBackward(s: string, lo: nat, j: nat): (r: nat)
    requires lo <= j <= |s|
    ensures lo <= r <= j
    ensures forall k :: r <= k < j ==> IsJsWhitespace(s[k])
    ensures lo < r ==> !IsJsWhitespace(s[r - 1])
    decreases j
  {
    if lo < j && IsJsWhitespace(s[j - 1]) then SkipBackward(s, lo, j - 1) else j
  }

  /** String.prototype.trim: the middle slice of `s` left once leading and trailing
      whitespace are dropped. It is empty exactly when `s` is all whitespace, and
      otherwise neither starts nor ends with whitespace. */
  function Trim(s: string): (r: string)
    ensures |r| <= |s|
    ensures r == [] <==> forall i :: 0 <= i < |s| ==> IsJsWhitespace(s[i])
    ensures r != [] ==> !IsJsWhitespace(r[0]) && !IsJsWhitespace(r[|r| - 1])
    ensures exists a, b :: (0 <= a <= b <= |s| && r == s[a..b] &&
      (forall i :: 0 <= i < a ==> IsJsWhitespace(s[i])) && (forall i :: b <= i < |s| ==> IsJsWhitespace(s[i])))
  {
    var a := SkipForward(s, 0);
    var b := SkipBackward(s, a, |s|);
    assert a < |s| ==> a < b;
    s[a..b]
  }

  // ---------------------------------------------------------------------------
  // Java blank checks

  /** Character.isWhitespace: space, line and paragraph separators other than the
      no-break spaces, plus the ASCII controls tab, line feed, vertical tab, form feed,
      carriage return and the four information separators. */
  predicate IsJavaWhitespace(c: char) {
    ('\t' <= c <= '\r') || ('\U{1C}' <= c <= '\U{1F}') || c == ' ' || c == '\U{1680}' ||
    ('\U{2000}' <= c <= '\U{2006}') || ('\U{2008}' <= c <= '\U{200A}') ||
    c == '\U{2028}' || c == '\U{2029}' || c == '\U{205F}' || c == '\U{3000}'
  }

  /** String.isBlank: empty or made of Character.isWhitespace characters only. */
  predicate IsBlank(s: string) {
    forall i :: 0 <= i < |s| ==> IsJavaWhitespace(s[i])
  }

  /** The @NotBlank constraint: something is left after String.trim, which strips every
      character up to and including the space. */
  predicate NotBlank(s: string) {
    exists i :: 0 <= i < |s| && s[i] > ' '
  }

  // ---------------------------------------------------------------------------
  // Case folding and substring search

  function LowerChar(c: char): (r: char)
    ensures 'A' <= c <= 'Z' ==> r as int == c as int + 32
    ensures !('A' <= c <= 'Z') ==> r == c
  {
    if 'A' <= c <= 'Z' then (c as int + 32) as char else c
  }

  function UpperChar(c: char): (r: char)
    ensures 'a' <= c <= 'z' ==> r as int == c as int - 32
    ensures !('a' <= c <= 'z') ==> r == c
  {
    if 'a' <= c <= 'z' then (c as int - 32) as char else c
  }

  /** SQL lower() and a case-insensitive collation, restricted to ASCII letters. */
  function Lower(s: string): (r: string)
    ensures |r| == |s| && forall i :: 0 <= i < |s| ==> r[i] == LowerChar(s[i])
  {
    seq(|s|, i requires 0 <= i < |s| => LowerChar(s[i]))
  }

  /** String.toUpperCase, restricted to ASCII letters. */
  function Upper(s: string): (r: string)
    ensures |r| == |s| && forall i :: 0 <= i < |s| ==> r[i] == UpperChar(s[i])
  {
    seq(|s|, i requires 0 <= i < |s| => UpperChar(s[i]))
  }

  predicate IsPrefix(p: string, s: string) {
    |p| <= |s| && s[..|p|] == p
  }

  /** `needle` occurs as a contiguous part of `hay`. */
  predicate Contains(hay: string, needle: string)
    decreases |hay|
  {
    IsPrefix(needle, hay) || (hay != [] && Contains(hay[1..], needle))
  }

  // ---------------------------------------------------------------------------
  // Lexicographic comparison

  /** Three-way lexicographic comparison by character code; a proper prefix sorts first. */
  function CompareCodes(a: string, b: string): (r: int)
    ensures -1 <= r <= 1
    ensures r == 0 <==> a == b
  {
    if a == [] && b == [] then 0
    else if a == [] then -1
    else if b == [] then 1
    else if a[0] < b[0] then -1
    else if a[0] > b[0] then 1
    else
      var r := CompareCodes(a[1..], b[1..]);
      assert a == [a[0]] + a[1..] && b == [b[0]] + b[1..];
      r
  }

  lemma {:induction false} CompareCodesAntisymmetric(a: string, b: string)
    ensures CompareCodes(a, b) == -CompareCodes(b, a)
  {
    if a != [] && b != [] && a[0] == b[0] {
      CompareCodesAntisymmetric(a[1..], b[1..]);
    }
  }

  lemma {:induction false} CompareCodesTransitive(a: string, b: string, c: string)
    requires CompareCodes(a, b) < 0 && CompareCodes(b, c) < 0
    ensures CompareCodes(a, c) < 0
  {
    if a != [] && b != [] && c != [] && a[0] == b[0] && b[0] == c[0] {
      CompareCodesTransitive(a[1..], b[1..], c[1..]);
    }
  }

  /** The page's `cmpStr`: a case-insensitive three-way string comparison. */
  function CompareText(a: string, b: string): (r: int)
    ensures -1 <= r <= 1
    ensures r == 0 <==> Lower(a) == Lower(b)
  {
    CompareCodes(Lower(a), Lower(b))
  }

  /** CompareText is antisymmetric, and it is transitive in its strict and its
      non-strict form, so it orders strings by a total preorder. */
  lemma CompareTextIsTotalPreorder(a: string, b: string, c: string)
    ensures CompareText(a, b) == -CompareText(b, a)
    ensures CompareText(a, b) < 0 && CompareText(b, c) < 0 ==> CompareText(a, c) < 0
    ensures CompareText(a, b) <= 0 && CompareText(b, c) <= 0 ==> CompareText(a, c) <= 0
    ensures CompareText(a, b) == 0 && CompareText(b, c) == 0 ==> CompareText(a, c) == 0
  {
    CompareCodesAntisymmetric(Lower(a), Lower(b));
    if CompareText(a, b) < 0 && CompareText(b, c) < 0 {
      CompareCodesTransitive(Lower(a), Lower(b), Lower(c));
    }
  }

  // ---------------------------------------------------------------------------
  // JavaScript Number() on decimal integer text

  predicate IsDigit(c: char) {
    '0' <= c <= '9'
  }

  predicate AllDigits(s: string) {
    forall i :: 0 <= i < |s| ==> IsDigit(s[i])
  }

  /** The value of a string of decimal digits. */
  function DigitsValue(ds: string): nat
    requires AllDigits(ds)
  {
    if ds == [] then 0 else DigitsValue(ds[..|ds| - 1]) * 10 + (ds[|ds| - 1] as int - '0' as int)
  }

  /** JavaScript's Number(s) for text that denotes an integer: surrounding whitespace
      is ignored, blank text is 0, an optional sign may precede the digits. Anything
      else reads as None (NaN, Infinity, or a value this model does not represent). */
  function ToNumber(s: string): (r: Option<int>)
    ensures (forall i :: 0 <= i < |s| ==> IsJsWhitespace(s[i])) ==> r == Some(0)
    ensures r.Some? <==> (Trim(s) == [] || AllDigits(Trim(s)) ||
      (|Trim(s)| > 1 && Trim(s)[0] in "+-" && AllDigits(Trim(s)[1..])))
    ensures Trim(s) != [] && AllDigits(Trim(s)) ==> r == Some(DigitsValue(Trim(s)))
    ensures |Trim(s)| > 1 && Trim(s)[0] == '+' && AllDigits(Trim(s)[1..]) ==> r == Some(DigitsValue(Trim(s)[1..]))
    ensures |Trim(s)| > 1 && Trim(s)[0] == '-' && AllDigits(Trim(s)[1..]) ==> r == Some(-(DigitsValue(Trim(s)[1..]) as int))
  {
    var t := Trim(s);
    if t == [] then Some(0)
    else if |t| > 1 && (t[0] == '-' || t[0] == '+') && AllDigits(t[1..]) then
      var v: int := DigitsValue(t[1..]);
      Some(if t[0] == '-' then -v else v)
    else if AllDigits(t) then Some(DigitsValue(t))
    else None
  }

  /** The decimal numeral of `n`, without sign or leading zeros. */
  function Decimal(n: nat): (r: string)
    ensures r != [] && AllDigits(r)
  {
    var d := ('0' as int + n % 10) as char;
    if n < 10 then [d] else Decimal(n / 10) + [d]
  }

  lemma {:induction false} DigitsValueOfDecimal(n: nat)
    ensures DigitsValue(Decimal(n)) == n
  {
    if n >= 10 {
      DigitsValueOfDecimal(n / 10);
      var ds := Decimal(n);
      assert ds[..|ds| - 1] == Decimal(n / 10);
    }
  }

/** Text holding a letter anywhere is not a number: the letter survives the trim and is
      neither a digit nor a sign. */
  lemma {:induction false} LetterIsNotANumber(s: string, k: int)
    requires 0 <= k < |s| && IsLetter(s[k])
    ensures ToNumber(s) == None
  {
    var j := LetterSurvivesTrim(s, k);
    LetterIsNotANumeral(Trim(s), j);
  }

  /** A character that is not whitespace keeps its place inside the trimmed text. */
  lemma {:induction false} LetterSurvivesTrim(s: string, k: int) returns (j: int)
    requires 0 <= k < |s| && IsLetter(s[k])
    ensures 0 <= j < |Trim(s)| && Trim(s)[j] == s[k]
  {
    var t := Trim(s);
    var a, b :| 0 <= a <= b <= |s| && t == s[a..b] &&
      (forall i :: 0 <= i < a ==> IsJsWhitespace(s[i])) && (forall i :: b <= i < |s| ==> IsJsWhitespace(s[i]));
    assert !IsJsWhitespace(s[k]);
    j := k - a;
  }

  predicate IsLetter(c: char) {
    'a' <= c <= 'z' || 'A' <= c <= 'Z'
  }

  /** A letter rules out both numeral shapes `Number` reads. */
  lemma LetterIsNotANumeral(t: string, j: int)
    requires 0 <= j < |t| && IsLetter(t[j])
    ensures t != [] && !AllDigits(t)
    ensures !(|t| > 1 && t[0] in "+-" && AllDigits(t[1..]))
  {
    assert !IsDigit(t[j]);
    if j > 0 {
      assert t[1..][j - 1] == t[j];
    }
  }

  lemma TrimOfUnpadded(s: string)
    requires s != [] && !IsJsWhitespace(s[0]) && !IsJsWhitespace(s[|s| - 1])
    ensures Trim(s) == s
  {
    assert SkipForward(s, 0) == 0;
    assert SkipBackward(s, 0, |s|) == |s|;
  }

  lemma ToNumberOfDigits(ds: string, n: nat)
    requires ds != [] && AllDigits(ds) && DigitsValue(ds) == n
    ensures ToNumber(ds) == Some(n)
  {
    assert IsDigit(ds[0]) && IsDigit(ds[|ds| - 1]);
    TrimOfUnpadded(ds);
    var t := Trim(ds);
    assert t == ds;
    assert !(t[0] == '-' || t[0] == '+');
  }

  lemma ToNumberOfNegatedDigits(ds: string, n: nat)
    requires ds != [] && AllDigits(ds) && DigitsValue(ds) == n
    ensures ToNumber("-" + ds) == Some(-(n as int))
  {
    var m := "-" + ds;
    assert IsDigit(ds[|ds| - 1]);
    assert m[0] == '-' && m[|m| - 1] == ds[|ds| - 1];
    TrimOfUnpadded(m);
    var t := Trim(m);
    assert t == m;
    assert t[1..] == ds;
    assert |t| > 1 && t[0] == '-' && AllDigits(t[1..]);
  }

  /** Number() reads back the decimal numeral of every natural number. */
  lemma ToNumberOfDecimal(n: nat)
    ensures ToNumber(Decimal(n)) == Some(n)
  {
    DigitsValueOfDecimal(n);
    ToNumberOfDigits(Decimal(n), n);
  }

  /** Number() reads back a minus sign followed by the numeral of a natural number. */
  lemma ToNumberOfNegativeDecimal(n: nat)
    ensures ToNumber("-" + Decimal(n)) == Some(-(n as int))
  {
    DigitsValueOfDecimal(n);
    ToNumberOfNegatedDigits(Decimal(n), n);
  }
}
