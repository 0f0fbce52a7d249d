/**
 * Character-level helpers the GUI relies on through Python built-ins:
 * `str.isspace` / `str.strip`, the `in` substring test, `str(int)` and
 * `float(...)` applied to the digit-and-dot captures of the status regex.
 * Bytes are taken to be already decoded, so a string is a `seq<char>`.
 */
module Text {
  import opened Options

  /** Python's `str.isspace`: bidirectional classes WS, B, S and category Zs. */
  predicate IsSpace(c: char) {
    || c == ' ' || c == '\t' || c == '\n' || c == '\r'
    || c == '\U{000B}' || c == '\U{000C}'
    || ('\U{001C}' <= c <= '\U{001F}')
    || c == '\U{0085}' || c == '\U{00A0}' || c == '\U{1680}'
    || ('\U{2000}' <= c <= '\U{200A}')
    || c == '\U{2028}' || c == '\U{2029}' || c == '\U{202F}' || c == '\U{205F}' || c == '\U{3000}'
  }

  predicate AllSpace(s: string) {
    forall i :: 0 <= i < |s| ==> IsSpace(s[i])
  }

  /** Neither end of `s` is whitespace (the shape of every `strip()` result). */
  predicate IsStripped(s: string) {
    s == [] || (!IsSpace(s[0]) && !IsSpace(s[|s| - 1]))
  }

  predicate NoNewline(s: string) {
    forall i :: 0 <= i < |s| ==> s[i] != '\n'
  }

  /** Index of the first `c` in `s`, or `|s|` when there is none. */
  function FirstIndex(s: string, c: char): (r: nat)
    ensures r <= |s|
    ensures r < |s| ==> s[r] == c
    ensures forall j :: 0 <= j < r ==> s[j] != c
  {
    FirstIndexFrom(s, c, 0)
  }

  /** Index of the first `c` in `s` at or after `i`, or `|s|`. */
  function FirstIndexFrom(s: string, c: char, i: nat): (r: nat)
    requires i <= |s|
    ensures i <= r <= |s|
    ensures r < |s| ==> s[r] == c
    ensures forall j :: i <= j < r ==> s[j] != c
    decreases |s| - i
  {
    if i == |s| then i
    else if s[i] == c then i
    else FirstIndexFrom(s, c, i + 1)
  }

  // ---------------------------------------------------------------- strip

  /** How many whitespace characters open `s`. */
  function LeadingSpaces(s: string): (n: nat)
    ensures n <= |s|
    ensures forall i :: 0 <= i < n ==> IsSpace(s[i])
    ensures n < |s| ==> !IsSpace(s[n])
  {
    if s == [] || !IsSpace(s[0]) then 0 else 1 + LeadingSpaces(s[1..])
  }

  /** How many whitespace characters close `s`. */
  function TrailingSpaces(s: string): (n: nat)
    ensures n <= |s|
    ensures forall i :: |s| - n <= i < |s| ==> IsSpace(s[i])
    ensures n < |s| ==> !IsSpace(s[|s| - 1 - n])
  {
    if s == [] || !IsSpace(s[|s| - 1]) then 0 else 1 + TrailingSpaces(s[..|s| - 1])
  }

  /** `s` is `r` surrounded by whitespace only, with `r` starting at `i`. */
  predicate Surrounds(s: string, r: string, i: int) {
    && 0 <= i && i + |r| <= |s|
    && s[i..i + |r|] == r
    && (forall k :: 0 <= k < i ==> IsSpace(s[k]))
    && (forall k :: i + |r| <= k < |s| ==> IsSpace(s[k]))
  }

  /** Python's `str.strip()` with no argument. */
  function Strip(s: string): (r: string)
    ensures IsStripped(r)
    ensures Surrounds(s, r, LeadingSpaces(s))
    ensures r == [] <==> AllSpace(s)
  {
    var i := LeadingSpaces(s);
    if i == |s| then [] else s[i..|s| - TrailingSpaces(s)]
  }

  /** Stripping is idempotent. */
  lemma StripIdempotent(s: string)
    ensures Strip(Strip(s)) == Strip(s)
  {
  }

  /** A string that neither starts nor ends with whitespace is its own strip. */
  lemma StripStripped(s: string)
    requires IsStripped(s)
    ensures Strip(s) == s
  {
    if s != [] {
      assert LeadingSpaces(s) == 0;
      assert TrailingSpaces(s) == 0;
    }
  }

  /** Stripping never introduces a newline. */
  lemma StripKeepsNoNewline(s: string)
    requires NoNewline(s)
    ensures NoNewline(Strip(s))
  {
    var r := Strip(s);
    var i := LeadingSpaces(s);
    forall k | 0 <= k < |r| ensures r[k] != '\n' {
      assert r[k] == s[i + k];
    }
  }

  // ------------------------------------------------------- substring test

  predicate OccursAt(hay: string, needle: string, i: int) {
    0 <= i && i + |needle| <= |hay| && hay[i..i + |needle|] == needle
  }

  /** Python's case-sensitive `needle in hay`. */
  function Contains(hay: string, needle: string): (r: bool)
    ensures r <==> exists i :: OccursAt(hay, needle, i)
    decreases |hay|
  {
    if |hay| < |needle| then false
    else if hay[..|needle|] == needle then
      assert OccursAt(hay, needle, 0);
      true
    else
      var r := Contains(hay[1..], needle);
      assert forall i :: OccursAt(hay[1..], needle, i) ==> OccursAt(hay, needle, i + 1) by {
        forall i | OccursAt(hay[1..], needle, i) ensures OccursAt(hay, needle, i + 1) {
          assert hay[i + 1..i + 1 + |needle|] == hay[1..][i..i + |needle|];
        }
      }
      assert forall i :: OccursAt(hay, needle, i) ==> i >= 1 && OccursAt(hay[1..], needle, i - 1) by {
        assert hay[0..|needle|] == hay[..|needle|];
        forall i | OccursAt(hay, needle, i) ensures i >= 1 && OccursAt(hay[1..], needle, i - 1) {
          assert hay[1..][i - 1..i - 1 + |needle|] == hay[i..i + |needle|];
        }
      }
      r
  }

  // ------------------------------------------------------------- integers

  predicate IsDigit(c: char) {
    '0' <= c <= '9'
  }

  predicate AllDigits(s: string) {
    forall i :: 0 <= i < |s| ==> IsDigit(s[i])
  }

  function DigitChar(d: nat): (c: char)
    requires d < 10
    ensures IsDigit(c) && c as int - '0' as int == d
  {
    ['0', '1', '2', '3', '4', '5', '6', '7', '8', '9'][d]
  }

  /** The value of a string of ASCII digits read in base ten; `""` reads as 0. */
  function DigitsValue(s: string): nat
    requires AllDigits(s)
  {
    if s == [] then 0
    else DigitsValue(s[..|s| - 1]) * 10 + (s[|s| - 1] as int - '0' as int)
  }

  function NatToDecimal(n: nat): (r: string)
    ensures r != [] && AllDigits(r)
  {
    if n < 10 then [DigitChar(n)]
    else NatToDecimal(n / 10) + [DigitChar(n % 10)]
  }

  /** Python's `str(n)` for an `int`. */
  function IntToDecimal(n: int): (r: string)
    ensures r != [] && !IsSpace(r[0]) && !IsSpace(r[|r| - 1]) && NoNewline(r)
  {
    if n < 0 then "-" + NatToDecimal(-n) else NatToDecimal(n)
  }

  /** `str(n)` contains no whitespace at all. */
  lemma IntToDecimalNoSpace(n: int)
    ensures forall k :: 0 <= k < |IntToDecimal(n)| ==> !IsSpace(IntToDecimal(n)[k])
  {
    if n < 0 {
      var d := NatToDecimal(-n);
      assert forall k :: 1 <= k < |IntToDecimal(n)| ==> IntToDecimal(n)[k] == d[k - 1];
    }
  }

  lemma {:induction false} NatToDecimalValue(n: nat)
    ensures DigitsValue(NatToDecimal(n)) == n
  {
    if n >= 10 {
      var s := NatToDecimal(n);
      assert s[..|s| - 1] == NatToDecimal(n / 10);
      NatToDecimalValue(n / 10);
    }
  }

  // --------------------------------------------------------------- floats

  function Pow10(k: nat): (r: nat)
    ensures r >= 1
  {
    if k == 0 then 1 else 10 * Pow10(k - 1)
  }

  /** The text after an optional leading minus sign. */
  function Unsigned(t: string): string {
    if |t| > 0 && t[0] == '-' then t[1..] else t
  }

  /**
   * Which `[-\d.]+` captures Python's `float` accepts: an optional leading
   * minus, then digits with at most one decimal point and at least one digit.
   */
  predicate IsNumeral(t: string) {
    var b := Unsigned(t);
    && (exists i :: 0 <= i < |b| && IsDigit(b[i]))
    && (forall i :: 0 <= i < |b| ==> IsDigit(b[i]) || b[i] == '.')
    && (forall i, j :: 0 <= i < j < |b| && b[i] == '.' ==> b[j] != '.')
  }

  /** The digits before the first decimal point of `b`. */
  function WholePart(b: string): string {
    b[..FirstIndex(b, '.')]
  }

  /** Everything after the first decimal point of `b` (empty when there is none). */
  function FracPart(b: string): string {
    var k := FirstIndex(b, '.');
    if k < |b| then b[k + 1..] else []
  }

  /** Digits on both sides of the first point make a numeral. */
  lemma NumeralFromSplit(t: string)
    requires AllDigits(WholePart(Unsigned(t))) && AllDigits(FracPart(Unsigned(t)))
    requires |WholePart(Unsigned(t))| + |FracPart(Unsigned(t))| > 0
    ensures IsNumeral(t)
  {
    var b := Unsigned(t);
    var k := FirstIndex(b, '.');
    var whole, frac := WholePart(b), FracPart(b);
    assert whole == b[..k];
    assert k < |b| ==> frac == b[k + 1..];
    assert k == |b| ==> frac == [];
    forall i | 0 <= i < |b| ensures IsDigit(b[i]) || b[i] == '.' {
      if i < k { assert b[i] == whole[i]; } else if i > k { assert b[i] == frac[i - k - 1]; }
    }
    if |whole| > 0 { assert b[0] == whole[0]; } else { assert b[k + 1] == frac[0]; }
    forall i, j | 0 <= i < j < |b| && b[i] == '.' ensures b[j] != '.' {
      assert k <= i < j;
      assert b[j] == frac[j - k - 1];
    }
  }

  /** A numeral has digits on both sides of its first point. */
  lemma SplitFromNumeral(t: string)
    requires IsNumeral(t)
    ensures AllDigits(WholePart(Unsigned(t))) && AllDigits(FracPart(Unsigned(t)))
    ensures |WholePart(Unsigned(t))| + |FracPart(Unsigned(t))| > 0
  {
    var b := Unsigned(t);
    var k := FirstIndex(b, '.');
    var whole, frac := WholePart(b), FracPart(b);
    assert whole == b[..k];
    assert k < |b| ==> frac == b[k + 1..];
    forall i | 0 <= i < |whole| ensures IsDigit(whole[i]) {
      assert b[i] == whole[i];
    }
    forall i | 0 <= i < |frac| ensures IsDigit(frac[i]) {
      assert b[k + 1 + i] == frac[i] && b[k] == '.';
    }
    var i :| 0 <= i < |b| && IsDigit(b[i]);
    if i < k { assert b[i] == whole[i]; } else if i > k { assert b[i] == frac[i - k - 1]; }
  }

  /** `IsNumeral` read off the split at the first decimal point. */
  lemma NumeralBySplit(t: string)
    ensures IsNumeral(t) <==>
      (AllDigits(WholePart(Unsigned(t))) && AllDigits(FracPart(Unsigned(t)))
       && |WholePart(Unsigned(t))| + |FracPart(Unsigned(t))| > 0)
  {
    if IsNumeral(t) {
      SplitFromNumeral(t);
    }
    if AllDigits(WholePart(Unsigned(t))) && AllDigits(FracPart(Unsigned(t)))
       && |WholePart(Unsigned(t))| + |FracPart(Unsigned(t))| > 0 {
      NumeralFromSplit(t);
    }
  }

  /** Reading `a` then `b` as one digit string shifts `a` left by `|b|` places. */
  lemma {:induction false} DigitsValueAppend(a: string, b: string)
    requires AllDigits(a) && AllDigits(b)
    ensures AllDigits(a + b)
    ensures DigitsValue(a + b) == DigitsValue(a) * Pow10(|b|) + DigitsValue(b)
    decreases |b|
  {
    if b == [] {
      assert a + b == a;
    } else {
      var b' := b[..|b| - 1];
      var d := b[|b| - 1] as int - '0' as int;
      assert (a + b)[..|a + b| - 1] == a + b';
      assert (a + b)[|a + b| - 1] == b[|b| - 1];
      DigitsValueAppend(a, b');
      assert DigitsValue(a + b) == DigitsValue(a + b') * 10 + d;
      assert DigitsValue(b) == DigitsValue(b') * 10 + d;
      ShiftDigit(DigitsValue(a), Pow10(|b'|), DigitsValue(b'), d);
    }
  }

  /** One more digit on the right: the arithmetic step of `DigitsValueAppend`. */
  lemma ShiftDigit(x: int, p: int, y: int, d: int)
    ensures (x * p + y) * 10 + d == x * (10 * p) + (y * 10 + d)
  {
  }

  /** Moving the point: `w + f / p` is `w * p + f` over `p`. */
  lemma ShiftPoint(w: nat, f: nat, p: nat)
    requires p >= 1
    ensures w as real + f as real / p as real == (w * p + f) as real / p as real
  {
    assert (w * p) as real == w as real * p as real;
  }

  /**
   * `float` on the text after the sign: digits, at most one point, at least
   * one digit; the value is the digits with the point removed, read as a
   * whole number, over ten to the number of digits after the point.
   */
  function ParseUnsigned(b: string): (r: Option<real>)
    ensures r.Some? <==> AllDigits(WholePart(b)) && AllDigits(FracPart(b)) && |WholePart(b)| + |FracPart(b)| > 0
    ensures r.Some? ==> AllDigits(WholePart(b) + FracPart(b))
    ensures r.Some? ==> r.value == DigitsValue(WholePart(b) + FracPart(b)) as real / Pow10(|FracPart(b)|) as real
    ensures AllDigits(b) && b != [] ==> r == Some(DigitsValue(b) as real)
  {
    var whole, frac := WholePart(b), FracPart(b);
    if AllDigits(whole) && AllDigits(frac) && |whole| + |frac| > 0 then
      assert AllDigits(b) && b != [] ==> FirstIndex(b, '.') == |b| && whole == b && frac == [];
      DigitsValueAppend(whole, frac);
      ShiftPoint(DigitsValue(whole), DigitsValue(frac), Pow10(|frac|));
      Some(DigitsValue(whole) as real + DigitsValue(frac) as real / Pow10(|frac|) as real)
    else
      None
  }

  /**
   * Python's `float(t)` on a capture of `[-\d.]+`: `None` where Python raises
   * `ValueError`. The value is the exact decimal (binary rounding is not modelled).
   */
  function ParseNumber(t: string): (r: Option<real>)
    ensures r.Some? <==> IsNumeral(t)
    ensures r.Some? ==> AllDigits(WholePart(Unsigned(t)) + FracPart(Unsigned(t)))
    ensures r.Some? ==>
      var magnitude := DigitsValue(WholePart(Unsigned(t)) + FracPart(Unsigned(t))) as real / Pow10(|FracPart(Unsigned(t))|) as real;
      r.value == if |t| > 0 && t[0] == '-' then -magnitude else magnitude
    ensures AllDigits(t) && t != [] ==> r == Some(DigitsValue(t) as real)
    ensures |t| > 1 && t[0] == '-' && AllDigits(t[1..]) ==> r == Some(-(DigitsValue(t[1..]) as real))
  {
    NumeralBySplit(t);
    var u := ParseUnsigned(Unsigned(t));
    if |t| > 0 && t[0] == '-' then
      if u.Some? then Some(-u.value) else None
    else
      u
  }

  /** What `str(n)` prints, `float` reads back as the same number. */
  lemma IntToDecimalRoundTrip(n: int)
    ensures ParseNumber(IntToDecimal(n)) == Some(n as real)
  {
    if n < 0 {
      NegativeRoundTrip(n);
    } else {
      assert IntToDecimal(n) == NatToDecimal(n);
      NatToDecimalValue(n);
    }
  }

  /** The negative half of the round trip: `str(n)` is a minus and the digits of `-n`. */
  lemma NegativeRoundTrip(n: int)
    requires n < 0
    ensures ParseNumber(IntToDecimal(n)) == Some(n as real)
  {
    var m: nat := -n;
    MinusDigits(n, m);
    NatToDecimalValue(m);
  }

  /** A negative number prints as a minus followed by the digits of its magnitude. */
  lemma MinusDigits(n: int, m: nat)
    requires n < 0 && m == -n
    ensures var t := IntToDecimal(n); |t| > 1 && t[0] == '-' && t[1..] == NatToDecimal(m)
  {
    var t := IntToDecimal(n);
    assert t == "-" + NatToDecimal(m);
  }

}
