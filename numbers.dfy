/**
 * The numbers a sensor line carries. Python's `float(token)` is modelled on a
 * restricted decimal grammar, `[+|-] digits [. digits]` with at least one
 * digit, and its value is kept as an exact rational instead of an IEEE double.
 */
module Numbers {
  import opened Wrappers
  import opened Text

  predicate IsDigit(c: char) {
    '0' <= c <= '9'
  }

  predicate AllDigits(s: string) {
    forall k :: 0 <= k < |s| ==> IsDigit(s[k])
  }

  /** A character that can appear in a token `float()` accepts under this grammar. */
  predicate IsNumeral(c: char) {
    IsDigit(c) || c == '.' || c == '+' || c == '-'
  }

  function DigitValue(c: char): (d: nat)
    requires IsDigit(c)
    ensures d < 10
  {
    c as int - '0' as int
  }

  function DigitChar(d: nat): (c: char)
    requires d < 10
    ensures IsDigit(c) && DigitValue(c) == d
  {
    ('0' as int + d) as char
  }

  /** The value of a string of decimal digits, read most significant first. */
  function DigitsValue(s: string): nat
    requires AllDigits(s)
  {
    if s == [] then 0 else 10 * DigitsValue(s[..|s| - 1]) + DigitValue(s[|s| - 1])
  }

  function Pow10(n: nat): (p: nat)
    ensures p >= 1
  {
    if n == 0 then 1 else 10 * Pow10(n - 1)
  }

  /** `float(s)` on the decimal grammar: `None` where Python raises `ValueError`. */
  function ParseDecimal(s: string): (r: Option<real>)
    ensures r.Some? ==> s != [] && forall k :: 0 <= k < |s| ==> IsNumeral(s[k])
  {
    if s != [] && s[0] == '-' then
      match ParseUnsigned(s[1..])
      case None => None
      case Some(m) => Some(-m)
    else if s != [] && s[0] == '+' then ParseUnsigned(s[1..])
    else ParseUnsigned(s)
  }

  /** A token without its sign: `digits`, `digits.digits`, `digits.` or `.digits`. */
  function ParseUnsigned(body: string): (r: Option<real>)
    ensures r.Some? ==> body != [] && forall k :: 0 <= k < |body| ==> IsNumeral(body[k])
  {
    match SplitFirst(body, '.')
    case None =>
      if body != [] && AllDigits(body) then Some(DigitsValue(body) as real) else None
    case Some((whole, frac)) =>
      if AllDigits(whole) && AllDigits(frac) && |whole| + |frac| > 0 then
        SplitFirstRoundTrip(body, '.');
        Some(DecimalValue(whole, frac))
      else
        None
  }

  /** The number written `<whole>.<frac>`: `whole + frac / 10^|frac|`. */
  function DecimalValue(whole: string, frac: string): real
    requires AllDigits(whole) && AllDigits(frac)
  {
    DigitsValue(whole) as real + DigitsValue(frac) as real / Pow10(|frac|) as real
  }

  /** Python's `str(n)` for a natural number: its decimal digits, without leading zeros. */
  function NatToDigits(n: nat): (s: string)
    ensures s != [] && AllDigits(s)
    ensures '.' !in s
  {
    if n < 10 then [DigitChar(n)] else NatToDigits(n / 10) + [DigitChar(n % 10)]
  }

  // ----- properties -----

  /** Reading back the digits of `n` gives `n`. */
  lemma {:induction false} DigitsRoundTrip(n: nat)
    ensures DigitsValue(NatToDigits(n)) == n
  {
    if n >= 10 {
      var s := NatToDigits(n);
      assert s[..|s| - 1] == NatToDigits(n / 10);
      DigitsRoundTrip(n / 10);
    }
  }

  /** `float(str(n)) == n` and `float("-" + str(n)) == -n` for every natural number `n`. */
  lemma ParseDecimalRoundTrip(n: nat)
    ensures ParseDecimal(NatToDigits(n)) == Some(n as real)
    ensures ParseDecimal("-" + NatToDigits(n)) == Some(-(n as real))
  {
    var s := NatToDigits(n);
    DigitsRoundTrip(n);
    assert s[0] != '-' && s[0] != '+' by { assert IsDigit(s[0]); }
    assert SplitFirst(s, '.') == None;
    assert ParseUnsigned(s) == Some(n as real);
    assert ("-" + s)[1..] == s;
  }

  /**
   * The token `<whole>.<frac>`, unsigned or with either sign, is its value `v`,
   * `whole + frac / 10^|frac|`, with that sign; either part may be empty, not
   * both (`12.5`, `-3.5`, `+.5`, `7.`).
   */
  lemma DecimalToken(whole: string, frac: string, v: real)
    requires AllDigits(whole) && AllDigits(frac) && |whole| + |frac| > 0
    requires v == DecimalValue(whole, frac)
    ensures ParseDecimal(whole + "." + frac) == Some(v)
    ensures ParseDecimal("+" + (whole + "." + frac)) == Some(v)
    ensures ParseDecimal("-" + (whole + "." + frac)) == Some(-v)
  {
    UnsignedDecimal(whole, frac);
    Signed(whole + "." + frac, v);
  }

  /** Without its sign, `<whole>.<frac>` is read by `ParseUnsigned`. */
  lemma UnsignedDecimal(whole: string, frac: string)
    requires AllDigits(whole) && AllDigits(frac) && |whole| + |frac| > 0
    ensures ParseUnsigned(whole + "." + frac) == Some(DecimalValue(whole, frac))
    ensures (whole + "." + frac)[0] != '-' && (whole + "." + frac)[0] != '+'
  {
    var body := whole + "." + frac;
    assert '.' !in whole by {
      forall k | 0 <= k < |whole| ensures whole[k] != '.' { assert IsDigit(whole[k]); }
    }
    assert body == whole + ['.'] + frac;
    SplitAt(whole, frac, '.');
    if whole != [] {
      assert body[0] == whole[0] && IsDigit(whole[0]);
    }
  }

  /** A sign in front of an unsigned token: `+` keeps its value and `-` negates it. */
  lemma Signed(body: string, v: real)
    requires body != [] && body[0] != '-' && body[0] != '+' && ParseUnsigned(body) == Some(v)
    ensures ParseDecimal(body) == Some(v)
    ensures ParseDecimal("+" + body) == Some(v)
    ensures ParseDecimal("-" + body) == Some(-v)
  {
    assert ("+" + body)[0] == '+' && ("+" + body)[1..] == body;
    assert ("-" + body)[0] == '-' && ("-" + body)[1..] == body;
  }

  /** A reading below zero, as the TMP117 sends it: `-3.5`. */
  lemma BelowZero()
    ensures ParseDecimal("-3.5") == Some(-3.5)
  {
    OneDigitDecimal(3, 5);
    assert "-" + ([DigitChar(3)] + "." + [DigitChar(5)]) == "-3.5";
  }

  /** `-<w>.<f>` for single digits `w` and `f`. */
  lemma OneDigitDecimal(w: nat, f: nat)
    requires w < 10 && f < 10
    ensures ParseDecimal("-" + ([DigitChar(w)] + "." + [DigitChar(f)])) == Some(-(w as real + f as real / 10.0))
  {
    var whole, frac := [DigitChar(w)], [DigitChar(f)];
    assert DigitsValue(whole) == w by { assert whole[..0] == []; }
    assert DigitsValue(frac) == f by { assert frac[..0] == []; }
    assert Pow10(|frac|) == 10;
    DecimalToken(whole, frac, w as real + f as real / 10.0);
  }

  /** A token that begins with something other than a sign, a digit or a point is rejected. */
  lemma ParseDecimalRejects(s: string)
    requires s == [] || !IsNumeral(s[0])
    ensures ParseDecimal(s) == None
  {
  }
}
