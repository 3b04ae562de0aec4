/**
 * Decimal text and numbers: Python's `str(int)`, the zero-padded `{:0Nd}`
 * format, and `int(text)` / `float(text)` for plain decimal literals
 * (optional sign, digits, optional fraction, surrounding whitespace ignored).
 */
module Numeric {
  import opened Wrappers
  import opened Text

  predicate IsDigit(c: char) { '0' <= c <= '9' }

  predicate AllDigits(s: string) {
    forall i :: 0 <= i < |s| ==> IsDigit(s[i])
  }

  function DigitValue(c: char): nat
    requires IsDigit(c)
  {
    c as int - '0' as int
  }

  function DigitChar(d: nat): (c: char)
    requires d < 10
    ensures IsDigit(c) && DigitValue(c) == d
  {
    ('0' as int + d) as char
  }

  function Pow10(n: nat): (r: nat)
    ensures r >= 1
  {
    if n == 0 then 1 else 10 * Pow10(n - 1)
  }

  /** The number a string of decimal digits denotes (most significant first). */
  function DigitsValue(s: string): nat
    requires AllDigits(s)
    decreases |s|
  {
    if |s| == 0 then 0 else DigitsValue(s[..|s| - 1]) * 10 + DigitValue(s[|s| - 1])
  }

  /** The value of a concatenation: the left digits are shifted by the right's length. */
  lemma {:induction false} DigitsValueAppend(a: string, b: string)
    requires AllDigits(a) && AllDigits(b)
    ensures AllDigits(a + b)
    ensures DigitsValue(a + b) == DigitsValue(a) * Pow10(|b|) + DigitsValue(b)
    decreases |b|
  {
    if |b| == 0 {
      assert a + b == a;
    } else {
      var b' := b[..|b| - 1];
      assert (a + b)[..|a + b| - 1] == a + b';
      DigitsValueAppend(a, b');
    }
  }

  /** `n` copies of the digit zero. */
  function Zeros(n: nat): (z: string)
    ensures |z| == n && AllDigits(z)
  {
    seq(n, i => '0')
  }

  lemma {:induction false} ZerosValue(n: nat)
    ensures DigitsValue(Zeros(n)) == 0
  {
    if n > 0 {
      assert Zeros(n)[..n - 1] == Zeros(n - 1);
      ZerosValue(n - 1);
    }
  }

  /** Python's `str(n)` for a natural number. */
  function ShowNat(n: nat): (r: string)
    ensures 1 <= |r| && AllDigits(r)
    decreases n
  {
    if n < 10 then [DigitChar(n)] else ShowNat(n / 10) + [DigitChar(n % 10)]
  }

  /** Reading back the digits `ShowNat` writes gives the number. */
  lemma {:induction false} ShowNatValue(n: nat)
    ensures DigitsValue(ShowNat(n)) == n
    decreases n
  {
    if n >= 10 {
      var s := ShowNat(n);
      assert s[..|s| - 1] == ShowNat(n / 10);
      ShowNatValue(n / 10);
    }
  }

  /** Python's `str(i)` for an integer. */
  function ShowInt(i: int): (r: string)
    ensures |r| >= 1
  {
    if i < 0 then "-" + ShowNat(-i) else ShowNat(i)
  }

  /** Python's `f"{n:0{width}d}"`: at least `width` digits, zero-filled on the left. */
  function ShowPadded(n: nat, width: nat): (r: string)
    ensures AllDigits(r) && width <= |r|
    ensures n < Pow10(width) && width >= 1 ==> |r| == width
    ensures DigitsValue(r) == n
  {
    var d := ShowNat(n);
    ShowNatValue(n);
    ShowNatLength(n, width);
    if |d| >= width then d
    else
      DigitsValueAppend(Zeros(width - |d|), d);
      ZerosValue(width - |d|);
      Zeros(width - |d|) + d
  }

  /** A number below 10^w is written with at most w digits. */
  lemma {:induction false} ShowNatLength(n: nat, w: nat)
    ensures n < Pow10(w) && w >= 1 ==> |ShowNat(n)| <= w
    decreases n
  {
    if n >= 10 && w >= 1 && n < Pow10(w) {
      assert n / 10 < Pow10(w - 1);
      ShowNatLength(n / 10, w - 1);
    }
  }

  /** A non-empty run of digits, read as a natural number. */
  function ParseDigits(t: string): Option<nat>
  {
    if |t| > 0 && AllDigits(t) then Some(DigitsValue(t)) else None
  }

  /** Python's `int(text)` for plain decimal text. */
  function ParseInt(s: string): Option<int>
  {
    var t := Strip(s);
    if |t| > 0 && (t[0] == '-' || t[0] == '+') then
      match ParseDigits(t[1..])
      case Some(n) => var v: int := if t[0] == '-' then -(n as int) else n; Some(v)
      case None => None
    else
      match ParseDigits(t)
      case Some(n) => Some(n)
      case None => None
  }

  /** The value of the decimal literal `<whole>.<frac>`. */
  function DecimalValue(whole: string, frac: string): real
    requires AllDigits(whole) && AllDigits(frac)
  {
    DigitsValue(whole) as real + DigitsValue(frac) as real / Pow10(|frac|) as real
  }

  /** Digits with an optional decimal point and at least one digit. */
  function ParseUnsignedReal(t: string): Option<real>
  {
    if '.' in t then
      var i := IndexOf(t, '.');
      var whole := t[..i];
      var frac := t[i + 1..];
      if |whole| + |frac| > 0 && AllDigits(whole) && AllDigits(frac) then
        Some(DecimalValue(whole, frac))
      else None
    else
      match ParseDigits(t)
      case Some(n) => Some(n as real)
      case None => None
  }

  lemma ParseUnsignedRealDigits(t: string)
    requires 0 < |t| && AllDigits(t)
    ensures ParseUnsignedReal(t) == Some(DigitsValue(t) as real)
  {
    assert '.' !in t by {
      forall i | 0 <= i < |t| ensures t[i] != '.' { assert IsDigit(t[i]); }
    }
  }

  /** Python's `float(text)` for plain decimal text. */
  function ParseReal(s: string): Option<real>
  {
    var t := Strip(s);
    if |t| > 0 && (t[0] == '-' || t[0] == '+') then
      match ParseUnsignedReal(t[1..])
      case Some(x) => Some(if t[0] == '-' then -x else x)
      case None => None
    else ParseUnsignedReal(t)
  }

  lemma ShowIntStripped(n: int)
    ensures Strip(ShowInt(n)) == ShowInt(n)
  {
    var s := ShowInt(n);
    assert IsDigit(s[|s| - 1]);
    StripOfStripped(s);
  }

  /** `int(str(n)) == n`. */
  lemma ParseShowInt(n: int)
    ensures ParseInt(ShowInt(n)) == Some(n)
  {
    var s := ShowInt(n);
    ShowIntStripped(n);
    if n < 0 {
      ShowNatValue(-n);
      assert s[0] == '-' && s[1..] == ShowNat(-n);
      assert ParseDigits(s[1..]) == Some(-n);
    } else {
      ShowNatValue(n);
      assert IsDigit(s[0]);
      assert ParseDigits(s) == Some(n);
    }
  }

  /** `float(str(n)) == n` for an integer `n`. */
  lemma ParseRealShowInt(n: int)
    ensures ParseReal(ShowInt(n)) == Some(n as real)
  {
    var s := ShowInt(n);
    ShowIntStripped(n);
    if n < 0 {
      ShowNatValue(-n);
      assert s[0] == '-' && s[1..] == ShowNat(-n);
      ParseUnsignedRealDigits(s[1..]);
    } else {
      ShowNatValue(n);
      assert IsDigit(s[0]);
      ParseUnsignedRealDigits(s);
    }
  }

  /** Digits, a point and digits: the point found is the one between the two digit runs. */
  lemma ParseUnsignedDecimal(whole: string, frac: string)
    requires 0 < |whole| && AllDigits(whole) && AllDigits(frac)
    ensures ParseUnsignedReal(whole + "." + frac) == Some(DecimalValue(whole, frac))
  {
    var s := whole + "." + frac;
    assert s[..|whole|] == whole;
    assert s[|whole|] == '.';
    IndexOfUnique(s, '.', |whole|);
    assert s[|whole| + 1..] == frac;
  }

  /** `float("<whole>.<frac>")` is the whole part plus the fraction scaled by its digit count. */
  lemma ParseRealDecimal(whole: string, frac: string)
    requires 0 < |whole| && AllDigits(whole) && AllDigits(frac)
    ensures ParseReal(whole + "." + frac) == Some(DecimalValue(whole, frac))
  {
    var s := whole + "." + frac;
    assert s[0] == whole[0] && IsDigit(s[0]);
    assert s[|s| - 1] == '.' || IsDigit(s[|s| - 1]);
    StripOfStripped(s);
    assert ParseReal(s) == ParseUnsignedReal(s);
    ParseUnsignedDecimal(whole, frac);
  }
}
