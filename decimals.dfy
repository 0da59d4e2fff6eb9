/**
  `Decimals`: the part of Python's `decimal.Decimal` that invoices use — exact decimal values,
  multiplication, `quantize(Decimal('0.01'))` with the default half-even rounding, and reading
  a plain decimal string.
*/
module Decimals {
  import opened Wrappers
  import opened PyValues

  function Pow10(n: nat): (r: nat)
    ensures r >= 1
  {
    if n == 0 then 1 else 10 * Pow10(n - 1)
  }

  lemma {:induction false} Pow10Add(a: nat, b: nat)
    ensures Pow10(a + b) == Pow10(a) * Pow10(b)
  {
    if a > 0 {
      Pow10Add(a - 1, b);
      assert Pow10(a + b) == 10 * Pow10(a - 1 + b);
    }
  }

  function Abs(x: int): nat {
    if x < 0 then -x else x
  }

  /** The value `units / 10^scale`; `scale` is the number of digits after the point. */
  datatype Dec = Dec(units: int, scale: nat)

  /** `a * b` on decimals is exact: the scales add up. */
  function Mul(a: Dec, b: Dec): (r: Dec)
    ensures r.units * Pow10(a.scale) * Pow10(b.scale) == a.units * b.units * Pow10(r.scale)
  {
    Pow10Add(a.scale, b.scale);
    Dec(a.units * b.units, a.scale + b.scale)
  }

  /**
    `n / d` rounded to the nearest integer, ties to the even neighbour (`ROUND_HALF_EVEN`). The
    two ensures pin the result down: it is within half a unit, and on a tie it is even.
  */
  function RoundHalfEven(n: int, d: int): (r: int)
    requires d > 0
    ensures 2 * Abs(r * d - n) <= d
    ensures 2 * Abs(r * d - n) == d ==> r % 2 == 0
  {
    var q := n / d;
    var rem := n % d;
    assert n == q * d + rem;
    assert (q + 1) * d - n == d - rem;
    if 2 * rem < d then q
    else if 2 * rem > d then q + 1
    else if q % 2 == 0 then q
    else q + 1
  }

  /** Multiplying by a positive `d` keeps integers at least `d` apart. */
  lemma MulStep(a: int, b: int, d: int)
    requires d > 0
    ensures a > b ==> a * d >= b * d + d
  {
    var m := a - b;
    assert a * d == b * d + m * d;
    assert m >= 1 ==> m * d >= d;
  }

  /** The rounding is the unique integer with those two properties. */
  lemma RoundHalfEvenUnique(n: int, d: int, x: int)
    requires d > 0
    requires 2 * Abs(x * d - n) <= d
    requires 2 * Abs(x * d - n) == d ==> x % 2 == 0
    ensures x == RoundHalfEven(n, d)
  {
    var r := RoundHalfEven(n, d);
    MulStep(x, r, d);
    MulStep(r, x, d);
    MulStep(x, r + 1, d);
    MulStep(r, x + 1, d);
    assert (r + 1) * d == r * d + d;
    assert (x + 1) * d == x * d + d;
  }

  /** `d.quantize(Decimal('0.01'))` as a whole number of cents. */
  function Cents(d: Dec): (r: int)
    ensures 2 * Abs(r * Pow10(d.scale) - d.units * 100) <= Pow10(d.scale)
    ensures 2 * Abs(r * Pow10(d.scale) - d.units * 100) == Pow10(d.scale) ==> r % 2 == 0
  {
    if d.scale <= 2 then
      Pow10Add(2 - d.scale, d.scale);
      assert Pow10(2) == 100;
      WidenedIsExact(d.units, Pow10(2 - d.scale), Pow10(d.scale));
      d.units * Pow10(2 - d.scale)
    else
      var q := Pow10(d.scale - 2);
      var r := RoundHalfEven(d.units, q);
      Pow10Add(d.scale - 2, 2);
      assert Pow10(2) == 100;
      RoundingScales(r, q, d.units, Pow10(d.scale));
      r
  }

  /** Padding with zeros to two decimals loses nothing. */
  lemma WidenedIsExact(u: int, a: int, b: int)
    requires a * b == 100
    ensures (u * a) * b - u * 100 == 0
  {
    assert (u * a) * b == u * (a * b);
  }

  /** Rounding at a coarser unit `q`, measured in the finer unit `p = 100 q`. */
  lemma RoundingScales(r: int, q: int, u: int, p: int)
    requires q > 0 && p == q * 100
    requires 2 * Abs(r * q - u) <= q
    requires 2 * Abs(r * q - u) == q ==> r % 2 == 0
    ensures 2 * Abs(r * p - u * 100) <= p
    ensures 2 * Abs(r * p - u * 100) == p ==> r % 2 == 0
  {
    assert r * p - u * 100 == 100 * (r * q - u);
  }

  /** A value that already has at most two decimals is kept exactly. */
  lemma CentsExact(units: int, scale: nat)
    requires scale <= 2
    ensures Cents(Dec(units, scale)) * Pow10(scale) == units * 100
  {
    Pow10Add(2 - scale, scale);
    assert Pow10(2) == 100;
    assert Cents(Dec(units, scale)) == units * Pow10(2 - scale);
    assert units * Pow10(2 - scale) * Pow10(scale) == units * (Pow10(2 - scale) * Pow10(scale));
  }

  /** Half a cent is rounded to the even cent: 0.125 gives 0.12 and 0.135 gives 0.14. */
  lemma CentsHalfEvenExamples()
    ensures Cents(Dec(125, 3)) == 12
    ensures Cents(Dec(135, 3)) == 14
    ensures Cents(Dec(-125, 3)) == -12
  {
    assert Pow10(1) == 10;
  }

  // ---------------------------------------------------------------------------
  // Decimal(str)
  // ---------------------------------------------------------------------------

  /** Digits with at most one point and at least one digit: `12`, `1.5`, `.5`, `3.`. */
  function ParseUnsignedDecimal(t: string): Option<Dec> {
    var i := FirstIndex(t, '.');
    var whole := t[..i];
    var frac := if i < |t| then t[i + 1..] else "";
    if |whole| + |frac| > 0 && AllDigits(whole) && AllDigits(frac) then
      assert AllDigits(whole + frac);
      Some(Dec(DigitsValue(whole + frac), |frac|))
    else None
  }

  /**
    `Decimal(s)` for the plain notation: surrounding blanks, an optional sign, digits with an
    optional point. `None` where the constructor signals `InvalidOperation`.
  */
  function ParseDecimal(s: string): Option<Dec> {
    var t := Strip(s);
    if |t| > 0 && (t[0] == '-' || t[0] == '+') then
      match ParseUnsignedDecimal(t[1..])
      case None => None
      case Some(d) => Some(if t[0] == '-' then Dec(-d.units, d.scale) else d)
    else ParseUnsignedDecimal(t)
  }

  lemma DigitsValueAppend(s: string, c: char)
    requires AllDigits(s) && IsDigit(c)
    ensures AllDigits(s + [c]) && DigitsValue(s + [c]) == DigitsValue(s) * 10 + DigitValue(c)
  {
    assert (s + [c])[..|s|] == s;
  }

  /** Digits without a point read back as their value with no decimals. */
  lemma ParseUnsignedDigits(ds: string)
    requires |ds| > 0 && AllDigits(ds)
    ensures ParseUnsignedDecimal(ds) == Some(Dec(DigitsValue(ds), 0))
  {
    FirstIndexIs(ds, '.', |ds|);
    assert ds[..|ds|] == ds;
    assert ds + "" == ds;
  }

  /** A whole number written by `str` reads back as that number with no decimals. */
  lemma ParseDecimalOfInt(n: int)
    ensures ParseDecimal(FormatInt(n)) == Some(Dec(n, 0))
  {
    var s := FormatInt(n);
    assert !IsSpace(s[0]) && !IsSpace(s[|s| - 1]);
    assert Strip(s) == s;
    var digits := if n < 0 then FormatNat(-n) else FormatNat(n);
    DigitsValueOfFormatNat(if n < 0 then -n else n);
    ParseUnsignedDigits(digits);
    assert n < 0 ==> s[1..] == digits;
  }

  /** Two digits after the point add two decimal places. */
  lemma DigitsValueTwoMore(ws: string, c: nat)
    requires AllDigits(ws) && c < 100
    ensures var cs := [DigitChar(c / 10), DigitChar(c % 10)];
      AllDigits(ws + cs) && DigitsValue(ws + cs) == DigitsValue(ws) * 100 + c
  {
    var cs := [DigitChar(c / 10), DigitChar(c % 10)];
    DigitsValueAppend(ws, cs[0]);
    DigitsValueAppend(ws + [cs[0]], cs[1]);
    assert ws + cs == ws + [cs[0]] + [cs[1]];
  }

  /** The first point of `w.cc` is right after the whole part. */
  lemma CentsStringShape(w: nat, c: nat)
    requires c < 100
    ensures var ws := FormatNat(w);
      var s := ws + "." + [DigitChar(c / 10), DigitChar(c % 10)];
      Strip(s) == s && s[0] != '-' && s[0] != '+' && FirstIndex(s, '.') == |ws| &&
      s[..|ws|] == ws && s[|ws| + 1..] == [DigitChar(c / 10), DigitChar(c % 10)]
  {
    var ws := FormatNat(w);
    var s := ws + "." + [DigitChar(c / 10), DigitChar(c % 10)];
    assert !IsSpace(s[0]) && !IsSpace(s[|s| - 1]);
    assert forall j :: 0 <= j < |ws| ==> s[j] == ws[j];
    FirstIndexIs(s, '.', |ws|);
  }

  /** An amount written as `w.cc` reads back as `w*100 + cc` cents. */
  lemma ParseDecimalOfCents(w: nat, c: nat)
    requires c < 100
    ensures ParseDecimal(FormatNat(w) + "." + [DigitChar(c / 10), DigitChar(c % 10)]) == Some(Dec(w * 100 + c, 2))
  {
    CentsStringShape(w, c);
    DigitsValueOfFormatNat(w);
    DigitsValueTwoMore(FormatNat(w), c);
  }
}
