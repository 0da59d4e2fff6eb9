/**
  The Python value semantics the rule configurations rely on.

  A rule's `trigger_config` and an action's `action_config` are JSON objects; the engine
  reads them with `config.get(key)` / `config.get(key, default)` and then tests the value
  for truthiness, converts it with `str(...)` or `int(...)`, or compares it with `==`.
  Each of those Python operations is written out here for the scalar JSON values.
*/
module PyValues {
  import opened Wrappers

  /** A scalar JSON value as Python sees it after `json.loads`. */
  datatype Json = JNull | JBool(b: bool) | JInt(i: int) | JStr(s: string)

  /** A JSON object: `trigger_config` / `action_config`. */
  type Config = map<string, Json>

  /** `config.get(key, default)` */
  function GetOr(config: Config, key: string, default: Json): Json {
    if key in config then config[key] else default
  }

  /** Python truthiness: `None`, `False`, `0` and `""` are falsy. */
  predicate Truthy(j: Json) {
    match j
    case JNull => false
    case JBool(b) => b
    case JInt(i) => i != 0
    case JStr(s) => s != ""
  }

  /**
    `value = config.get(key)` followed by `if value: ...`: a key that is absent or
    holds a falsy value imposes nothing.
  */
  function Constraint(config: Config, key: string): (r: Option<Json>)
    ensures r.Some? ==> Truthy(r.value)
  {
    if key in config && Truthy(config[key]) then Some(config[key]) else None
  }

  // ---------------------------------------------------------------------------
  // Decimal digits: str(int) and int(str)
  // ---------------------------------------------------------------------------

  /** A digit in base 10, or in base 16 (either case); `int()` reads no other bases here. */
  predicate IsDigit(c: char, base: nat := 10) {
    '0' <= c <= '9' || (base == 16 && ('a' <= c <= 'f' || 'A' <= c <= 'F'))
  }

  predicate AllDigits(s: string, base: nat := 10) {
    forall i :: 0 <= i < |s| ==> IsDigit(s[i], base)
  }

  function DigitChar(d: nat): (c: char)
    requires d < 10
    ensures IsDigit(c)
  {
    ('0' as int + d) as char
  }

  function DigitValue(c: char, base: nat := 10): (v: nat)
    requires IsDigit(c, base)
    ensures v < 16 && (base != 16 ==> v < 10)
  {
    if '0' <= c <= '9' then c as int - '0' as int
    else if 'a' <= c <= 'f' then c as int - 'a' as int + 10
    else c as int - 'A' as int + 10
  }

  /** The decimal numeral of a natural number, without leading zeros: `str(n)` for `n >= 0`. */
  function FormatNat(n: nat): (s: string)
    ensures |s| > 0 && AllDigits(s)
    ensures |s| > 1 ==> s[0] != '0'
  {
    if n < 10 then [DigitChar(n)] else FormatNat(n / 10) + [DigitChar(n % 10)]
  }

  /** The value of a string of digits in `base` (leading zeros allowed). */
  function DigitsValue(s: string, base: nat := 10): nat
    requires AllDigits(s, base)
  {
    if s == [] then 0 else DigitsValue(s[..|s| - 1], base) * base + DigitValue(s[|s| - 1], base)
  }

  lemma {:induction false} DigitsValueOfFormatNat(n: nat)
    ensures DigitsValue(FormatNat(n)) == n
  {
    if n >= 10 {
      var s := FormatNat(n);
      assert s[..|s| - 1] == FormatNat(n / 10);
      DigitsValueOfFormatNat(n / 10);
    }
  }

  /** `str(n)` for a Python int. */
  function FormatInt(n: int): string {
    if n < 0 then "-" + FormatNat(-n) else FormatNat(n)
  }

  /**
    The characters `str.isspace()` accepts, which `str.strip()` and `int()` remove: the ASCII
    controls 9-13 and 28-31, the blank, NEL, no-break space, and the Unicode separators.
  */
  predicate IsSpace(c: char) {
    var n := c as int;
    9 <= n <= 13 || 0x1c <= n <= 0x20 || n == 0x85 || n == 0xa0 || n == 0x1680 ||
    0x2000 <= n <= 0x200a || n == 0x2028 || n == 0x2029 || n == 0x202f || n == 0x205f || n == 0x3000
  }

  function StripLeft(s: string): string {
    if |s| > 0 && IsSpace(s[0]) then StripLeft(s[1..]) else s
  }

  function StripRight(s: string): string {
    if |s| > 0 && IsSpace(s[|s| - 1]) then StripRight(s[..|s| - 1]) else s
  }

  /** `s.strip()` */
  function Strip(s: string): string {
    StripRight(StripLeft(s))
  }

  /** The position of the first `c` in `t`, or `|t|`: where `t.split(c)[0]` ends. */
  function FirstIndex(t: string, c: char): (r: nat)
    ensures r <= |t|
    ensures forall j :: 0 <= j < r ==> t[j] != c
    ensures r < |t| ==> t[r] == c
  {
    if |t| == 0 || t[0] == c then 0 else 1 + FirstIndex(t[1..], c)
  }

  /** `k` is the first `c` when none comes before it and a `c` (or the end) is at it. */
  lemma {:induction false} FirstIndexIs(t: string, c: char, k: nat)
    requires k <= |t|
    requires forall j :: 0 <= j < k ==> t[j] != c
    requires k < |t| ==> t[k] == c
    ensures FirstIndex(t, c) == k
  {
    if k > 0 {
      FirstIndexIs(t[1..], c, k - 1);
    }
  }

  /**
    Digits in `base` with single underscores between them, as `int()` accepts them:
    no leading, trailing or doubled underscore.
  */
  predicate Grouped(s: string, base: nat) {
    |s| > 0 && IsDigit(s[0], base) &&
    (|s| == 1 || if s[1] == '_' then Grouped(s[2..], base) else Grouped(s[1..], base))
  }

  /** The text without its underscores. */
  function Ungroup(s: string): (r: string)
    ensures |r| <= |s|
  {
    if s == [] then [] else (if s[0] == '_' then [] else [s[0]]) + Ungroup(s[1..])
  }

  /** Removing the underscores of grouped digits leaves a non-empty digit string. */
  lemma {:induction false} UngroupedDigits(s: string, base: nat)
    requires Grouped(s, base)
    ensures |Ungroup(s)| > 0 && AllDigits(Ungroup(s), base)
  {
    if |s| > 1 {
      if s[1] == '_' {
        UngroupedDigits(s[2..], base);
        assert Ungroup(s[1..]) == Ungroup(s[2..]);
      } else {
        UngroupedDigits(s[1..], base);
      }
    }
  }

  /** A plain digit string is grouped, and has no underscore to remove. */
  lemma {:induction false} PlainDigitsAreGrouped(s: string, base: nat)
    requires |s| > 0 && AllDigits(s, base)
    ensures Grouped(s, base) && Ungroup(s) == s
  {
    if |s| > 1 {
      PlainDigitsAreGrouped(s[1..], base);
    } else {
      assert Ungroup(s[1..]) == [];
    }
  }

  /**
    `int(s, base)` for base 10 or 16: surrounding whitespace, an optional sign, in base 16 an
    optional `0x` prefix (which may be followed by one underscore), then grouped digits;
    `None` where Python raises `ValueError`.
  */
  function ParseIntIn(s: string, base: nat): Option<int>
    requires base == 10 || base == 16
  {
    var t := Strip(s);
    var signed := |t| > 0 && (t[0] == '-' || t[0] == '+');
    var u := if signed then t[1..] else t;
    var ds :=
      if base == 16 && |u| >= 2 && u[0] == '0' && (u[1] == 'x' || u[1] == 'X') then
        (if |u| >= 3 && u[2] == '_' then u[3..] else u[2..])
      else u;
    if Grouped(ds, base) then
      UngroupedDigits(ds, base);
      var v: int := DigitsValue(Ungroup(ds), base);
      Some(if signed && t[0] == '-' then -v else v)
    else None
  }

  /** `int(s)` for a string. */
  function ParseInt(s: string): Option<int> {
    ParseIntIn(s, 10)
  }

  /** Plain digits, with no sign, prefix or surrounding blank, read back as their value in `base`. */
  lemma ParseIntInPlainDigits(s: string, base: nat)
    requires base == 10 || base == 16
    requires |s| > 0 && AllDigits(s, base)
    requires base == 16 && |s| >= 2 ==> s[1] != 'x' && s[1] != 'X'
    ensures ParseIntIn(s, base) == Some(DigitsValue(s, base))
  {
    assert !IsSpace(s[0]) && !IsSpace(s[|s| - 1]);
    assert Strip(s) == s;
    PlainDigitsAreGrouped(s, base);
  }

  /** Reading back what `str` wrote gives the number again. */
  lemma ParseFormatInt(n: int)
    ensures ParseInt(FormatInt(n)) == Some(n)
  {
    if n < 0 {
      ParseNegativeDigits(FormatNat(-n));
      DigitsValueOfFormatNat(-n);
    } else {
      ParseIntInPlainDigits(FormatNat(n), 10);
      DigitsValueOfFormatNat(n);
    }
  }

  lemma DigitIsNoSpace(c: char)
    requires IsDigit(c, 16)
    ensures !IsSpace(c)
  {
  }

  /** Text that neither starts nor ends with a blank is its own `strip()`. */
  lemma StripNoBlankEnds(s: string)
    requires |s| > 0 && !IsSpace(s[0]) && !IsSpace(s[|s| - 1])
    ensures Strip(s) == s
  {
    assert StripLeft(s) == s;
  }

  /** `int()` of stripped text made of a minus sign and grouped digits. */
  lemma ParseMinusGrouped(t: string)
    requires |t| > 1 && Strip(t) == t && t[0] == '-' && Grouped(t[1..], 10)
    ensures AllDigits(Ungroup(t[1..])) && ParseInt(t) == Some(-(DigitsValue(Ungroup(t[1..])) as int))
  {
    UngroupedDigits(t[1..], 10);
  }

  /** A minus sign before plain decimal digits negates their value. */
  lemma ParseNegativeDigits(ds: string)
    requires |ds| > 0 && AllDigits(ds)
    ensures ParseInt("-" + ds) == Some(-(DigitsValue(ds) as int))
  {
    var s := "-" + ds;
    var last := ds[|ds| - 1];
    assert IsDigit(last) && s[|s| - 1] == last;
    DigitIsNoSpace(last);
    StripNoBlankEnds(s);
    PlainDigitsAreGrouped(ds, 10);
    assert s[1..] == ds;
    ParseMinusGrouped(s);
  }

  lemma FormatIntInjective(a: int, b: int)
    requires FormatInt(a) == FormatInt(b)
    ensures a == b
  {
    ParseFormatInt(a);
    ParseFormatInt(b);
  }

  // ---------------------------------------------------------------------------
  // str(), int() and == on a JSON value
  // ---------------------------------------------------------------------------

  /** `str(value)` */
  function PyStr(j: Json): string {
    match j
    case JNull => "None"
    case JBool(b) => if b then "True" else "False"
    case JInt(i) => FormatInt(i)
    case JStr(s) => s
  }

  /** `int(value)`: the `ValueError` / `TypeError` it raises becomes `Err` with the exception text. */
  function PyInt(j: Json): (r: Result<int>)
    ensures j.JInt? ==> r == Ok(j.i)
    ensures j.JStr? ==> (r.Ok? <==> ParseInt(j.s).Some?)
    ensures j.JNull? ==> r.Err?
  {
    match j
    case JNull => Err("int() argument must be a string, a bytes-like object or a real number, not 'NoneType'")
    case JBool(b) => Ok(if b then 1 else 0)
    case JInt(i) => Ok(i)
    case JStr(s) =>
      match ParseInt(s)
      case Some(v) => Ok(v)
      case None => Err("invalid literal for int() with base 10: '" + s + "'")
  }

  /** `value == n` for a Python int `n` (`True == 1`, and a string never equals an int). */
  predicate PyEqInt(j: Json, n: int) {
    match j
    case JInt(i) => i == n
    case JBool(b) => (if b then 1 else 0) == n
    case _ => false
  }

  /** Python's floored `a // n`, for `n != 0`. */
  function PyFloorDiv(a: int, n: int): int
    requires n != 0
  {
    if n < 0 && a % n != 0 then a / n - 1 else a / n
  }

  /** Python's floored `a % n` (the sign follows the divisor), for `n != 0`. */
  function PyMod(a: int, n: int): (r: int)
    requires n != 0
    ensures n > 0 ==> 0 <= r < n
    ensures n < 0 ==> n < r <= 0
    ensures r == 0 <==> a % n == 0
    ensures a == n * PyFloorDiv(a, n) + r
  {
    var e := a % n;
    if n < 0 && e != 0 then e + n else e
  }
}
