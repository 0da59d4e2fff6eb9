/**
  `LookupKeys`: how Django prepares a value for `filter(pk=value)` before it reaches the
  database. The model keys every row by `str(pk)`; a lookup value is first converted the way
  the primary key's field converts it, and the row is found under the canonical text of the
  result. A value the field cannot convert raises, and the lookup never runs.

  - An integer key (`BigAutoField`, also behind a foreign key) takes `int(value)`, so `"05"`
    finds row 5 and `"abc"` raises `ValueError`.
  - A `UUIDField` key takes `uuid.UUID(int=value)` for an int and `uuid.UUID(hex=value)`
    otherwise, so any spelling `uuid.UUID` accepts (upper case, braces, no hyphens, a `urn:uuid:`
    prefix) finds the row, and any other text raises `ValidationError`.
*/
module LookupKeys {
  import opened Wrappers
  import opened PyValues

  // ---------------------------------------------------------------------------
  // Integer primary keys
  // ---------------------------------------------------------------------------

  /**
    `IntegerField.get_prep_value(value)`: `int(value)`, whose `ValueError` is re-raised with the
    field's message. `None` never reaches a lookup here: every caller tests the value first.
  */
  function IntKey(j: Json): (r: Result<string>)
    requires !j.JNull?
    ensures r.Ok? <==> PyInt(j).Ok?
    ensures r.Ok? ==> r.value == FormatInt(PyInt(j).value)
  {
    match PyInt(j)
    case Ok(n) => Ok(FormatInt(n))
    case Err(_) => Err("Field 'id' expected a number but got '" + PyStr(j) + "'.")
  }

  /** The canonical text of an integer key finds itself, and every accepted spelling finds its canonical text. */
  lemma IntKeyCanonical(j: Json)
    requires !j.JNull? && IntKey(j).Ok?
    ensures IntKey(JStr(IntKey(j).value)) == IntKey(j)
  {
    ParseFormatInt(PyInt(j).value);
  }

  /** A stored key written by `str(pk)` is found by its own text. */
  lemma IntKeyOfStoredText(n: int)
    ensures IntKey(JStr(FormatInt(n))) == Ok(FormatInt(n))
    ensures IntKey(JInt(n)) == Ok(FormatInt(n))
  {
    ParseFormatInt(n);
  }

  /** `"05"` finds user 5: leading zeros are read away. */
  lemma LeadingZeroFindsUser()
    ensures IntKey(JStr("05")) == Ok("5")
  {
    ParseIntInPlainDigits("05", 10);
    assert "05"[..1] == "0" && DigitsValue("05") == 5;
    assert FormatInt(5) == "5";
  }

  /** `"abc"` is not a number: the lookup raises. */
  lemma LettersAreNoUserKey()
    ensures IntKey(JStr("abc")).Err?
  {
    assert Strip("abc") == "abc";
    assert !Grouped("abc", 10);
  }

  // ---------------------------------------------------------------------------
  // UUID primary keys
  // ---------------------------------------------------------------------------

  /** 16 to the power `n`. */
  function Pow16(n: nat): (p: nat)
    ensures p > 0
  {
    if n == 0 then 1 else 16 * Pow16(n - 1)
  }

  /** The values `uuid.UUID` accepts: `0 <= int < 1 << 128`, that is below 16 to the 32nd. */
  const UuidLimit: nat := Pow16(32)

  /** `str.replace(pat, "")`: every non-overlapping occurrence of `pat`, left to right, removed. */
  function RemoveAll(s: string, pat: string): (r: string)
    requires |pat| > 0
    ensures |r| <= |s|
    decreases |s|
  {
    if |s| < |pat| then s
    else if s[..|pat|] == pat then RemoveAll(s[|pat|..], pat)
    else [s[0]] + RemoveAll(s[1..], pat)
  }

  predicate IsBrace(c: char) {
    c == '{' || c == '}'
  }

  function StripBracesLeft(s: string): string {
    if |s| > 0 && IsBrace(s[0]) then StripBracesLeft(s[1..]) else s
  }

  function StripBracesRight(s: string): string {
    if |s| > 0 && IsBrace(s[|s| - 1]) then StripBracesRight(s[..|s| - 1]) else s
  }

  /** `s.strip("{}")` */
  function StripBraces(s: string): string {
    StripBracesRight(StripBracesLeft(s))
  }

  /**
    `uuid.UUID(hex=s)`: `urn:` and `uuid:` removed, braces stripped, hyphens removed, then exactly
    32 characters read by `int(…, 16)` and checked against 128 bits; `None` where it raises `ValueError`.
  */
  function UuidValue(s: string): (r: Option<nat>)
    ensures r.Some? ==> r.value < UuidLimit
  {
    var h := RemoveAll(StripBraces(RemoveAll(RemoveAll(s, "urn:"), "uuid:")), "-");
    if |h| != 32 then None
    else
      match ParseIntIn(h, 16)
      case Some(v) => if 0 <= v < UuidLimit then Some(v) else None
      case None => None
  }

  /** A lower-case hexadecimal digit. */
  function HexChar(d: nat): (c: char)
    requires d < 16
    ensures IsDigit(c, 16) && DigitValue(c, 16) == d && c != 'x' && c != 'X' && c != '-' && c != ':'
  {
    if d < 10 then DigitChar(d) else ('a' as int + d - 10) as char
  }

  /** `n` lower-case hexadecimal digits of `v`, most significant first: `format(v, "0{n}x")`. */
  function Hex(v: nat, n: nat): (r: string)
    ensures |r| == n && AllDigits(r, 16)
    ensures forall i :: 0 <= i < |r| ==> r[i] != 'x' && r[i] != 'X' && r[i] != '-' && r[i] != ':' && !IsBrace(r[i])
  {
    if n == 0 then [] else Hex(v / 16, n - 1) + [HexChar(v % 16)]
  }

  /** `str(uuid.UUID(int=v))`: 32 lower-case hexadecimal digits grouped 8-4-4-4-12. */
  function UuidString(v: nat): (r: string)
    ensures |r| == 36
  {
    var h := Hex(v, 32);
    h[..8] + "-" + h[8..12] + "-" + h[12..16] + "-" + h[16..20] + "-" + h[20..]
  }

  /** The canonical text holds neither a colon nor a brace. */
  lemma UuidStringChars(v: nat)
    ensures forall i :: 0 <= i < |UuidString(v)| ==> UuidString(v)[i] != ':' && !IsBrace(UuidString(v)[i])
  {
    var h := Hex(v, 32);
    var s := UuidString(v);
    forall i | 0 <= i < |s|
      ensures s[i] != ':' && !IsBrace(s[i])
    {
      if i < 8 { assert s[i] == h[i]; }
      else if i == 8 || i == 13 || i == 18 || i == 23 { assert s[i] == '-'; }
      else if i < 13 { assert s[i] == h[i - 1]; }
      else if i < 18 { assert s[i] == h[i - 2]; }
      else if i < 23 { assert s[i] == h[i - 3]; }
      else { assert s[i] == h[i - 4]; }
    }
  }

  /** The message of the `ValidationError` a `UUIDField` raises. */
  function InvalidUuid(j: Json): string {
    "['\U{201C}" + PyStr(j) + "\U{201D} is not a valid UUID.']"
  }

  /**
    `UUIDField.get_prep_value(value)`: an int (or a bool) is taken as the 128-bit value, anything
    else as hexadecimal text; the result is the canonical text the row is stored under.
  */
  function UuidKey(j: Json): (r: Result<string>)
    requires !j.JNull?
    ensures r.Err? ==> r.error == InvalidUuid(j)
  {
    match j
    case JInt(i) => if 0 <= i < UuidLimit then Ok(UuidString(i)) else Err(InvalidUuid(j))
    case JBool(b) => Ok(UuidString(if b then 1 else 0))
    case JStr(s) =>
      match UuidValue(s)
      case Some(v) => Ok(UuidString(v))
      case None => Err(InvalidUuid(j))
  }

  // ---------------------------------------------------------------------------
  // Properties of the UUID conversion
  // ---------------------------------------------------------------------------

  lemma {:induction false} HexValue(v: nat, n: nat)
    requires v < Pow16(n)
    ensures DigitsValue(Hex(v, n), 16) == v
  {
    if n > 0 {
      var h := Hex(v, n);
      assert h[..|h| - 1] == Hex(v / 16, n - 1);
      assert v / 16 < Pow16(n - 1);
      HexValue(v / 16, n - 1);
    }
  }

  /** A pattern whose last character does not occur is never removed. */
  lemma {:induction false} RemoveAbsent(s: string, pat: string)
    requires |pat| > 0 && forall i :: 0 <= i < |s| ==> s[i] != pat[|pat| - 1]
    ensures RemoveAll(s, pat) == s
    decreases |s|
  {
    if |s| >= |pat| {
      assert s[..|pat|][|pat| - 1] == s[|pat| - 1];
      RemoveAbsent(s[1..], pat);
    }
  }

  /** Removing one character distributes over a concatenation. */
  lemma {:induction false} RemoveCharAppend(a: string, b: string, c: char)
    ensures RemoveAll(a + b, [c]) == RemoveAll(a, [c]) + RemoveAll(b, [c])
    decreases |a|
  {
    if |a| > 0 {
      var pat := [c];
      assert (a + b)[..|pat|] == a[..|pat|];
      assert (a + b)[|pat|..] == a[1..] + b;
      assert (a + b)[0] == a[0];
      RemoveCharAppend(a[1..], b, c);
      if a[..|pat|] == pat {
        assert RemoveAll(a, pat) == RemoveAll(a[1..], pat);
      } else {
        assert RemoveAll(a, pat) == [a[0]] + RemoveAll(a[1..], pat);
      }
    } else {
      assert a + b == b;
    }
  }

  /** A hyphen after hyphen-free text is dropped and the text kept. */
  lemma DropHyphenAfter(x: string, y: string)
    requires forall i :: 0 <= i < |x| ==> x[i] != '-'
    ensures RemoveAll(x + "-" + y, "-") == x + RemoveAll(y, "-")
  {
    RemoveAbsent(x, "-");
    RemoveCharAppend(x, "-" + y, '-');
    assert ("-" + y)[..1] == "-" && ("-" + y)[1..] == y;
    assert x + "-" + y == x + ("-" + y);
  }

  /** Removing the hyphens of the canonical text leaves the 32 digits. */
  lemma DehyphenateCanonical(v: nat)
    ensures RemoveAll(UuidString(v), "-") == Hex(v, 32)
  {
    var h := Hex(v, 32);
    var p1, p2, p3, p4, p5 := h[..8], h[8..12], h[12..16], h[16..20], h[20..];
    var t4 := p4 + "-" + p5;
    var t3 := p3 + "-" + t4;
    var t2 := p2 + "-" + t3;
    assert UuidString(v) == p1 + "-" + t2;
    RemoveAbsent(p5, "-");
    DropHyphenAfter(p4, p5);
    DropHyphenAfter(p3, t4);
    DropHyphenAfter(p2, t3);
    DropHyphenAfter(p1, t2);
    assert p1 + (p2 + (p3 + (p4 + p5))) == h;
  }

  /** Reading the canonical text back gives the value: `uuid.UUID(str(u)) == u`. */
  lemma UuidRoundTrip(v: nat)
    requires v < UuidLimit
    ensures UuidValue(UuidString(v)) == Some(v)
  {
    var s := UuidString(v);
    var h := Hex(v, 32);
    UuidStringChars(v);
    RemoveAbsent(s, "urn:");
    RemoveAbsent(s, "uuid:");
    assert StripBracesLeft(s) == s;
    assert StripBraces(s) == s;
    DehyphenateCanonical(v);
    ParseIntInPlainDigits(h, 16);
    HexValue(v, 32);
  }

  /** The canonical text in braces, and the 32 digits without hyphens, name the same UUID. */
  lemma UuidOtherSpellings(v: nat)
    requires v < UuidLimit
    ensures UuidValue("{" + UuidString(v) + "}") == Some(v)
    ensures UuidValue(Hex(v, 32)) == Some(v)
  {
    UuidBracedSpelling(v);
    UuidPlainSpelling(v);
  }

  /** The canonical text in braces: the braces are stripped before the digits are read. */
  lemma UuidBracedSpelling(v: nat)
    requires v < UuidLimit
    ensures UuidValue("{" + UuidString(v) + "}") == Some(v)
  {
    var s := UuidString(v);
    var b := "{" + s + "}";
    UuidStringChars(v);
    assert forall i :: 0 <= i < |b| ==> b[i] != ':' by {
      forall i | 0 <= i < |b|
        ensures b[i] != ':'
      {
        if 0 < i < |b| - 1 { assert b[i] == s[i - 1]; }
      }
    }
    RemoveAbsent(b, "urn:");
    RemoveAbsent(b, "uuid:");
    assert b[1..] == s + "}";
    assert StripBracesLeft(b) == s + "}";
    assert (s + "}")[..|s|] == s;
    assert StripBracesRight(s + "}") == s;
    assert StripBraces(b) == s;
    DehyphenateCanonical(v);
    ParseIntInPlainDigits(Hex(v, 32), 16);
    HexValue(v, 32);
  }

  /** The 32 digits alone, with no hyphen to remove. */
  lemma UuidPlainSpelling(v: nat)
    requires v < UuidLimit
    ensures UuidValue(Hex(v, 32)) == Some(v)
  {
    var h := Hex(v, 32);
    RemoveAbsent(h, "urn:");
    RemoveAbsent(h, "uuid:");
    assert StripBracesLeft(h) == h;
    RemoveAbsent(h, "-");
    ParseIntInPlainDigits(h, 16);
    HexValue(v, 32);
  }

  /** Different values have different canonical texts. */
  lemma UuidStringInjective(v: nat, w: nat)
    requires v < UuidLimit && w < UuidLimit && UuidString(v) == UuidString(w)
    ensures v == w
  {
    UuidRoundTrip(v);
    UuidRoundTrip(w);
  }

  /**
    A lookup finds a row under canonical text only: every accepted value converts to the
    canonical text of its UUID, and that text converts to itself.
  */
  lemma UuidKeyCanonical(j: Json)
    requires !j.JNull? && UuidKey(j).Ok?
    ensures exists v: nat :: v < UuidLimit && UuidKey(j).value == UuidString(v)
    ensures UuidKey(JStr(UuidKey(j).value)) == UuidKey(j)
  {
    var v: nat :| v < UuidLimit && UuidKey(j).value == UuidString(v) by {
      match j
      case JInt(i) =>
      case JBool(b) =>
      case JStr(s) =>
    }
    UuidRoundTrip(v);
  }

  /** Text that is not 32 hexadecimal digits once hyphens are gone raises: `"abc"` is not a UUID. */
  lemma ShortTextIsNoUuid()
    ensures UuidKey(JStr("abc")) == Err(InvalidUuid(JStr("abc")))
  {
    RemoveAbsent("abc", "urn:");
    RemoveAbsent("abc", "uuid:");
    assert StripBracesLeft("abc") == "abc";
    assert StripBraces("abc") == "abc";
    RemoveAbsent("abc", "-");
  }
}
