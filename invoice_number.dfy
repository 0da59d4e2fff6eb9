/**
  `InvoiceNumbers`: the invoice number `NNN-DD-MM-YYYY` — the next number of the day within an
  organization, as the source computes it and as it evidently intends it.
*/
module InvoiceNumbers {
  import opened Wrappers
  import opened PyValues
  import opened Calendar

  // ---------------------------------------------------------------------------
  // Formatting
  // ---------------------------------------------------------------------------

  function Zeros(k: nat): (r: string)
    ensures |r| == k && forall i :: 0 <= i < k ==> r[i] == '0'
  {
    seq(k, _ => '0')
  }

  /** `{n:0<width>d}` for `n >= 0`: at least `width` digits, zeros in front. */
  function ZeroPad(n: nat, width: nat): (s: string)
    ensures |s| >= width && |s| > 0 && AllDigits(s)
  {
    var d := FormatNat(n);
    if |d| >= width then d else Zeros(width - |d|) + d
  }

  /** `{n:03d}`: the sign counts towards the width. */
  function Format03(n: int): string {
    if n < 0 then "-" + ZeroPad(-n, 2) else ZeroPad(n, 3)
  }

  /** The date part `-{day:02d}-{month:02d}-{year}`. */
  function DaySuffix(d: Date): (s: string)
    requires ValidDate(d) && d.year >= 1
    ensures |s| > 0 && s[0] == '-'
  {
    "-" + ZeroPad(d.day, 2) + "-" + ZeroPad(d.month, 2) + "-" + FormatNat(d.year)
  }

  function InvoiceNumber(n: int, d: Date): string
    requires ValidDate(d) && d.year >= 1
  {
    Format03(n) + DaySuffix(d)
  }

  predicate EndsWith(s: string, suffix: string) {
    |suffix| <= |s| && s[|s| - |suffix|..] == suffix
  }

  /** `number.split('-')[0]` */
  function NumberPart(s: string): string {
    s[..FirstIndex(s, '-')]
  }

  lemma {:induction false} DigitsValueZeros(k: nat)
    ensures DigitsValue(Zeros(k)) == 0
  {
    if k > 0 {
      assert Zeros(k)[..k - 1] == Zeros(k - 1);
      DigitsValueZeros(k - 1);
    }
  }

  /** Leading zeros do not change the value. */
  lemma {:induction false} DigitsValueLeadingZeros(k: nat, d: string)
    requires AllDigits(d)
    ensures AllDigits(Zeros(k) + d) && DigitsValue(Zeros(k) + d) == DigitsValue(d)
  {
    if |d| == 0 {
      assert Zeros(k) + d == Zeros(k);
      DigitsValueZeros(k);
    } else {
      var s := Zeros(k) + d;
      assert s[..|s| - 1] == Zeros(k) + d[..|d| - 1];
      DigitsValueLeadingZeros(k, d[..|d| - 1]);
    }
  }

  /** `int()` reads a zero-padded number back. */
  lemma ParseZeroPad(n: nat, width: nat)
    ensures ParseInt(ZeroPad(n, width)) == Some(n)
  {
    var s := ZeroPad(n, width);
    ParseIntInPlainDigits(s, 10);
    DigitsValueOfFormatNat(n);
    var d := FormatNat(n);
    if |d| < width {
      DigitsValueLeadingZeros(width - |d|, d);
    }
  }

  /** The number part of a generated number is the zero-padded counter. */
  lemma NumberPartOfInvoiceNumber(n: nat, d: Date)
    requires ValidDate(d) && d.year >= 1
    ensures NumberPart(InvoiceNumber(n, d)) == ZeroPad(n, 3)
    ensures EndsWith(InvoiceNumber(n, d), DaySuffix(d))
  {
    var p := ZeroPad(n, 3);
    var s := InvoiceNumber(n, d);
    assert forall j :: 0 <= j < |p| ==> s[j] == p[j] && IsDigit(p[j]);
    FirstIndexIs(s, '-', |p|);
    assert s[..|p|] == p;
    assert s[|s| - |DaySuffix(d)|..] == DaySuffix(d);
  }

  /** A generated number reads back as its counter and carries its day. */
  lemma InvoiceNumberRoundTrip(n: nat, d: Date)
    requires ValidDate(d) && d.year >= 1
    ensures ParseInt(NumberPart(InvoiceNumber(n, d))) == Some(n)
    ensures EndsWith(InvoiceNumber(n, d), DaySuffix(d))
  {
    NumberPartOfInvoiceNumber(n, d);
    ParseZeroPad(n, 3);
  }

  // ---------------------------------------------------------------------------
  // Ordering by `-invoice_number`
  // ---------------------------------------------------------------------------

  /** `a < b` on strings: code point by code point, a proper prefix first. */
  predicate LexLess(a: string, b: string) {
    if |a| == 0 then |b| > 0
    else if |b| == 0 then false
    else if a[0] != b[0] then a[0] < b[0]
    else LexLess(a[1..], b[1..])
  }

  lemma {:induction false} LexLessTransitive(a: string, b: string, c: string)
    requires LexLess(a, b) && LexLess(b, c)
    ensures LexLess(a, c)
  {
    if |a| > 0 && |b| > 0 && |c| > 0 && a[0] == b[0] && b[0] == c[0] {
      LexLessTransitive(a[1..], b[1..], c[1..]);
    }
  }

  lemma {:induction false} LexLessTotal(a: string, b: string)
    requires a != b
    ensures LexLess(a, b) || LexLess(b, a)
  {
    if |a| > 0 && |b| > 0 && a[0] == b[0] {
      assert a[1..] != b[1..] by {
        assert a == [a[0]] + a[1..] && b == [b[0]] + b[1..];
      }
      LexLessTotal(a[1..], b[1..]);
    }
  }

  /** The first row of `order_by('-invoice_number')`: the greatest string. */
  function LexMax(xs: seq<string>): (r: string)
    requires |xs| > 0
    ensures r in xs
    ensures forall x :: x in xs ==> !LexLess(r, x)
  {
    if |xs| == 1 then
      LexLessIrreflexive(xs[0]);
      xs[0]
    else
      var m := LexMax(xs[..|xs| - 1]);
      var last := xs[|xs| - 1];
      assert forall x :: x in xs ==> x in xs[..|xs| - 1] || x == last;
      if LexLess(m, last) then
        assert forall x :: x in xs[..|xs| - 1] ==> !LexLess(last, x) by {
          forall x | x in xs[..|xs| - 1] && LexLess(last, x)
            ensures LexLess(m, x)
          {
            LexLessTransitive(m, last, x);
          }
        }
        LexLessIrreflexive(last);
        last
      else m
  }

  lemma {:induction false} LexLessIrreflexive(a: string)
    ensures !LexLess(a, a)
  {
    if |a| > 0 {
      LexLessIrreflexive(a[1..]);
    }
  }

  // ---------------------------------------------------------------------------
  // _generate_invoice_number
  // ---------------------------------------------------------------------------

  /** The organization's numbers that end with the day's suffix (`invoice_number__endswith`). */
  function SameDay(numbers: seq<string>, d: Date): (r: seq<string>)
    requires ValidDate(d) && d.year >= 1
    ensures forall x :: x in r <==> x in numbers && EndsWith(x, DaySuffix(d))
  {
    if |numbers| == 0 then []
    else
      var rest := SameDay(numbers[..|numbers| - 1], d);
      var x := numbers[|numbers| - 1];
      assert forall y :: y in numbers <==> y in numbers[..|numbers| - 1] || y == x;
      if EndsWith(x, DaySuffix(d)) then rest + [x] else rest
  }

  /**
    The counter as written: one more than the number part of the lexicographically greatest
    same-day number, and 1 when there is none or `int()` rejects its number part.
  */
  function NextCounterAsWritten(numbers: seq<string>, d: Date): int
    requires ValidDate(d) && d.year >= 1
  {
    var today := SameDay(numbers, d);
    if |today| == 0 then 1
    else
      match ParseInt(NumberPart(LexMax(today)))
      case Some(v) => v + 1
      case None => 1
  }

  function GenerateAsWritten(numbers: seq<string>, d: Date): string
    requires ValidDate(d) && d.year >= 1
  {
    InvoiceNumber(NextCounterAsWritten(numbers, d), d)
  }

  lemma SuffixOfNewYear2026()
    ensures DaySuffix(Date(2026, 1, 1)) == "-01-01-2026"
  {
    assert FormatNat(1) == "1";
    assert ZeroPad(1, 2) == "01";
    assert FormatNat(2026) == "2026" by {
      assert FormatNat(2) == "2";
      assert FormatNat(20) == "20";
      assert FormatNat(202) == "202";
    }
  }

  lemma GreatestOf999And1000()
    ensures LexMax(["999-01-01-2026", "1000-01-01-2026"]) == "999-01-01-2026"
  {
    var numbers := ["999-01-01-2026", "1000-01-01-2026"];
    assert numbers[..1] == ["999-01-01-2026"];
    assert !LexLess(numbers[0], numbers[1]);
  }

  lemma NumberPartOf999()
    ensures ParseInt(NumberPart("999-01-01-2026")) == Some(999)
  {
    FirstIndexIs("999-01-01-2026", '-', 3);
    assert NumberPart("999-01-01-2026") == "999";
    assert FormatNat(999) == "999" by {
      assert FormatNat(9) == "9";
      assert FormatNat(99) == "99";
    }
    ParseZeroPad(999, 3);
  }

  lemma BothAreFromNewYear2026()
    ensures SameDay(["999-01-01-2026", "1000-01-01-2026"], Date(2026, 1, 1)) == ["999-01-01-2026", "1000-01-01-2026"]
  {
    var d := Date(2026, 1, 1);
    var numbers := ["999-01-01-2026", "1000-01-01-2026"];
    SuffixOfNewYear2026();
    assert EndsWith(numbers[0], DaySuffix(d));
    assert EndsWith(numbers[1], DaySuffix(d));
    assert numbers[..1] == ["999-01-01-2026"];
    assert numbers[..1][..0] == [];
  }

  lemma Number1000OfNewYear2026()
    ensures InvoiceNumber(1000, Date(2026, 1, 1)) == "1000-01-01-2026"
  {
    SuffixOfNewYear2026();
    assert FormatNat(1000) == "1000" by {
      assert FormatNat(1) == "1";
      assert FormatNat(10) == "10";
      assert FormatNat(100) == "100";
    }
  }

  /**
    On a day that already has numbers 999 and 1000, "999-…" sorts after "1000-…", so the
    generator hands out 1000 a second time.
  */
  lemma AsWrittenRepeatsAfter999()
    ensures var numbers := ["999-01-01-2026", "1000-01-01-2026"];
      GenerateAsWritten(numbers, Date(2026, 1, 1)) == "1000-01-01-2026" &&
      GenerateAsWritten(numbers, Date(2026, 1, 1)) in numbers
  {
    var numbers := ["999-01-01-2026", "1000-01-01-2026"];
    var d := Date(2026, 1, 1);
    BothAreFromNewYear2026();
    GreatestOf999And1000();
    NumberPartOf999();
    assert NextCounterAsWritten(numbers, d) == 1000;
    Number1000OfNewYear2026();
    assert numbers[1] == "1000-01-01-2026";
  }

  /** The greatest counter among the same-day numbers whose number part `int()` accepts; 0 if none. */
  function MaxCounter(today: seq<string>): (m: nat)
    ensures forall x :: x in today && ParseInt(NumberPart(x)).Some? ==> ParseInt(NumberPart(x)).value <= m
  {
    if |today| == 0 then 0
    else
      var rest := MaxCounter(today[..|today| - 1]);
      var x := today[|today| - 1];
      assert forall y :: y in today ==> y in today[..|today| - 1] || y == x;
      match ParseInt(NumberPart(x))
      case Some(v) => if v > rest then v else rest
      case None => rest
  }

  /** The counter as intended: one more than the numerically greatest same-day counter. */
  function NextCounter(numbers: seq<string>, d: Date): (n: nat)
    requires ValidDate(d) && d.year >= 1
    ensures n >= 1
  {
    MaxCounter(SameDay(numbers, d)) + 1
  }

  function Generate(numbers: seq<string>, d: Date): string
    requires ValidDate(d) && d.year >= 1
  {
    InvoiceNumber(NextCounter(numbers, d), d)
  }

  /** The intended generator never repeats a number of the organization. */
  lemma GenerateIsFresh(numbers: seq<string>, d: Date)
    requires ValidDate(d) && d.year >= 1
    ensures Generate(numbers, d) !in numbers
    ensures EndsWith(Generate(numbers, d), DaySuffix(d))
  {
    var n := NextCounter(numbers, d);
    var g := Generate(numbers, d);
    InvoiceNumberRoundTrip(n, d);
    forall x | x in numbers
      ensures x != g
    {
      if EndsWith(x, DaySuffix(d)) {
        assert x in SameDay(numbers, d);
        assert ParseInt(NumberPart(x)) != Some(n);
      }
    }
  }

  /** Both generators agree on the first number of a day: 001. */
  lemma FirstOfTheDay(numbers: seq<string>, d: Date)
    requires ValidDate(d) && d.year >= 1
    requires forall x :: x in numbers ==> !EndsWith(x, DaySuffix(d))
    ensures GenerateAsWritten(numbers, d) == Generate(numbers, d) == InvoiceNumber(1, d)
  {
    assert SameDay(numbers, d) == [] by {
      if |SameDay(numbers, d)| > 0 {
        assert SameDay(numbers, d)[0] in SameDay(numbers, d);
      }
    }
  }
}
