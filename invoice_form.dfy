/**
  `InvoiceForm`: reading the indexed `item_description_N`, `item_quantity_N` and
  `item_unit_price_N` fields of the invoice form into three lists, padding them to one length,
  and turning the rows into invoice lines with their rounded totals.
*/
module InvoiceForm {
  import opened Wrappers
  import opened PyValues
  import opened Decimals

  // ---------------------------------------------------------------------------
  // Indexed field names
  // ---------------------------------------------------------------------------

  datatype Field = DescriptionField | QuantityField | UnitPriceField

  predicate StartsWith(s: string, prefix: string) {
    |prefix| <= |s| && s[..|prefix|] == prefix
  }

  /** The `if … elif … elif` on the key's prefix. */
  function FieldOf(key: string): Option<Field> {
    if StartsWith(key, "item_description_") then Some(DescriptionField)
    else if StartsWith(key, "item_quantity_") then Some(QuantityField)
    else if StartsWith(key, "item_unit_price_") then Some(UnitPriceField)
    else None
  }

  /** `key.split("_")[-1]`: what follows the last underscore. */
  function LastSegment(key: string): (r: string)
    ensures |r| <= |key| && r == key[|key| - |r|..]
    ensures forall i :: 0 <= i < |r| ==> r[i] != '_'
  {
    if |key| == 0 || key[|key| - 1] == '_' then ""
    else LastSegment(key[..|key| - 1]) + [key[|key| - 1]]
  }

  /** `int(key.split("_")[-1])`; `None` where `int` raises `ValueError`. */
  function KeyIndex(key: string): Option<int> {
    ParseInt(LastSegment(key))
  }

  /** "item_quantity_12" is row 12, "item_quantity_x" has no index, "item_unit_price_2" is row 2. */
  lemma KeyIndexExample()
    ensures KeyIndex("item_quantity_12") == Some(12)
    ensures KeyIndex("item_quantity_x") == None
    ensures FieldOf("item_unit_price_2") == Some(UnitPriceField)
    ensures KeyIndex("item_unit_price_2") == Some(2)
  {
    QuantityTwelve();
    QuantityLetter();
    UnitPriceTwo();
  }

  lemma QuantityTwelve()
    ensures KeyIndex("item_quantity_12") == Some(12)
  {
    var q := "item_quantity_12";
    assert LastSegment(q[..|q| - 2]) == "";
    assert LastSegment(q[..|q| - 1]) == "1";
    assert LastSegment(q) == "12";
    assert FormatNat(12) == "12";
    ParseFormatInt(12);
  }

  lemma QuantityLetter()
    ensures KeyIndex("item_quantity_x") == None
  {
    var x := "item_quantity_x";
    assert LastSegment(x[..|x| - 1]) == "";
    assert LastSegment(x) == "x";
    assert ParseInt("x") == None;
  }

  lemma UnitPriceTwo()
    ensures FieldOf("item_unit_price_2") == Some(UnitPriceField)
    ensures KeyIndex("item_unit_price_2") == Some(2)
  {
    var key := "item_unit_price_2";
    assert key[5] != "item_description_"[5] && key[5] != "item_quantity_"[5];
    assert key[..16] == "item_unit_price_";
    assert LastSegment(key[..|key| - 1]) == "";
    assert LastSegment(key) == "2";
    assert FormatNat(2) == "2";
    ParseFormatInt(2);
  }

  // ---------------------------------------------------------------------------
  // Storing a value at an index
  // ---------------------------------------------------------------------------

  function Blanks(k: nat): (r: seq<string>)
    ensures |r| == k && forall i :: 0 <= i < k ==> r[i] == ""
  {
    seq(k, _ => "")
  }

  /** `list.extend([''] * (n - len(list)))` */
  function PadTo(list: seq<string>, n: nat): (r: seq<string>)
    ensures |r| == if |list| >= n then |list| else n
    ensures forall j :: 0 <= j < |r| ==> r[j] == if j < |list| then list[j] else ""
  {
    if |list| >= n then list else list + Blanks(n - |list|)
  }

  /**
    The padding loop and `list[index] = value`. A negative index counts from the end as in
    Python; one beyond the start raises `IndexError`, which the parser skips (`None`).
  */
  function Put(list: seq<string>, index: int, value: string): (r: Option<seq<string>>)
    ensures index >= 0 ==> r.Some? && |r.value| == (if |list| > index then |list| else index + 1)
    ensures index >= 0 ==> (r.Some? && r.value[index] == value &&
      forall j :: 0 <= j < |r.value| && j != index ==> r.value[j] == if j < |list| then list[j] else "")
    ensures index < 0 ==> (r.Some? <==> -index <= |list|)
    ensures index < 0 && r.Some? ==> r.value == list[|list| + index := value]
  {
    if index >= 0 then Some(PadTo(list, index + 1)[index := value])
    else if -index <= |list| then Some(list[|list| + index := value])
    else None
  }

  /** The source's `while len(list) <= index: list.append("")` followed by the assignment. */
  method StoreAt(list: seq<string>, index: int, value: string) returns (r: Option<seq<string>>)
    ensures r == Put(list, index, value)
  {
    var grown := list;
    while |grown| <= index
      invariant |grown| >= |list| && grown == PadTo(list, |grown|)
      invariant |grown| <= index + 1 || grown == list
      decreases index + 1 - |grown|
    {
      grown := grown + [""];
    }
    if index >= 0 {
      assert grown == PadTo(list, index + 1);
      r := Some(grown[index := value]);
    } else if -index <= |grown| {
      r := Some(grown[|grown| + index := value]);
    } else {
      r := None;
    }
  }

  // ---------------------------------------------------------------------------
  // The three lists
  // ---------------------------------------------------------------------------

  datatype Lists = Lists(descriptions: seq<string>, quantities: seq<string>, unitPrices: seq<string>)

  function Get(lists: Lists, f: Field): seq<string> {
    match f
    case DescriptionField => lists.descriptions
    case QuantityField => lists.quantities
    case UnitPriceField => lists.unitPrices
  }

  function With(lists: Lists, f: Field, l: seq<string>): (r: Lists)
    ensures Get(r, f) == l
    ensures forall g :: g != f ==> Get(r, g) == Get(lists, g)
  {
    match f
    case DescriptionField => lists.(descriptions := l)
    case QuantityField => lists.(quantities := l)
    case UnitPriceField => lists.(unitPrices := l)
  }

  /** One POST item: a matching key with a usable index stores its value; anything else is skipped. */
  function Step(lists: Lists, key: string, value: string): Lists {
    match FieldOf(key)
    case None => lists
    case Some(f) =>
      match KeyIndex(key)
      case None => lists
      case Some(i) =>
        match Put(Get(lists, f), i, value)
        case None => lists
        case Some(l) => With(lists, f, l)
  }

  /** The lists after the `for key, value in request.POST.items()` loop. */
  function ParseFields(post: seq<(string, string)>): Lists {
    if |post| == 0 then Lists([], [], [])
    else
      var (key, value) := post[|post| - 1];
      Step(ParseFields(post[..|post| - 1]), key, value)
  }

  method ParseItemFields(post: seq<(string, string)>) returns (lists: Lists)
    ensures lists == ParseFields(post)
  {
    lists := Lists([], [], []);
    var i := 0;
    while i < |post|
      invariant 0 <= i <= |post|
      invariant lists == ParseFields(post[..i])
    {
      var (key, value) := post[i];
      assert post[..i + 1][..i] == post[..i];
      var field := FieldOf(key);
      if field.Some? {
        var index := KeyIndex(key);
        if index.Some? {
          var stored := StoreAt(Get(lists, field.value), index.value, value);
          if stored.Some? {
            lists := With(lists, field.value, stored.value);
          }
        }
      }
      i := i + 1;
    }
    assert post[..|post|] == post;
  }

  /**
    An item field with index `n >= 0` puts its value at position `n` of its own list, grows that
    list with blanks up to `n` when needed, and leaves the other two lists alone.
  */
  lemma StepStoresAtIndex(lists: Lists, key: string, value: string, f: Field, n: nat)
    requires FieldOf(key) == Some(f) && KeyIndex(key) == Some(n)
    ensures var l := Get(Step(lists, key, value), f);
      |l| == (if |Get(lists, f)| > n then |Get(lists, f)| else n + 1) && l[n] == value
    ensures forall g :: g != f ==> Get(Step(lists, key, value), g) == Get(lists, g)
  {
    var l := Put(Get(lists, f), n, value).value;
    assert Step(lists, key, value) == With(lists, f, l);
  }

  /** Keys outside the three item fields leave the lists as they are. */
  lemma OtherKeysIgnored(lists: Lists, key: string, value: string)
    requires FieldOf(key).None? || KeyIndex(key).None?
    ensures Step(lists, key, value) == lists
  {
  }

  function Max3(a: nat, b: nat, c: nat): (m: nat)
    ensures m >= a && m >= b && m >= c && (m == a || m == b || m == c)
  {
    if a >= b && a >= c then a else if b >= c then b else c
  }

  /** The three `extend` calls: every list padded to the longest one. */
  function PadAll(lists: Lists): (r: Lists)
    ensures var n := Max3(|lists.descriptions|, |lists.quantities|, |lists.unitPrices|);
      |r.descriptions| == n && |r.quantities| == n && |r.unitPrices| == n
    ensures forall f, j :: 0 <= j < |Get(r, f)| ==>
      Get(r, f)[j] == if j < |Get(lists, f)| then Get(lists, f)[j] else ""
  {
    var n := Max3(|lists.descriptions|, |lists.quantities|, |lists.unitPrices|);
    Lists(PadTo(lists.descriptions, n), PadTo(lists.quantities, n), PadTo(lists.unitPrices, n))
  }

  // ---------------------------------------------------------------------------
  // Rows and lines
  // ---------------------------------------------------------------------------

  datatype Line = Line(position: nat, description: string, quantity: Dec, unitPrice: Dec, total: int)

  /** What one zipped row gives: skipped (blank description), a line, or a value `Decimal` rejects. */
  datatype RowOutcome = Skipped | Kept(line: Line) | Invalid

  /** `Decimal('1.0')` and `Decimal('0.0')`, the defaults of a blank quantity and price. */
  const DefaultQuantity := Dec(10, 1)
  const DefaultUnitPrice := Dec(0, 1)

  /** The body of the row loop for row `i`. */
  function RowAt(i: nat, desc: string, qty: string, price: string): (r: RowOutcome)
    ensures r.Kept? ==> r.line.position == i + 1 && r.line.description == Strip(desc) && r.line.description != ""
    ensures r.Kept? ==> r.line.total == Cents(Mul(r.line.quantity, r.line.unitPrice))
    ensures Strip(desc) == "" <==> r.Skipped?
  {
    var d := Strip(desc);
    if d == "" then Skipped
    else
      var q := Strip(qty);
      var p := Strip(price);
      var quantity := if q == "" then Some(DefaultQuantity) else ParseDecimal(q);
      var unitPrice := if p == "" then Some(DefaultUnitPrice) else ParseDecimal(p);
      if quantity.None? || unitPrice.None? then Invalid
      else Kept(Line(i + 1, d, quantity.value, unitPrice.value, Cents(Mul(quantity.value, unitPrice.value))))
  }

  /** A blank quantity counts as one and a blank price as zero. */
  lemma BlankQuantityAndPrice(i: nat, desc: string)
    requires Strip(desc) != ""
    ensures RowAt(i, desc, "", "") == Kept(Line(i + 1, Strip(desc), DefaultQuantity, DefaultUnitPrice, 0))
  {
    assert Strip("") == "";
  }

  /** The outcome of each of the first `n` zipped rows. */
  function Outcomes(ds: seq<string>, qs: seq<string>, ps: seq<string>, n: nat): (r: seq<RowOutcome>)
    requires n <= |ds| && n <= |qs| && n <= |ps|
    ensures |r| == n && forall i :: 0 <= i < n ==> r[i] == RowAt(i, ds[i], qs[i], ps[i])
  {
    seq(n, i requires 0 <= i < n => RowAt(i, ds[i], qs[i], ps[i]))
  }

  /** A kept row `i` is numbered `i + 1`. */
  ghost predicate Numbered(outs: seq<RowOutcome>) {
    forall i :: 0 <= i < |outs| && outs[i].Kept? ==> outs[i].line.position == i + 1
  }

  lemma OutcomesNumbered(ds: seq<string>, qs: seq<string>, ps: seq<string>, n: nat)
    requires n <= |ds| && n <= |qs| && n <= |ps|
    ensures Numbered(Outcomes(ds, qs, ps, n))
  {
  }

  /** The lines of the kept rows, in row order; rejected rows are left out. */
  function KeptLines(outs: seq<RowOutcome>): seq<Line> {
    if |outs| == 0 then []
    else
      var last := outs[|outs| - 1];
      KeptLines(outs[..|outs| - 1]) + (if last.Kept? then [last.line] else [])
  }

  /** The lines of the first `n` rows. */
  function Lines(ds: seq<string>, qs: seq<string>, ps: seq<string>, n: nat): seq<Line>
    requires n <= |ds| && n <= |qs| && n <= |ps|
  {
    KeptLines(Outcomes(ds, qs, ps, n))
  }

  /** The rows before the last one are numbered too. */
  lemma NumberedInit(outs: seq<RowOutcome>)
    requires Numbered(outs) && |outs| > 0
    ensures Numbered(outs[..|outs| - 1])
  {
    var init := outs[..|outs| - 1];
    forall i | 0 <= i < |init| && init[i].Kept?
      ensures init[i].line.position == i + 1
    {
      assert init[i] == outs[i];
    }
  }

  lemma KeptLinesStep(outs: seq<RowOutcome>)
    requires |outs| > 0
    ensures var last := outs[|outs| - 1];
      KeptLines(outs) == KeptLines(outs[..|outs| - 1]) + (if last.Kept? then [last.line] else [])
  {
  }

  /** Every line is the outcome of the row its position names. */
  lemma {:induction false} KeptLinesFromRows(outs: seq<RowOutcome>)
    requires Numbered(outs)
    ensures forall l :: l in KeptLines(outs) ==> 1 <= l.position <= |outs| && outs[l.position - 1] == Kept(l)
  {
    if |outs| > 0 {
      var init := outs[..|outs| - 1];
      NumberedInit(outs);
      KeptLinesFromRows(init);
      KeptLinesStep(outs);
      assert forall l :: l in KeptLines(init) ==> outs[l.position - 1] == init[l.position - 1];
    }
  }

  /** Positions increase along the lines. */
  lemma {:induction false} KeptLinesIncrease(outs: seq<RowOutcome>)
    requires Numbered(outs)
    ensures var lines := KeptLines(outs);
      forall i, j :: 0 <= i < j < |lines| ==> lines[i].position < lines[j].position
  {
    if |outs| > 0 {
      var init := outs[..|outs| - 1];
      NumberedInit(outs);
      KeptLinesIncrease(init);
      KeptLinesFromRows(init);
      KeptLinesStep(outs);
      var ri := KeptLines(init);
      var lines := KeptLines(outs);
      forall i, j | 0 <= i < j < |lines|
        ensures lines[i].position < lines[j].position
      {
        assert lines[i] == ri[i] && ri[i] in ri;
        if j < |ri| {
          assert lines[j] == ri[j];
        }
      }
    }
  }

  /** Every kept row has its line. */
  lemma {:induction false} KeptRowsListed(outs: seq<RowOutcome>)
    ensures forall i :: 0 <= i < |outs| && outs[i].Kept? ==> outs[i].line in KeptLines(outs)
  {
    if |outs| > 0 {
      var init := outs[..|outs| - 1];
      KeptRowsListed(init);
      KeptLinesStep(outs);
      assert forall i :: 0 <= i < |init| ==> init[i] == outs[i];
    }
  }

  /** The row loop as written: the first row `Decimal` rejects ends the request with an error. */
  function KeptLinesAsWritten(outs: seq<RowOutcome>): Result<seq<Line>> {
    if |outs| == 0 then Ok([])
    else
      match KeptLinesAsWritten(outs[..|outs| - 1])
      case Err(e) => Err(e)
      case Ok(rest) =>
        match outs[|outs| - 1]
        case Kept(l) => Ok(rest + [l])
        case Skipped => Ok(rest)
        case Invalid => Err("InvalidOperation")
  }

  function LinesAsWritten(ds: seq<string>, qs: seq<string>, ps: seq<string>, n: nat): Result<seq<Line>>
    requires n <= |ds| && n <= |qs| && n <= |ps|
  {
    KeptLinesAsWritten(Outcomes(ds, qs, ps, n))
  }

  /** Without a rejected row both agree; with one, the code as written fails. */
  lemma {:induction false} AsWrittenFailsExactlyOnInvalidRows(outs: seq<RowOutcome>)
    ensures KeptLinesAsWritten(outs).Err? <==> exists i :: 0 <= i < |outs| && outs[i].Invalid?
    ensures KeptLinesAsWritten(outs).Ok? ==> KeptLinesAsWritten(outs).value == KeptLines(outs)
  {
    if |outs| > 0 {
      var init := outs[..|outs| - 1];
      AsWrittenFailsExactlyOnInvalidRows(init);
      forall i | 0 <= i < |init|
        ensures init[i] == outs[i]
      {
      }
      if outs[|outs| - 1].Invalid? {
        assert KeptLinesAsWritten(outs).Err?;
      }
    }
  }

  /** A quantity of "abc" fails the whole request as written; the intended loop skips the row. */
  lemma NonNumericQuantity()
    ensures LinesAsWritten(["Work"], ["abc"], ["10"], 1).Err?
    ensures Lines(["Work"], ["abc"], ["10"], 1) == []
  {
    assert Strip("Work") == "Work";
    assert Strip("abc") == "abc";
    FirstIndexIs("abc", '.', 3);
    assert !IsDigit('a');
    assert ParseDecimal("abc").None?;
    var outs := Outcomes(["Work"], ["abc"], ["10"], 1);
    assert outs[0] == Invalid;
    assert outs[..0] == [];
  }

  function SumTotals(lines: seq<Line>): int {
    if |lines| == 0 then 0 else SumTotals(lines[..|lines| - 1]) + lines[|lines| - 1].total
  }

  /**
    The `for i, (desc, qty, price) in enumerate(zip(...))` loop with a row `Decimal` rejects
    skipped: the lines and the running `subtotal` of their rounded totals.
  */
  method ComputeLines(lists: Lists) returns (lines: seq<Line>, subtotal: int)
    ensures var n := Min3(|lists.descriptions|, |lists.quantities|, |lists.unitPrices|);
      lines == Lines(lists.descriptions, lists.quantities, lists.unitPrices, n)
    ensures subtotal == SumTotals(lines)
  {
    var ds, qs, ps := lists.descriptions, lists.quantities, lists.unitPrices;
    var n := Min3(|ds|, |qs|, |ps|);
    ghost var outs := Outcomes(ds, qs, ps, n);
    lines := [];
    subtotal := 0;
    for i := 0 to n
      invariant lines == KeptLines(outs[..i])
      invariant subtotal == SumTotals(lines)
    {
      var row := RowAt(i, ds[i], qs[i], ps[i]);
      KeptLinesPrefixStep(outs, i);
      if row.Kept? {
        SumTotalsSnoc(lines, row.line);
        lines := lines + [row.line];
        subtotal := subtotal + row.line.total;
      }
    }
    assert outs[..n] == outs;
  }

  /** One more row adds its line, if kept, at the end. */
  lemma KeptLinesPrefixStep(outs: seq<RowOutcome>, i: nat)
    requires i < |outs|
    ensures KeptLines(outs[..i + 1]) == KeptLines(outs[..i]) + (if outs[i].Kept? then [outs[i].line] else [])
  {
    assert outs[..i + 1][..i] == outs[..i];
  }

  lemma SumTotalsSnoc(lines: seq<Line>, l: Line)
    ensures SumTotals(lines + [l]) == SumTotals(lines) + l.total
  {
    assert (lines + [l])[..|lines|] == lines;
  }

  /** `zip` stops at the shortest list. */
  function Min3(a: nat, b: nat, c: nat): (m: nat)
    ensures m <= a && m <= b && m <= c && (m == a || m == b || m == c)
  {
    if a <= b && a <= c then a else if b <= c then b else c
  }

  /** After padding, `zip` walks every row of the longest list. */
  lemma PaddedRowsAreAll(lists: Lists)
    ensures var p := PadAll(lists);
      Min3(|p.descriptions|, |p.quantities|, |p.unitPrices|) ==
      Max3(|lists.descriptions|, |lists.quantities|, |lists.unitPrices|)
  {
  }

  // ---------------------------------------------------------------------------
  // VAT and totals
  // ---------------------------------------------------------------------------

  datatype Totals = Totals(subtotal: int, vatAmount: int, total: int)

  /**
    `vat = (subtotal * vat_rate / 100).quantize(Decimal('0.01'))` and `total = subtotal + vat`,
    with `subtotal` in cents and `vat_rate` in hundredths of a percent (two decimal places).
  */
  function TotalsOf(subtotal: int, vatRate: int): (t: Totals)
    ensures t.subtotal == subtotal && t.total == t.subtotal + t.vatAmount
    ensures 2 * Abs(t.vatAmount * 1000000 - subtotal * vatRate * 100) <= 1000000
    ensures 2 * Abs(t.vatAmount * 1000000 - subtotal * vatRate * 100) == 1000000 ==> t.vatAmount % 2 == 0
  {
    assert Pow10(6) == 1000000 by {
      assert Pow10(2) == 100;
      assert Pow10(4) == 10000;
    }
    var vat := Cents(Dec(subtotal * vatRate, 6));
    Totals(subtotal, vat, subtotal + vat)
  }

  /** At 0 % (the small-business default) there is no VAT and the total is the subtotal. */
  lemma ZeroRateNoVat(subtotal: int)
    ensures TotalsOf(subtotal, 0).vatAmount == 0 && TotalsOf(subtotal, 0).total == subtotal
  {
    var t := TotalsOf(subtotal, 0);
    assert 2 * Abs(t.vatAmount * 1000000) <= 1000000;
  }

  /** 19 % on 10.00 is 1.90, and on 0.05 it is 0.0095, rounded to 0.01. */
  lemma NineteenPercentExamples()
    ensures TotalsOf(1000, 1900) == Totals(1000, 190, 1190)
    ensures TotalsOf(5, 1900).vatAmount == 1
  {
    var a := TotalsOf(1000, 1900);
    assert 2 * Abs(a.vatAmount * 1000000 - 190000000) <= 1000000;
    var b := TotalsOf(5, 1900);
    assert 2 * Abs(b.vatAmount * 1000000 - 950000) <= 1000000;
  }
}
