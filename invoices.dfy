/**
  `Invoices`: the invoice and invoice item tables — saving a new invoice (numbering it when it
  has no number), saving items with their rounded totals, `update_totals`, and the create and
  preview paths of the invoice form.
*/
module Invoices {
  import opened Wrappers
  import opened Calendar
  import opened Decimals
  import opened InvoiceNumbers
  import opened InvoiceForm

  /** Money in cents; `vatRate` in hundredths of a percent. */
  datatype Invoice = Invoice(id: string, org: string, number: string, vatRate: int,
                             subtotal: int, vatAmount: int, total: int)

  datatype InvoiceItem = InvoiceItem(invoice: string, position: nat, description: string,
                                     quantity: Dec, unitPrice: Dec, total: int)

  const IntegrityError := "IntegrityError"

  /** The numbers of an organization's invoices (`Invoice.objects.filter(organization=…)`). */
  function OrgNumbers(invoices: seq<Invoice>, org: string): (r: seq<string>)
    ensures forall x :: x in r <==> exists i :: 0 <= i < |invoices| && invoices[i].org == org && invoices[i].number == x
  {
    if |invoices| == 0 then []
    else
      var init := invoices[..|invoices| - 1];
      var last := invoices[|invoices| - 1];
      var rest := OrgNumbers(init, org);
      assert forall i :: 0 <= i < |init| ==> init[i] == invoices[i];
      if last.org == org then rest + [last.number] else rest
  }

  /** All numbers in the table, which declares `invoice_number` unique. */
  function AllNumbers(invoices: seq<Invoice>): (r: set<string>)
    ensures forall i :: 0 <= i < |invoices| ==> invoices[i].number in r
    ensures forall x :: x in r ==> exists i :: 0 <= i < |invoices| && invoices[i].number == x
  {
    set i | 0 <= i < |invoices| :: invoices[i].number
  }

  predicate UniqueInvoiceIds(invoices: seq<Invoice>) {
    forall i, j :: 0 <= i < j < |invoices| ==> invoices[i].id != invoices[j].id
  }

  predicate UniqueNumbers(invoices: seq<Invoice>) {
    forall i, j :: 0 <= i < j < |invoices| ==> invoices[i].number != invoices[j].number
  }

  predicate HasInvoice(invoices: seq<Invoice>, id: string) {
    exists i :: 0 <= i < |invoices| && invoices[i].id == id
  }

  /** Every item points at an existing invoice (the foreign key). */
  predicate ItemsBelong(items: seq<InvoiceItem>, invoices: seq<Invoice>) {
    forall k :: 0 <= k < |items| ==> HasInvoice(invoices, items[k].invoice)
  }

  /** `Sum('total')` over an invoice's items, `or Decimal('0.00')`. */
  function ItemsTotal(items: seq<InvoiceItem>, id: string): int {
    if |items| == 0 then 0
    else
      var last := items[|items| - 1];
      ItemsTotal(items[..|items| - 1], id) + (if last.invoice == id then last.total else 0)
  }

  /** `InvoiceItem.save`: the stored total is `(quantity * unit_price).quantize(Decimal('0.01'))`. */
  function ItemOf(invoice: string, l: Line): (it: InvoiceItem)
    ensures it.total == Cents(Mul(l.quantity, l.unitPrice)) && it.invoice == invoice
  {
    InvoiceItem(invoice, l.position, l.description, l.quantity, l.unitPrice, Cents(Mul(l.quantity, l.unitPrice)))
  }

  function ItemsOf(invoice: string, lines: seq<Line>): (r: seq<InvoiceItem>)
    ensures |r| == |lines| && forall k :: 0 <= k < |r| ==> r[k] == ItemOf(invoice, lines[k])
  {
    seq(|lines|, k requires 0 <= k < |lines| => ItemOf(invoice, lines[k]))
  }

  /** The lines the form describes: parsed, padded, zipped, blank and rejected rows skipped. */
  function FormLines(post: seq<(string, string)>): seq<Line> {
    var p := PadAll(ParseFields(post));
    Lines(p.descriptions, p.quantities, p.unitPrices, Min3(|p.descriptions|, |p.quantities|, |p.unitPrices|))
  }

  function FormTotals(post: seq<(string, string)>, vatRate: int): (t: Totals)
    ensures t.subtotal == SumTotals(FormLines(post)) && t.total == t.subtotal + t.vatAmount
  {
    TotalsOf(SumTotals(FormLines(post)), vatRate)
  }

  /** Items of other invoices do not count towards an invoice's total. */
  lemma {:induction false} ItemsTotalAppend(items: seq<InvoiceItem>, more: seq<InvoiceItem>, id: string)
    ensures ItemsTotal(items + more, id) == ItemsTotal(items, id) + ItemsTotal(more, id)
  {
    if |more| == 0 {
      assert items + more == items;
    } else {
      var all := items + more;
      assert all[..|all| - 1] == items + more[..|more| - 1];
      assert all[|all| - 1] == more[|more| - 1];
      ItemsTotalAppend(items, more[..|more| - 1], id);
    }
  }

  /** An invoice with no items has total 0. */
  lemma {:induction false} ItemsTotalNone(items: seq<InvoiceItem>, id: string)
    requires forall k :: 0 <= k < |items| ==> items[k].invoice != id
    ensures ItemsTotal(items, id) == 0
  {
    if |items| > 0 {
      ItemsTotalNone(items[..|items| - 1], id);
    }
  }

  /** The items saved for the lines of one invoice add up to the lines' subtotal. */
  lemma {:induction false} ItemsOfTotal(id: string, lines: seq<Line>)
    requires forall k :: 0 <= k < |lines| ==> lines[k].total == Cents(Mul(lines[k].quantity, lines[k].unitPrice))
    ensures ItemsTotal(ItemsOf(id, lines), id) == SumTotals(lines)
  {
    if |lines| > 0 {
      var init := lines[..|lines| - 1];
      assert ItemsOf(id, lines)[..|lines| - 1] == ItemsOf(id, init);
      ItemsOfTotal(id, init);
    }
  }

  /** Every line of the form carries the rounded product as its total. */
  lemma FormLinesRounded(post: seq<(string, string)>)
    ensures forall k :: 0 <= k < |FormLines(post)| ==>
      FormLines(post)[k].total == Cents(Mul(FormLines(post)[k].quantity, FormLines(post)[k].unitPrice))
  {
    var p := PadAll(ParseFields(post));
    var n := Min3(|p.descriptions|, |p.quantities|, |p.unitPrices|);
    var outs := Outcomes(p.descriptions, p.quantities, p.unitPrices, n);
    OutcomesNumbered(p.descriptions, p.quantities, p.unitPrices, n);
    KeptLinesFromRows(outs);
    assert forall k :: 0 <= k < |FormLines(post)| ==> FormLines(post)[k] in KeptLines(outs);
  }

  /** Items keep pointing at existing invoices when invoices are only appended or changed in place. */
  lemma ItemsStillBelong(items: seq<InvoiceItem>, before: seq<Invoice>, after: seq<Invoice>)
    requires ItemsBelong(items, before)
    requires |before| <= |after| && forall i :: 0 <= i < |before| ==> after[i].id == before[i].id
    ensures ItemsBelong(items, after)
  {
    forall k | 0 <= k < |items|
      ensures HasInvoice(after, items[k].invoice)
    {
      var i :| 0 <= i < |before| && before[i].id == items[k].invoice;
      assert after[i].id == items[k].invoice;
    }
  }

  /** The items of a fresh invoice saved from `lines` add up to the lines' subtotal. */
  lemma CreatedItemsTotal(items: seq<InvoiceItem>, invoices: seq<Invoice>, id: string, post: seq<(string, string)>)
    requires ItemsBelong(items, invoices) && !HasInvoice(invoices, id)
    ensures ItemsTotal(items + ItemsOf(id, FormLines(post)), id) == SumTotals(FormLines(post))
  {
    var lines := FormLines(post);
    forall k | 0 <= k < |items|
      ensures items[k].invoice != id
    {
      assert HasInvoice(invoices, items[k].invoice);
    }
    ItemsTotalAppend(items, ItemsOf(id, lines), id);
    ItemsTotalNone(items, id);
    FormLinesRounded(post);
    ItemsOfTotal(id, lines);
  }

  class InvoiceStore {
    var invoices: seq<Invoice>
    var items: seq<InvoiceItem>

    ghost predicate Valid()
      reads this
    {
      UniqueInvoiceIds(invoices) && UniqueNumbers(invoices) && ItemsBelong(items, invoices)
    }

    constructor ()
      ensures Valid() && invoices == [] && items == []
    {
      invoices := [];
      items := [];
    }

    /**
      `Invoice.save` for a new invoice: an empty number is replaced by the next number of the day
      in the invoice's organization, a given one is kept; a number that is already in the table
      violates its unique constraint.
    */
    method Save(inv: Invoice, today: Date) returns (r: Result<Invoice>)
      requires Valid() && !HasInvoice(invoices, inv.id)
      requires ValidDate(today) && today.year >= 1
      modifies this
      ensures Valid() && items == old(items)
      ensures var number := if inv.number == "" then Generate(OrgNumbers(old(invoices), inv.org), today) else inv.number;
        if number in AllNumbers(old(invoices)) then
          r == Err(IntegrityError) && invoices == old(invoices)
        else
          r == Ok(inv.(number := number)) && invoices == old(invoices) + [inv.(number := number)]
    {
      var number := inv.number;
      if number == "" {
        number := Generate(OrgNumbers(invoices, inv.org), today);
      }
      if number in AllNumbers(invoices) {
        return Err(IntegrityError);
      }
      var saved := inv.(number := number);
      invoices := invoices + [saved];
      ItemsStillBelong(items, old(invoices), invoices);
      r := Ok(saved);
    }

    /** `InvoiceItem.objects.create`: the item's total is computed by `InvoiceItem.save`. */
    method AddItem(invoice: string, l: Line)
      requires Valid() && HasInvoice(invoices, invoice)
      modifies this
      ensures Valid() && invoices == old(invoices)
      ensures items == old(items) + [ItemOf(invoice, l)]
    {
      items := items + [ItemOf(invoice, l)];
    }

    /** `update_totals`: subtotal from the items, VAT rounded to cents, total their sum. */
    method UpdateTotals(idx: nat)
      requires Valid() && idx < |invoices|
      modifies this
      ensures Valid() && items == old(items) && |invoices| == |old(invoices)|
      ensures var t := TotalsOf(ItemsTotal(items, old(invoices)[idx].id), old(invoices)[idx].vatRate);
        invoices == old(invoices)[idx := old(invoices)[idx].(subtotal := t.subtotal, vatAmount := t.vatAmount, total := t.total)]
    {
      var inv := invoices[idx];
      var t := TotalsOf(ItemsTotal(items, inv.id), inv.vatRate);
      invoices := invoices[idx := inv.(subtotal := t.subtotal, vatAmount := t.vatAmount, total := t.total)];
      ItemsStillBelong(items, old(invoices), invoices);
    }

    /** One `InvoiceItem.objects.create` per line, in order. */
    method SaveLines(invoice: string, lines: seq<Line>)
      requires Valid() && HasInvoice(invoices, invoice)
      modifies this
      ensures Valid() && invoices == old(invoices)
      ensures items == old(items) + ItemsOf(invoice, lines)
    {
      for i := 0 to |lines|
        invariant Valid() && invoices == old(invoices)
        invariant items == old(items) + ItemsOf(invoice, lines[..i])
      {
        assert ItemsOf(invoice, lines[..i + 1]) == ItemsOf(invoice, lines[..i]) + [ItemOf(invoice, lines[i])];
        AddItem(invoice, lines[i]);
      }
      assert lines[..|lines|] == lines;
    }

    /** The creating path of `invoices_create`: save the invoice, save its lines as items, total it. */
    method CreateInvoice(org: string, vatRate: int, today: Date, post: seq<(string, string)>, newId: string)
      returns (r: Result<Invoice>)
      requires Valid() && !HasInvoice(invoices, newId)
      requires ValidDate(today) && today.year >= 1
      modifies this
      ensures Valid()
      ensures r.Ok? <==> Generate(OrgNumbers(old(invoices), org), today) !in AllNumbers(old(invoices))
      ensures r.Err? ==> r.error == IntegrityError
      ensures r.Ok? ==>
        |invoices| == |old(invoices)| + 1 && invoices[..|old(invoices)|] == old(invoices) &&
        r.value == invoices[|old(invoices)|] && r.value.id == newId && r.value.org == org &&
        r.value.number == Generate(OrgNumbers(old(invoices), org), today) &&
        r.value.subtotal == FormTotals(post, vatRate).subtotal &&
        r.value.vatAmount == FormTotals(post, vatRate).vatAmount &&
        r.value.total == FormTotals(post, vatRate).total &&
        items == old(items) + ItemsOf(newId, FormLines(post))
      ensures r.Err? ==> invoices == old(invoices) && items == old(items)
    {
      var saved := Save(Invoice(newId, org, "", vatRate, 0, 0, 0), today);
      if saved.Err? {
        return Err(saved.error);
      }
      var fields := ParseItemFields(post);
      var lines, subtotal := ComputeLines(PadAll(fields));
      assert invoices[|invoices| - 1].id == newId;
      SaveLines(newId, lines);
      var idx := |invoices| - 1;
      CreatedItemsTotal(old(items), old(invoices), newId, post);
      UpdateTotals(idx);
      r := Ok(invoices[idx]);
    }

    /**
      The preview path: the number the invoice would get and the totals of the form's lines;
      nothing is stored.
    */
    method Preview(org: string, vatRate: int, today: Date, post: seq<(string, string)>)
      returns (number: string, lines: seq<Line>, totals: Totals)
      requires ValidDate(today) && today.year >= 1
      ensures number == Generate(OrgNumbers(invoices, org), today)
      ensures lines == FormLines(post)
      ensures totals == FormTotals(post, vatRate)
    {
      number := Generate(OrgNumbers(invoices, org), today);
      var fields := ParseItemFields(post);
      var subtotal;
      lines, subtotal := ComputeLines(PadAll(fields));
      totals := TotalsOf(subtotal, vatRate);
    }
  }

  /** A number that is given is never replaced; an empty one gets a fresh number of the organization. */
  lemma SaveKeepsGivenNumber(invoices: seq<Invoice>, inv: Invoice, today: Date)
    requires ValidDate(today) && today.year >= 1
    ensures var number := if inv.number == "" then Generate(OrgNumbers(invoices, inv.org), today) else inv.number;
      (inv.number != "" ==> number == inv.number) &&
      (inv.number == "" ==> number !in OrgNumbers(invoices, inv.org) && EndsWith(number, DaySuffix(today)))
  {
    GenerateIsFresh(OrgNumbers(invoices, inv.org), today);
  }

  /**
    A preview and a creation from the same form, in any store, show the same number and the same
    totals; the creation succeeds exactly when the previewed number is not taken yet.
  */
  method PreviewMatchesCreation(store: InvoiceStore, org: string, vatRate: int, today: Date,
                                post: seq<(string, string)>, newId: string)
    returns (number: string, previewed: Totals, created: Result<Invoice>)
    requires store.Valid() && !HasInvoice(store.invoices, newId)
    requires ValidDate(today) && today.year >= 1
    modifies store
    ensures created.Ok? <==> number !in AllNumbers(old(store.invoices))
    ensures created.Ok? ==> created.value.number == number
    ensures created.Ok? ==> previewed == Totals(created.value.subtotal, created.value.vatAmount, created.value.total)
  {
    var lines;
    number, lines, previewed := store.Preview(org, vatRate, today, post);
    created := store.CreateInvoice(org, vatRate, today, post, newId);
  }
}
