/**
 Invoices and their line items (proma/invoices/models.py).

 The invoice table is a sequence; the clock (`timezone.now()`) is an explicit
 `now`/`today` date; the values the framework generates when a row is
 created (random hex number and token, default dates) come in as a
 `CreationContext`. Decimal amounts are exact reals.
 */
module Invoices {
  import opened Base
  import opened DecimalText
  import opened Projects

  datatype Status = Draft | Open | Paid | Cancelled

  /** The two reasons `InvoiceException` is raised. */
  datatype InvoiceError = InvalidStatus | EmptyInvoice

  datatype Item = Item(description: string, units: real, rate: real, total: real)

  /** `Item.save` recomputes the stored total (`_compute_total`) before writing. */
  function SaveItem(item: Item): (r: Item)
    ensures r.total == r.rate * r.units
    ensures r.(total := item.total) == item
  {
    item.(total := item.rate * item.units)
  }

  datatype Invoice = Invoice(
    client: ClientRef,
    project: ProjectRef,
    number: string,
    currency: string,
    issueDate: Date,
    dueDate: Date,
    openingDate: Option<Date>,
    paymentDate: Option<Date>,
    cancellationDate: Option<Date>,
    status: Status,
    taxPercent: Option<real>,
    taxTotal: real,
    subtotal: real,
    total: real,
    notes: Option<string>,
    paymentNotes: Option<string>,
    token: string,
    items: seq<Item>)

  /** `Invoice.__str__`: the status label for a draft, `#number` afterwards. */
  function Display(inv: Invoice): (r: string)
    ensures inv.status == Draft ==> r == "Draft"
    ensures inv.status != Draft ==> |r| == |inv.number| + 1 && r[0] == '#' && r[1..] == inv.number
  {
    if inv.status == Draft then "Draft" else "#" + inv.number
  }

  /** `Invoice.can_be_edited`: only a draft may be edited, so the invoices
      that can be edited are exactly those shown as "Draft". */
  predicate CanBeEdited(inv: Invoice)
    ensures CanBeEdited(inv) <==> Display(inv) == "Draft"
  {
    inv.status == Draft
  }

  // ---------------------------------------------------------------------------
  // Numbering
  // ---------------------------------------------------------------------------

  /** The text `f"{year}{str(counter).zfill(5)}"`: the year's digits followed by
      the counter's digits, zero-padded to at least five. */
  function FormatNumber(year: Year, counter: nat): (r: string)
    ensures AllDigits(r)
    ensures |r| == |NatToString(year)| + (if |NatToString(counter)| >= 5 then |NatToString(counter)| else 5)
    ensures r[..|NatToString(year)|] == NatToString(year)
    ensures ParseDigits(r[|NatToString(year)|..]) == counter
  {
    var y := NatToString(year);
    var z := ZFill(NatToString(counter), 5);
    ParseZFill(counter, 5);
    AllDigitsConcat(y, z);
    var r := y + z;
    assert r[..|y|] == y && r[|y|..] == z;
    r
  }

  /** Within one year, distinct counters give distinct invoice numbers. */
  lemma FormatNumberInjective(year: Year, c1: nat, c2: nat)
    requires FormatNumber(year, c1) == FormatNumber(year, c2)
    ensures c1 == c2
  {
  }

  /** The invoices `compute_next_number` counts: not drafts, and issued in
      `[year, year + 1)`. */
  predicate NumberedInYear(inv: Invoice, year: int) {
    inv.status != Draft && year <= inv.issueDate.year < year + 1
  }

  function CountNumberedInYear(store: seq<Invoice>, year: int): (n: nat)
    ensures n <= |store|
  {
    if |store| == 0 then 0
    else CountNumberedInYear(store[..|store| - 1], year)
         + (if NumberedInYear(store[|store| - 1], year) then 1 else 0)
  }

  /** The count is zero exactly when no invoice of the table is numbered in that year. */
  lemma {:induction false} CountNumberedZero(store: seq<Invoice>, year: int)
    ensures CountNumberedInYear(store, year) == 0 <==> forall i :: 0 <= i < |store| ==> !NumberedInYear(store[i], year)
  {
    if |store| > 0 {
      var n := |store| - 1;
      CountNumberedZero(store[..n], year);
      assert forall i :: 0 <= i < n ==> store[..n][i] == store[i];
    }
  }

  /** `Invoice.compute_next_number`: the current year's digits followed by the
      counter, one more than the non-draft invoices issued this year. */
  function ComputeNextNumber(store: seq<Invoice>, now: Date): (r: string)
    ensures AllDigits(r)
    ensures var c := NatToString(CountNumberedInYear(store, now.year) + 1);
      |r| == |NatToString(now.year)| + (if |c| >= 5 then |c| else 5)
    ensures r[..|NatToString(now.year)|] == NatToString(now.year)
    ensures ParseDigits(r[|NatToString(now.year)|..]) == CountNumberedInYear(store, now.year) + 1
  {
    FormatNumber(now.year, CountNumberedInYear(store, now.year) + 1)
  }

  /** With nothing numbered this year yet, the number is `"{year}00001"`. */
  lemma FirstNumberOfYear(store: seq<Invoice>, now: Date)
    requires forall i :: 0 <= i < |store| ==> !NumberedInYear(store[i], now.year)
    ensures ComputeNextNumber(store, now) == NatToString(now.year) + "00001"
  {
    CountNumberedZero(store, now.year);
    assert NatToString(1) == "1";
    assert Zeros(4) == "0000" by {
      assert Zeros(1) == "0";
      assert Zeros(2) == "00";
      assert Zeros(3) == "000";
    }
  }

  /** `Invoice._compute_number`: a draft keeps its placeholder number; any
      other invoice takes the next number. */
  function ComputeNumber(inv: Invoice, store: seq<Invoice>, now: Date): (r: Invoice)
    ensures inv.status == Draft ==> r == inv
    ensures inv.status != Draft ==> r.number == ComputeNextNumber(store, now)
    ensures r.(number := inv.number) == inv
  {
    if inv.status == Draft then inv else inv.(number := ComputeNextNumber(store, now))
  }

  /** A non-draft invoice numbered against an empty table gets `"{year}00001"`. */
  lemma ComputeNumberOnEmptyStore(inv: Invoice, now: Date)
    requires inv.status != Draft
    ensures ComputeNumber(inv, [], now).number == NatToString(now.year) + "00001"
  {
    FirstNumberOfYear([], now);
  }

  // ---------------------------------------------------------------------------
  // Status machine
  // ---------------------------------------------------------------------------

  /** `Invoice.open`: only a draft with at least one item opens; it is stamped
      with the opening date and then numbered, being no longer a draft. */
  function OpenInvoice(inv: Invoice, store: seq<Invoice>, now: Date): (r: Result<Invoice, InvoiceError>)
    ensures r.Err? <==> inv.status != Draft || |inv.items| == 0
    ensures inv.status != Draft ==> r == Err(InvalidStatus)
    ensures inv.status == Draft && |inv.items| == 0 ==> r == Err(EmptyInvoice)
    ensures r.Ok? ==> r.value.status == Open && r.value.openingDate == Some(now)
    ensures r.Ok? ==> r.value.number == ComputeNextNumber(store, now)
    ensures r.Ok? ==> r.value.(number := inv.number, status := inv.status, openingDate := inv.openingDate) == inv
  {
    if inv.status != Draft then Err(InvalidStatus)
    else if |inv.items| == 0 then Err(EmptyInvoice)
    else Ok(ComputeNumber(inv.(openingDate := Some(now), status := Open), store, now))
  }

  /** `Invoice.pay`: only an open invoice is paid; payment notes are replaced
      only when notes are given. */
  function Pay(inv: Invoice, notes: Option<string>, now: Date): (r: Result<Invoice, InvoiceError>)
    ensures r.Err? <==> inv.status != Open
    ensures r.Err? ==> r.error == InvalidStatus
    ensures r.Ok? ==> r.value.status == Paid && r.value.paymentDate == Some(now)
    ensures r.Ok? && notes.Some? ==> r.value.paymentNotes == notes
    ensures r.Ok? && notes.None? ==> r.value.paymentNotes == inv.paymentNotes
    ensures r.Ok? ==> r.value.(status := inv.status, paymentDate := inv.paymentDate, paymentNotes := inv.paymentNotes) == inv
  {
    if inv.status != Open then Err(InvalidStatus)
    else
      var paid := inv.(paymentDate := Some(now));
      var noted := if notes.Some? then paid.(paymentNotes := notes) else paid;
      Ok(noted.(status := Paid))
  }

  /** `Invoice.cancel`: only an open invoice is cancelled. */
  function Cancel(inv: Invoice, now: Date): (r: Result<Invoice, InvoiceError>)
    ensures r.Err? <==> inv.status != Open
    ensures r.Err? ==> r.error == InvalidStatus
    ensures r.Ok? ==> r.value.status == Cancelled && r.value.cancellationDate == Some(now)
    ensures r.Ok? ==> r.value.(status := inv.status, cancellationDate := inv.cancellationDate) == inv
  {
    if inv.status != Open then Err(InvalidStatus)
    else Ok(inv.(cancellationDate := Some(now), status := Cancelled))
  }

  /** Paid and cancelled invoices accept no transition at all. */
  lemma TerminalStatesRejectAll(inv: Invoice, store: seq<Invoice>, notes: Option<string>, now: Date)
    requires inv.status == Paid || inv.status == Cancelled
    ensures OpenInvoice(inv, store, now) == Err(InvalidStatus)
    ensures Pay(inv, notes, now) == Err(InvalidStatus)
    ensures Cancel(inv, now) == Err(InvalidStatus)
  {
  }

  /** A request on one invoice; `OpenAction` carries the table it is numbered against. */
  datatype Action =
    | OpenAction(store: seq<Invoice>, at: Date)
    | PayAction(paymentNotes: Option<string>, at: Date)
    | CancelAction(at: Date)

  function Perform(inv: Invoice, a: Action): Result<Invoice, InvoiceError> {
    match a
    case OpenAction(store, at) => OpenInvoice(inv, store, at)
    case PayAction(n, at) => Pay(inv, n, at)
    case CancelAction(at) => Cancel(inv, at)
  }

  /** A series of requests; a refused request leaves the invoice as it was. */
  function Run(inv: Invoice, actions: seq<Action>): Invoice
    decreases |actions|
  {
    if |actions| == 0 then inv
    else
      var r := Perform(inv, actions[0]);
      Run(if r.Ok? then r.value else inv, actions[1..])
  }

  /** Once an invoice has left the draft state its number never changes and it
      never becomes a draft again. */
  lemma {:induction false} NumberFixedOnceOpened(inv: Invoice, actions: seq<Action>)
    requires inv.status != Draft
    ensures Run(inv, actions).number == inv.number
    ensures Run(inv, actions).status != Draft && !CanBeEdited(Run(inv, actions))
    decreases |actions|
  {
    if |actions| > 0 {
      var r := Perform(inv, actions[0]);
      NumberFixedOnceOpened(if r.Ok? then r.value else inv, actions[1..]);
    }
  }

  /** A paid or cancelled invoice is left exactly as it is by any series of requests. */
  lemma {:induction false} TerminalStatesAreFinal(inv: Invoice, actions: seq<Action>)
    requires inv.status == Paid || inv.status == Cancelled
    ensures Run(inv, actions) == inv
    decreases |actions|
  {
    if |actions| > 0 {
      TerminalStatesAreFinal(inv, actions[1..]);
    }
  }

  // ---------------------------------------------------------------------------
  // Amounts
  // ---------------------------------------------------------------------------

  /** The sum of the stored item totals, folded from the left as `reduce` does. */
  function SumTotals(items: seq<Item>): (r: real)
    ensures (forall i :: 0 <= i < |items| ==> items[i].total >= 0.0) ==> r >= 0.0
  {
    if |items| == 0 then 0.0 else SumTotals(items[..|items| - 1]) + items[|items| - 1].total
  }

  lemma {:induction false} SumTotalsAppend(a: seq<Item>, b: seq<Item>)
    ensures SumTotals(a + b) == SumTotals(a) + SumTotals(b)
    decreases |b|
  {
    if |b| > 0 {
      assert (a + b)[..|a + b| - 1] == a + b[..|b| - 1];
      SumTotalsAppend(a, b[..|b| - 1]);
    } else {
      assert a + b == a;
    }
  }

  /** `Invoice.compute_amounts`: subtotal from the items, tax as a percentage
      of the subtotal (none without a tax rate), total as their sum. Only the
      three amounts change. */
  function ComputeAmounts(inv: Invoice): (r: Invoice)
    ensures r.subtotal == SumTotals(inv.items)
    ensures r.total == r.subtotal + r.taxTotal
    ensures inv.taxPercent.None? ==> r.taxTotal == 0.0 && r.total == r.subtotal
    ensures inv.taxPercent.Some? ==> r.taxTotal * 100.0 == r.subtotal * inv.taxPercent.value
    ensures r.(subtotal := inv.subtotal, taxTotal := inv.taxTotal, total := inv.total) == inv
  {
    var subtotal := SumTotals(inv.items);
    var tax := match inv.taxPercent
      case None => 0.0
      case Some(p) => subtotal * (p / 100.0);
    inv.(subtotal := subtotal, taxTotal := tax, total := subtotal + tax)
  }

  /** Without items every amount is zero. */
  lemma AmountsWithoutItems(inv: Invoice)
    requires |inv.items| == 0
    ensures var r := ComputeAmounts(inv); r.subtotal == 0.0 && r.taxTotal == 0.0 && r.total == 0.0
  {
  }

  /** With a tax rate within the form's 0..100 and non-negative item totals,
      the tax lies between zero and the subtotal. */
  lemma TaxWithinSubtotal(inv: Invoice)
    requires inv.taxPercent.Some? ==> 0.0 <= inv.taxPercent.value <= 100.0
    requires forall i :: 0 <= i < |inv.items| ==> inv.items[i].total >= 0.0
    ensures var r := ComputeAmounts(inv); 0.0 <= r.taxTotal <= r.subtotal <= r.total
  {
    var r := ComputeAmounts(inv);
    if inv.taxPercent.Some? {
      var p := inv.taxPercent.value;
      assert r.taxTotal == r.subtotal * (p / 100.0);
      assert r.subtotal * (p / 100.0) <= r.subtotal * 1.0;
    }
  }

  /** Recomputing the amounts a second time changes nothing. */
  lemma ComputeAmountsIdempotent(inv: Invoice)
    ensures ComputeAmounts(ComputeAmounts(inv)) == ComputeAmounts(inv)
  {
  }

  /** One item of rate 10 and 10 units at 10% tax gives 100, 10 and 110. */
  lemma AmountsExample(inv: Invoice)
    requires inv.taxPercent == Some(10.0)
    requires |inv.items| == 1 && inv.items[0] == SaveItem(Item("", 10.0, 10.0, 0.0))
    ensures var r := ComputeAmounts(inv); r.subtotal == 100.0 && r.taxTotal == 10.0 && r.total == 110.0
  {
    assert inv.items[..0] == [];
    assert SumTotals(inv.items) == SumTotals([]) + inv.items[0].total;
  }

  // ---------------------------------------------------------------------------
  // Dashboard summary
  // ---------------------------------------------------------------------------

  predicate IsOverdue(inv: Invoice, today: Date) {
    inv.status == Open && AtOrBefore(inv.dueDate, today)
  }

  function OverdueTotal(store: seq<Invoice>, today: Date): (r: real)
    ensures (forall i :: 0 <= i < |store| ==> store[i].total >= 0.0) ==> r >= 0.0
  {
    if |store| == 0 then 0.0
    else OverdueTotal(store[..|store| - 1], today)
         + (if IsOverdue(store[|store| - 1], today) then store[|store| - 1].total else 0.0)
  }

  function DraftTotal(store: seq<Invoice>): (r: real)
    ensures (forall i :: 0 <= i < |store| ==> store[i].total >= 0.0) ==> r >= 0.0
  {
    if |store| == 0 then 0.0
    else DraftTotal(store[..|store| - 1])
         + (if store[|store| - 1].status == Draft then store[|store| - 1].total else 0.0)
  }

  datatype Totals = Totals(overdue: real, draft: real, totalOutstanding: real)

  /** `Invoice.summary`: the totals of the open invoices due by today and of
      the drafts, and their sum. */
  function Summary(store: seq<Invoice>, today: Date): (r: Totals)
    ensures r.totalOutstanding == r.overdue + r.draft
    ensures (forall i :: 0 <= i < |store| ==> store[i].total >= 0.0) ==>
      0.0 <= r.overdue <= r.totalOutstanding && 0.0 <= r.draft <= r.totalOutstanding
  {
    var overdue := OverdueTotal(store, today);
    var draft := DraftTotal(store);
    Totals(overdue, draft, overdue + draft)
  }

  /** The summary of two tables together is the sum of their summaries. */
  lemma {:induction false} SummaryAppend(a: seq<Invoice>, b: seq<Invoice>, today: Date)
    ensures Summary(a + b, today).overdue == Summary(a, today).overdue + Summary(b, today).overdue
    ensures Summary(a + b, today).draft == Summary(a, today).draft + Summary(b, today).draft
    decreases |b|
  {
    if |b| > 0 {
      assert (a + b)[..|a + b| - 1] == a + b[..|b| - 1];
      SummaryAppend(a, b[..|b| - 1], today);
    } else {
      assert a + b == a;
    }
  }

  /** A single invoice counts as overdue exactly when it is open and due by
      today, and as draft exactly when it is a draft; with `SummaryAppend`
      this fixes the summary of every table. */
  lemma SummaryOfOne(inv: Invoice, today: Date)
    ensures Summary([inv], today).overdue == if IsOverdue(inv, today) then inv.total else 0.0
    ensures Summary([inv], today).draft == if inv.status == Draft then inv.total else 0.0
  {
    assert [inv][..0] == [];
    assert OverdueTotal([inv], today) == OverdueTotal([], today) + (if IsOverdue(inv, today) then inv.total else 0.0);
    assert DraftTotal([inv]) == DraftTotal([]) + (if inv.status == Draft then inv.total else 0.0);
  }

  /** The invoices that are neither paid nor cancelled, in table order. */
  function Outstanding(store: seq<Invoice>): (r: seq<Invoice>)
    ensures |r| <= |store|
    ensures forall i :: 0 <= i < |r| ==> r[i].status == Draft || r[i].status == Open
    ensures forall i :: 0 <= i < |r| ==> r[i] in store
  {
    if |store| == 0 then []
    else
      var last := store[|store| - 1];
      var rest := Outstanding(store[..|store| - 1]);
      if last.status == Draft || last.status == Open then rest + [last] else rest
  }

  /** Nothing open or in draft is dropped. */
  lemma {:induction false} OutstandingKeepsAll(store: seq<Invoice>, x: Invoice)
    requires x in store && (x.status == Draft || x.status == Open)
    ensures x in Outstanding(store)
  {
    var n := |store| - 1;
    if store[n] != x {
      assert x in store[..n] by {
        var k :| 0 <= k < |store| && store[k] == x;
        assert store[..n][k] == x;
      }
      OutstandingKeepsAll(store[..n], x);
    }
  }

  /** Paid and cancelled invoices never contribute to the summary. */
  lemma {:induction false} SummaryIgnoresClosed(store: seq<Invoice>, today: Date)
    ensures Summary(store, today) == Summary(Outstanding(store), today)
  {
    if |store| > 0 {
      var n := |store| - 1;
      var last := store[n];
      SummaryIgnoresClosed(store[..n], today);
      if last.status == Draft || last.status == Open {
        var rest := Outstanding(store[..n]);
        assert (rest + [last])[..|rest + [last]| - 1] == rest;
      }
    }
  }

  /** With no draft and no open invoice due by today, the summary is all zero. */
  lemma {:induction false} SummaryZeroWhenNothingMatches(store: seq<Invoice>, today: Date)
    requires forall i :: 0 <= i < |store| ==> store[i].status != Draft && !IsOverdue(store[i], today)
    ensures Summary(store, today) == Totals(0.0, 0.0, 0.0)
  {
    if |store| > 0 {
      SummaryZeroWhenNothingMatches(store[..|store| - 1], today);
    }
  }

  // ---------------------------------------------------------------------------
  // Creation from a project
  // ---------------------------------------------------------------------------

  /** What the framework supplies when an invoice row is created: the random
      placeholder number and token, today's date, and the default due date
      (a month from today). */
  datatype CreationContext = CreationContext(number: string, token: string, today: Date, dueDate: Date)

  /** `Invoice.objects.create(client=..., project=..., currency=...)`: a draft
      with every other field at its default. */
  function NewInvoice(project: Project, ctx: CreationContext): Invoice {
    Invoice(project.client, project.id, ctx.number, project.currency, ctx.today, ctx.dueDate,
            None, None, None, Draft, None, 0.0, 0.0, 0.0, None, None, ctx.token, [])
  }

  /** `Invoice.create_from_project_rate`: a draft for the project's client
      with the one item `rate` x `units`, amounts computed. */
  function CreateFromProjectRate(project: Project, description: string, rate: real, units: real,
                                 ctx: CreationContext): (r: Invoice)
    ensures r.status == Draft && CanBeEdited(r)
    ensures r.client == project.client && r.project == project.id && r.currency == project.currency
    ensures r.number == ctx.number && r.issueDate == ctx.today && r.dueDate == ctx.dueDate
    ensures |r.items| == 1
    ensures r.items[0].description == description && r.items[0].rate == rate && r.items[0].units == units
    ensures r.items[0].total == rate * units
    ensures r.taxPercent.None? && r.taxTotal == 0.0
    ensures r.subtotal == rate * units && r.total == rate * units
  {
    var inv := NewInvoice(project, ctx);
    var withItem := inv.(items := [SaveItem(Item(description, units, rate, 0.0))]);
    assert withItem.items[..0] == [];
    assert SumTotals(withItem.items) == SumTotals([]) + withItem.items[0].total;
    ComputeAmounts(withItem)
  }

  /** `Invoice.create_from_project_flat`: a draft with the one item `amount` x 1,
      so its total is the amount. */
  function CreateFromProjectFlat(project: Project, description: string, amount: real,
                                 ctx: CreationContext): (r: Invoice)
    ensures r.status == Draft
    ensures r.client == project.client && r.project == project.id && r.currency == project.currency
    ensures |r.items| == 1 && r.items[0].rate == amount && r.items[0].units == 1.0
    ensures r.items[0].total == amount && r.subtotal == amount && r.total == amount
  {
    CreateFromProjectRate(project, description, amount, 1.0, ctx)
  }
}
