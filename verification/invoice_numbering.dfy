/**
 Invoice numbers across the whole invoice table (proma/invoices/models.py,
 `compute_next_number`).

 The source counts the non-draft invoices *issued* in the current year. An
 invoice issued in one year and opened in the next is numbered in the new
 year but not counted there, so the next invoice opened that year receives
 the same number. The table-level model below replays requests on the
 table under either counting rule: `ByIssueYear`, as the source does, and
 `ByOpeningYear`, which counts the invoices opened in the current year and
 keeps every number unique.
 */
module InvoiceNumbering {
  import opened Base
  import opened DecimalText
  import opened Projects
  import opened Invoices

  /** The invoice has been numbered in `year`: it is no longer a draft and was opened then. */
  predicate OpenedInYear(inv: Invoice, year: int) {
    inv.status != Draft && inv.openingDate.Some? && inv.openingDate.value.year == year
  }

  function CountOpenedInYear(store: seq<Invoice>, year: int): (n: nat)
    ensures n <= |store|
  {
    if |store| == 0 then 0
    else CountOpenedInYear(store[..|store| - 1], year)
         + (if OpenedInYear(store[|store| - 1], year) then 1 else 0)
  }

  /** The count is zero exactly when no invoice of the table was opened that year. */
  lemma {:induction false} CountOpenedZero(store: seq<Invoice>, year: int)
    ensures CountOpenedInYear(store, year) == 0 <==> forall i :: 0 <= i < |store| ==> !OpenedInYear(store[i], year)
  {
    if |store| > 0 {
      var n := |store| - 1;
      CountOpenedZero(store[..n], year);
      assert forall i :: 0 <= i < n ==> store[..n][i] == store[i];
    }
  }

  /** The corrected `compute_next_number`: one more than the invoices opened this year. */
  function NextNumberByOpeningYear(store: seq<Invoice>, now: Date): string {
    FormatNumber(now.year, CountOpenedInYear(store, now.year) + 1)
  }

  /** `Invoice.open` with the corrected numbering. */
  function OpenByOpeningYear(inv: Invoice, store: seq<Invoice>, now: Date): (r: Result<Invoice, InvoiceError>)
    ensures r.Err? <==> inv.status != Draft || |inv.items| == 0
    ensures r.Ok? ==> OpenedInYear(r.value, now.year) && r.value.status == Open
    ensures r.Ok? ==> r.value.number == NextNumberByOpeningYear(store, now)
  {
    if inv.status != Draft then Err(InvalidStatus)
    else if |inv.items| == 0 then Err(EmptyInvoice)
    else Ok(inv.(openingDate := Some(now), status := Open, number := NextNumberByOpeningYear(store, now)))
  }

  /** The corrected `open` raises exactly as the source does and differs from
      it in the number alone. */
  lemma OpenByOpeningYearMatchesSource(inv: Invoice, store: seq<Invoice>, now: Date)
    ensures OpenByOpeningYear(inv, store, now).Err? ==> OpenByOpeningYear(inv, store, now) == OpenInvoice(inv, store, now)
    ensures OpenByOpeningYear(inv, store, now).Ok? ==>
      OpenInvoice(inv, store, now).Ok?
      && OpenByOpeningYear(inv, store, now).value
         == OpenInvoice(inv, store, now).value.(number := NextNumberByOpeningYear(store, now))
  {
  }

  // ---------------------------------------------------------------------------
  // Requests on the invoice table
  // ---------------------------------------------------------------------------

  datatype Numbering = ByIssueYear | ByOpeningYear

  /** What the views do to the table: create a draft from a project, or open,
      pay or cancel the invoice at a position. */
  datatype Request =
    | CreateRate(project: Project, description: string, rate: real, units: real, ctx: CreationContext)
    | OpenAt(index: nat, now: Date)
    | PayAt(index: nat, paymentNotes: Option<string>, now: Date)
    | CancelAt(index: nat, now: Date)

  function Opened(numbering: Numbering, inv: Invoice, store: seq<Invoice>, now: Date): Result<Invoice, InvoiceError> {
    match numbering
    case ByIssueYear => OpenInvoice(inv, store, now)
    case ByOpeningYear => OpenByOpeningYear(inv, store, now)
  }

  /** One request; one that raises, or names no invoice, leaves the table as it was. */
  function Apply(numbering: Numbering, store: seq<Invoice>, req: Request): (r: seq<Invoice>)
    ensures |r| == |store| || (req.CreateRate? && |r| == |store| + 1)
  {
    match req
    case CreateRate(project, description, rate, units, ctx) =>
      store + [CreateFromProjectRate(project, description, rate, units, ctx)]
    case OpenAt(i, now) =>
      if i < |store| && Opened(numbering, store[i], store, now).Ok?
      then store[i := Opened(numbering, store[i], store, now).value] else store
    case PayAt(i, notes, now) =>
      if i < |store| && Pay(store[i], notes, now).Ok? then store[i := Pay(store[i], notes, now).value] else store
    case CancelAt(i, now) =>
      if i < |store| && Cancel(store[i], now).Ok? then store[i := Cancel(store[i], now).value] else store
  }

  function Replay(numbering: Numbering, store: seq<Invoice>, reqs: seq<Request>): seq<Invoice>
    decreases |reqs|
  {
    if |reqs| == 0 then store else Replay(numbering, Apply(numbering, store, reqs[0]), reqs[1..])
  }

  /** No two numbered invoices of the table share a number. */
  predicate NumbersDistinct(store: seq<Invoice>) {
    forall i, j :: 0 <= i < j < |store| && store[i].status != Draft && store[j].status != Draft ==>
      store[i].number != store[j].number
  }

  // ---------------------------------------------------------------------------
  // The numbering as written repeats a number
  // ---------------------------------------------------------------------------

  lemma ReplayTwo(numbering: Numbering, store: seq<Invoice>, first: Request, second: Request)
    ensures Replay(numbering, store, [first, second]) == Apply(numbering, Apply(numbering, store, first), second)
  {
    var s1 := Apply(numbering, store, first);
    assert [first, second][1..] == [second];
    assert Replay(numbering, store, [first, second]) == Replay(numbering, s1, [second]);
    assert [second][1..] == [];
    assert Replay(numbering, s1, [second]) == Replay(numbering, Apply(numbering, s1, second), []);
  }

  lemma ApplyOpenAt(numbering: Numbering, store: seq<Invoice>, i: nat, now: Date, x: Invoice)
    requires i < |store| && Opened(numbering, store[i], store, now) == Ok(x)
    ensures Apply(numbering, store, OpenAt(i, now)) == store[i := x]
  {
  }

  lemma CountOpenedPair(x: Invoice, y: Invoice, year: int)
    ensures CountOpenedInYear([x, y], year)
            == (if OpenedInYear(x, year) then 1 else 0) + (if OpenedInYear(y, year) then 1 else 0)
  {
    assert [x, y][..1] == [x];
    assert [x][..0] == [];
  }

  /** Opening the first of two invoices replaces it by its opened form. */
  lemma OpenFirst(numbering: Numbering, x: Invoice, y: Invoice, now: Date) returns (x1: Invoice)
    requires Opened(numbering, x, [x, y], now).Ok?
    ensures x1 == Opened(numbering, x, [x, y], now).value
    ensures Apply(numbering, [x, y], OpenAt(0, now)) == [x1, y]
  {
    x1 := Opened(numbering, x, [x, y], now).value;
    ApplyOpenAt(numbering, [x, y], 0, now, x1);
    assert [x, y][0 := x1] == [x1, y];
  }

  /** Opening the second of two invoices replaces it by its opened form. */
  lemma OpenSecond(numbering: Numbering, x: Invoice, y: Invoice, now: Date) returns (y1: Invoice)
    requires Opened(numbering, y, [x, y], now).Ok?
    ensures y1 == Opened(numbering, y, [x, y], now).value
    ensures Apply(numbering, [x, y], OpenAt(1, now)) == [x, y1]
  {
    y1 := Opened(numbering, y, [x, y], now).value;
    ApplyOpenAt(numbering, [x, y], 1, now, y1);
    assert [x, y][1 := y1] == [x, y1];
  }

  /** Two drafts, the first issued in an earlier year, both opened this year:
      the source gives them the same number. */
  lemma IssueYearNumberingRepeats(a: Invoice, b: Invoice, now: Date)
    requires a.status == Draft && b.status == Draft && |a.items| > 0 && |b.items| > 0
    requires a.issueDate.year < now.year
    ensures var s := Replay(ByIssueYear, [a, b], [OpenAt(0, now), OpenAt(1, now)]);
      |s| == 2 && s[0].status == Open && s[1].status == Open && s[0].number == s[1].number
    ensures !NumbersDistinct(Replay(ByIssueYear, [a, b], [OpenAt(0, now), OpenAt(1, now)]))
  {
    ReplayTwo(ByIssueYear, [a, b], OpenAt(0, now), OpenAt(1, now));
    EarlierIssuedNumberRepeats([a, b], 0, 1, now);
  }

  /** Replacing one invoice changes the source's count for a year by that
      invoice's contribution alone. */
  lemma {:induction false} CountNumberedAfterUpdate(store: seq<Invoice>, i: nat, x: Invoice, year: int)
    requires i < |store|
    ensures CountNumberedInYear(store[i := x], year)
            == CountNumberedInYear(store, year)
               - (if NumberedInYear(store[i], year) then 1 else 0)
               + (if NumberedInYear(x, year) then 1 else 0)
    decreases |store|
  {
    var n := |store| - 1;
    var s := store[i := x];
    assert CountNumberedInYear(store, year)
           == CountNumberedInYear(store[..n], year) + (if NumberedInYear(store[n], year) then 1 else 0);
    if i == n {
      assert s[..n] == store[..n];
      assert CountNumberedInYear(s, year)
             == CountNumberedInYear(store[..n], year) + (if NumberedInYear(x, year) then 1 else 0);
    } else {
      assert s[..n] == store[..n][i := x];
      assert s[n] == store[n] && store[..n][i] == store[i];
      CountNumberedAfterUpdate(store[..n], i, x, year);
      assert CountNumberedInYear(s, year)
             == CountNumberedInYear(store[..n][i := x], year) + (if NumberedInYear(store[n], year) then 1 else 0);
    }
  }

  /** Opening two different drafts one after the other with the source's
      numbering: each is numbered against the table as it then stands. */
  lemma OpenTwoBySource(store: seq<Invoice>, i: nat, j: nat, now: Date) returns (x: Invoice, y: Invoice)
    requires i < |store| && j < |store| && i != j
    requires store[i].status == Draft && |store[i].items| > 0
    requires store[j].status == Draft && |store[j].items| > 0
    ensures x.status == Open && x.issueDate == store[i].issueDate && x.number == ComputeNextNumber(store, now)
    ensures y.status == Open && y.number == ComputeNextNumber(store[i := x], now)
    ensures Apply(ByIssueYear, Apply(ByIssueYear, store, OpenAt(i, now)), OpenAt(j, now)) == store[i := x][j := y]
  {
    x := OpenInvoice(store[i], store, now).value;
    ApplyOpenAt(ByIssueYear, store, i, now, x);
    var s1 := store[i := x];
    assert s1[j] == store[j];
    y := OpenInvoice(s1[j], s1, now).value;
    ApplyOpenAt(ByIssueYear, s1, j, now, y);
  }

  lemma SameCountSameNumber(s1: seq<Invoice>, s2: seq<Invoice>, now: Date)
    requires CountNumberedInYear(s1, now.year) == CountNumberedInYear(s2, now.year)
    ensures ComputeNextNumber(s1, now) == ComputeNextNumber(s2, now)
  {
  }

  lemma RepeatedNumber(s: seq<Invoice>, i: nat, j: nat)
    requires i < |s| && j < |s| && i != j
    requires s[i].status != Draft && s[j].status != Draft && s[i].number == s[j].number
    ensures !NumbersDistinct(s)
  {
    if i < j {
      assert !(s[i].number != s[j].number);
    } else {
      assert !(s[j].number != s[i].number);
    }
  }

  /** In any table, opening a draft issued in an earlier year does not move
      this year's counter, so the next draft opened this year is given the
      very same number. */
  lemma EarlierIssuedNumberRepeats(store: seq<Invoice>, i: nat, j: nat, now: Date)
    requires i < |store| && j < |store| && i != j
    requires store[i].status == Draft && |store[i].items| > 0 && store[i].issueDate.year < now.year
    requires store[j].status == Draft && |store[j].items| > 0
    ensures var s := Apply(ByIssueYear, Apply(ByIssueYear, store, OpenAt(i, now)), OpenAt(j, now));
      |s| == |store| && s[i].status == Open && s[j].status == Open && s[i].number == s[j].number
      && !NumbersDistinct(s)
  {
    var x, y := OpenTwoBySource(store, i, j, now);
    CountNumberedAfterUpdate(store, i, x, now.year);
    SameCountSameNumber(store, store[i := x], now);
    var s := store[i := x][j := y];
    assert |s| == |store| && s[i] == x && s[j] == y;
    RepeatedNumber(s, i, j);
  }

  /** The same two drafts numbered by opening year get different numbers. */
  lemma OpeningYearNumberingSeparates(a: Invoice, b: Invoice, now: Date)
    requires a.status == Draft && b.status == Draft && |a.items| > 0 && |b.items| > 0
    ensures var s := Replay(ByOpeningYear, [a, b], [OpenAt(0, now), OpenAt(1, now)]);
      |s| == 2 && s[0].status == Open && s[1].status == Open && s[0].number != s[1].number
  {
    ReplayTwo(ByOpeningYear, [a, b], OpenAt(0, now), OpenAt(1, now));
    CountOpenedPair(a, b, now.year);
    var a1 := OpenFirst(ByOpeningYear, a, b, now);
    CountOpenedPair(a1, b, now.year);
    var b1 := OpenSecond(ByOpeningYear, a1, b, now);
    assert a1.number == FormatNumber(now.year, 1) && b1.number == FormatNumber(now.year, 2);
  }

  // ---------------------------------------------------------------------------
  // Numbering by opening year keeps numbers unique
  // ---------------------------------------------------------------------------

  /** The counter an invoice number carries after its four year digits. */
  function CounterOf(number: string): nat {
    if |number| >= 4 && AllDigits(number[4..]) then ParseDigits(number[4..]) else 0
  }

  /** A number for a four-digit year splits into that year's digits and the counter. */
  lemma FormatNumberSplits(year: Year, counter: nat)
    requires 1000 <= year
    ensures |FormatNumber(year, counter)| >= 9
    ensures FormatNumber(year, counter)[..4] == NatToString(year)
    ensures CounterOf(FormatNumber(year, counter)) == counter
  {
    FourDigitLength(year);
    var r := FormatNumber(year, counter);
    assert AllDigits(r[4..]) by {
      assert forall k :: 0 <= k < |r[4..]| ==> r[4..][k] == r[4 + k];
    }
  }

  /** Numbers of four-digit years are equal only for the same year and counter. */
  lemma FormatNumberUnique(y1: Year, c1: nat, y2: Year, c2: nat)
    requires 1000 <= y1 && 1000 <= y2
    requires FormatNumber(y1, c1) == FormatNumber(y2, c2)
    ensures y1 == y2 && c1 == c2
  {
    FormatNumberSplits(y1, c1);
    FormatNumberSplits(y2, c2);
    NatToStringInjective(y1, y2);
  }

  /** The year an invoice was opened in, `0` while it has not been. */
  function OpeningYear(inv: Invoice): int {
    if inv.openingDate.Some? then inv.openingDate.value.year else 0
  }

  /** The four year digits an invoice number starts with. */
  function YearDigits(number: string): string {
    if |number| >= 4 then number[..4] else ""
  }

  /** The invoice was opened, and its number starts with the opening year's
      digits and carries a positive counter. */
  predicate CarriesNumber(inv: Invoice) {
    && inv.openingDate.Some?
    && YearDigits(inv.number) == NatToString(inv.openingDate.value.year)
    && 1 <= CounterOf(inv.number)
  }

  /** Every numbered invoice carries its opening year's number, with a counter
      no larger than the count of invoices opened that year. */
  predicate WellNumbered(store: seq<Invoice>) {
    forall i :: 0 <= i < |store| && store[i].status != Draft ==>
      CarriesNumber(store[i]) && CounterOf(store[i].number) <= CountOpenedInYear(store, OpeningYear(store[i]))
  }

  /** Replacing one invoice changes each year's count by what that invoice contributed. */
  lemma {:induction false} CountAfterUpdate(store: seq<Invoice>, i: nat, x: Invoice, year: int)
    requires i < |store|
    ensures CountOpenedInYear(store[i := x], year)
            == CountOpenedInYear(store, year)
               - (if OpenedInYear(store[i], year) then 1 else 0)
               + (if OpenedInYear(x, year) then 1 else 0)
    decreases |store|
  {
    var n := |store| - 1;
    var s := store[i := x];
    var before := CountOpenedInYear(store[..n], year) + (if OpenedInYear(store[n], year) then 1 else 0);
    assert CountOpenedInYear(store, year) == before;
    if i == n {
      assert s[..n] == store[..n];
      assert CountOpenedInYear(s, year)
             == CountOpenedInYear(store[..n], year) + (if OpenedInYear(x, year) then 1 else 0);
    } else {
      assert s[..n] == store[..n][i := x];
      assert s[n] == store[n] && store[..n][i] == store[i];
      CountAfterUpdate(store[..n], i, x, year);
      assert CountOpenedInYear(s, year)
             == CountOpenedInYear(store[..n][i := x], year) + (if OpenedInYear(store[n], year) then 1 else 0);
    }
  }

  /** A new draft changes no count. */
  lemma CountAfterDraft(store: seq<Invoice>, d: Invoice, year: int)
    requires d.status == Draft
    ensures CountOpenedInYear(store + [d], year) == CountOpenedInYear(store, year)
  {
    assert (store + [d])[..|store|] == store;
  }

  /** Replacing a numbered invoice by one with the same number and opening
      date, still numbered, keeps the table well numbered and distinct. */
  lemma SameNumberingKeeps(store: seq<Invoice>, i: nat, x: Invoice)
    requires WellNumbered(store) && NumbersDistinct(store)
    requires i < |store| && store[i].status != Draft && x.status != Draft
    requires x.number == store[i].number && x.openingDate == store[i].openingDate
    ensures WellNumbered(store[i := x]) && NumbersDistinct(store[i := x])
  {
    var s := store[i := x];
    forall j | 0 <= j < |s| && s[j].status != Draft
      ensures CarriesNumber(s[j]) && CounterOf(s[j].number) <= CountOpenedInYear(s, OpeningYear(s[j]))
    {
      var z := OpeningYear(s[j]);
      CountAfterUpdate(store, i, x, z);
      assert OpenedInYear(store[i], z) == OpenedInYear(x, z);
      assert CountOpenedInYear(s, z) == CountOpenedInYear(store, z);
      if j == i {
        assert CarriesNumber(store[i]) && OpeningYear(x) == OpeningYear(store[i]);
      } else {
        assert s[j] == store[j];
      }
    }
    forall j, k | 0 <= j < k < |s| && s[j].status != Draft && s[k].status != Draft
      ensures s[j].number != s[k].number
    {
      assert s[j].number == store[j].number && s[k].number == store[k].number;
      assert store[j].status != Draft && store[k].status != Draft;
    }
  }

  /** Opening a draft with the corrected numbering keeps the table well numbered and distinct. */
  lemma OpenKeeps(store: seq<Invoice>, i: nat, now: Date)
    requires WellNumbered(store) && NumbersDistinct(store)
    requires i < |store| && 1000 <= now.year
    requires OpenByOpeningYear(store[i], store, now).Ok?
    ensures var s := store[i := OpenByOpeningYear(store[i], store, now).value];
      WellNumbered(s) && NumbersDistinct(s)
  {
    var x := OpenByOpeningYear(store[i], store, now).value;
    var s := store[i := x];
    var y := now.year;
    var c := CountOpenedInYear(store, y) + 1;
    assert store[i].status == Draft && !OpenedInYear(store[i], y);
    assert x.number == FormatNumber(y, c) && OpenedInYear(x, y) && OpeningYear(x) == y;
    FormatNumberSplits(y, c);
    assert CarriesNumber(x);
    forall j | 0 <= j < |s| && s[j].status != Draft
      ensures CarriesNumber(s[j]) && CounterOf(s[j].number) <= CountOpenedInYear(s, OpeningYear(s[j]))
    {
      var z := OpeningYear(s[j]);
      CountAfterUpdate(store, i, x, z);
      if j != i {
        assert s[j] == store[j];
      }
    }
    forall j, k | 0 <= j < k < |s| && s[j].status != Draft && s[k].status != Draft
      ensures s[j].number != s[k].number
    {
      if j != i && k != i {
        assert s[j] == store[j] && s[k] == store[k];
      } else {
        var other := if j == i then k else j;
        assert s[other] == store[other];
        assert CarriesNumber(store[other]);
        var yo := OpeningYear(store[other]);
        if store[other].number == x.number {
          NatToStringInjective(yo, y);
          assert false;
        }
      }
    }
  }

  /** Adding a draft keeps the table well numbered and distinct. */
  lemma DraftKeeps(store: seq<Invoice>, d: Invoice)
    requires WellNumbered(store) && NumbersDistinct(store)
    requires d.status == Draft
    ensures WellNumbered(store + [d]) && NumbersDistinct(store + [d])
  {
    var s := store + [d];
    forall j | 0 <= j < |s| && s[j].status != Draft
      ensures CarriesNumber(s[j]) && CounterOf(s[j].number) <= CountOpenedInYear(s, OpeningYear(s[j]))
    {
      assert s[j] == store[j];
      CountAfterDraft(store, d, OpeningYear(s[j]));
    }
    forall j, k | 0 <= j < k < |s| && s[j].status != Draft && s[k].status != Draft
      ensures s[j].number != s[k].number
    {
      assert s[j] == store[j] && s[k] == store[k];
    }
  }

  /** Any request keeps the table well numbered and distinct under the corrected numbering. */
  lemma ApplyKeeps(store: seq<Invoice>, req: Request)
    requires WellNumbered(store) && NumbersDistinct(store)
    requires !req.CreateRate? ==> 1000 <= req.now.year
    ensures WellNumbered(Apply(ByOpeningYear, store, req)) && NumbersDistinct(Apply(ByOpeningYear, store, req))
  {
    var s := Apply(ByOpeningYear, store, req);
    match req
    case CreateRate(project, description, rate, units, ctx) =>
      var d := CreateFromProjectRate(project, description, rate, units, ctx);
      assert s == store + [d];
      DraftKeeps(store, d);
    case OpenAt(i, now) =>
      if i < |store| && OpenByOpeningYear(store[i], store, now).Ok? {
        var x := OpenByOpeningYear(store[i], store, now).value;
        assert s == store[i := x];
        OpenKeeps(store, i, now);
      } else {
        assert s == store;
      }
    case PayAt(i, notes, now) =>
      if i < |store| && Pay(store[i], notes, now).Ok? {
        var x := Pay(store[i], notes, now).value;
        assert s == store[i := x];
        SameNumberingKeeps(store, i, x);
      } else {
        assert s == store;
      }
    case CancelAt(i, now) =>
      if i < |store| && Cancel(store[i], now).Ok? {
        var x := Cancel(store[i], now).value;
        assert s == store[i := x];
        SameNumberingKeeps(store, i, x);
      } else {
        assert s == store;
      }
  }

  /** The clock shows a four-digit year at every request that reads it. */
  predicate FourDigitClock(reqs: seq<Request>) {
    forall k :: 0 <= k < |reqs| && !reqs[k].CreateRate? ==> 1000 <= reqs[k].now.year
  }

  /** From a well-numbered table with distinct numbers (a table of drafts
      only is one), numbering by opening year never gives two invoices the
      same number, whatever requests follow. */
  lemma {:induction false} OpeningYearNumbersUnique(store: seq<Invoice>, reqs: seq<Request>)
    requires WellNumbered(store) && NumbersDistinct(store)
    requires FourDigitClock(reqs)
    ensures WellNumbered(Replay(ByOpeningYear, store, reqs))
    ensures NumbersDistinct(Replay(ByOpeningYear, store, reqs))
    decreases |reqs|
  {
    if |reqs| > 0 {
      ApplyKeeps(store, reqs[0]);
      assert FourDigitClock(reqs[1..]) by {
        assert forall k :: 0 <= k < |reqs[1..]| ==> reqs[1..][k] == reqs[k + 1];
      }
      OpeningYearNumbersUnique(Apply(ByOpeningYear, store, reqs[0]), reqs[1..]);
    }
  }

  /** A table of drafts only is a valid starting point. */
  lemma DraftsAreWellNumbered(store: seq<Invoice>)
    requires forall i :: 0 <= i < |store| ==> store[i].status == Draft
    ensures WellNumbered(store) && NumbersDistinct(store)
  {
  }
}
