# proma core in Dafny

A model of the core of proma, a Django application for freelancers that keeps
clients, projects, timesheets and invoices. The model covers:

- the invoice life cycle: `open`, `pay` and `cancel`, with the two
  `InvoiceException` reasons. It also covers numbering (`_compute_number`,
  `compute_next_number`), the amounts (`compute_amounts`, `Item._compute_total`),
  the dashboard `summary`, `__str__`, and the two `create_from_project_*`
  constructors. The clock and the values the framework generates for a new
  row are parameters.
- the timesheet clock: `diff`, `finish`, `clock_in` and `clock_out`, over a
  sequence of timesheets in creation order.
- the form validation of the invoice and project forms (`clean_due_date`,
  `clean_end_date`). It also covers the three forms that create an invoice
  from a project: flat amount, rate and units with the labels chosen by payment
  type, and a percentage of the project rate.
- the `pagination_range` template filter.
- `Configuration.get_info`, as a dictionary built from the row's fields, and
  whether `get_company_logo_path` gives a path.

Tables are sequences. Decimals are exact reals, without the ten-digit width of the
stored amount fields (see "## Left out"). Every refused operation returns
an error value instead of raising.

Modules. `Base` and `DecimalText` hold shared definitions, and `Invoices` and
`InvoiceNumbering` both model proma/invoices/models.py:

- `Base`: options, results, dates and form errors.
- `DecimalText`: `str(n)`, `zfill` and parsing digits back.
- `Invoices`
- `InvoiceNumbering`: the numbering finding.
- `InvoiceForms`
- `Projects`
- `ProjectForms`
- `Pagination`
- `Config`

## Model

| member | source | states |
|---|---|---|
| `Invoices.SaveItem` | proma/invoices/models.py:234-239 | the saved item's total is rate times units; no other field changes |
| `Invoices.Display` | proma/invoices/models.py:110-114 | a draft reads "Draft"; any other invoice reads "#" followed by its number |
| `Invoices.CanBeEdited` | proma/invoices/models.py:140-141 | an invoice can be edited exactly when it is shown as "Draft", that is, while it is a draft |
| `Invoices.FormatNumber` | proma/invoices/models.py:164 | the number is all digits; it starts with the year's digits; the rest is the counter's digits zero-padded to exactly five, or longer when the counter has more digits, and parses back to the counter |
| `Invoices.FormatNumberInjective` | proma/invoices/models.py:164 | within one year, equal numbers mean equal counters |
| `Invoices.CountNumberedInYear` | proma/invoices/models.py:156-161 | the count of non-drafts issued in a year is at most the table size |
| `Invoices.CountNumberedZero` | proma/invoices/models.py:156-161 | the count is zero exactly when no non-draft invoice was issued in that year |
| `Invoices.ComputeNextNumber` | proma/invoices/models.py:148-164 | the next number is the current year's digits, then a counter one above the count of non-drafts issued this year, zero-padded to exactly five digits or to its own length if longer |
| `Invoices.FirstNumberOfYear` | proma/invoices/models.py:156-164 | with nothing numbered this year, the number is the year followed by "00001" |
| `Invoices.ComputeNumber` | proma/invoices/models.py:143-146 | a draft keeps its number; any other invoice gets the next number; nothing else changes |
| `Invoices.ComputeNumberOnEmptyStore` | proma/invoices/models.py:143-146 | numbering a non-draft against an empty table gives the year followed by "00001" |
| `Invoices.OpenInvoice` | proma/invoices/models.py:116-123 | only a draft with at least one item opens: a non-draft gives InvalidStatus, a draft with no items gives EmptyInvoice. The opened invoice is Open, carries the opening date and the next number, and is otherwise unchanged |
| `Invoices.Pay` | proma/invoices/models.py:125-131 | only an open invoice is paid; the payment date is set; notes are replaced only when given; nothing else changes |
| `Invoices.Cancel` | proma/invoices/models.py:133-137 | only an open invoice is cancelled; the cancellation date is set; nothing else changes |
| `Invoices.TerminalStatesRejectAll` | proma/invoices/models.py:116-137 | a paid or cancelled invoice is refused by open, pay and cancel alike |
| `Invoices.NumberFixedOnceOpened` | proma/invoices/models.py:116-146 | after leaving the draft state, an invoice keeps its number and never becomes a draft or editable again, whatever requests follow |
| `Invoices.TerminalStatesAreFinal` | proma/invoices/models.py:125-137 | any series of requests leaves a paid or cancelled invoice exactly as it was |
| `Invoices.SumTotals` | proma/invoices/models.py:167-169 | the left fold of item totals is non-negative when every item total is |
| `Invoices.SumTotalsAppend` | proma/invoices/models.py:167-169 | the fold over two item lists together is the sum of the two folds |
| `Invoices.ComputeAmounts` | proma/invoices/models.py:166-174 | subtotal is the sum of item totals. Tax is zero without a rate, and is otherwise subtotal times rate over 100. Total is subtotal plus tax. No other field changes |
| `Invoices.AmountsWithoutItems` | proma/invoices/models.py:166-174 | with no items, every amount is zero |
| `Invoices.TaxWithinSubtotal` | proma/invoices/models.py:166-174 | with a rate in 0..100 and non-negative items, 0 <= tax <= subtotal <= total |
| `Invoices.ComputeAmountsIdempotent` | proma/invoices/models.py:166-174 | computing the amounts a second time changes nothing |
| `Invoices.AmountsExample` | proma/invoices/models.py:166-174 | one item of rate 10 and 10 units at 10% tax gives 100, 10 and 110 |
| `Invoices.OverdueTotal` | proma/invoices/models.py:181-184 | the overdue sum is non-negative over non-negative totals |
| `Invoices.DraftTotal` | proma/invoices/models.py:185-189 | the draft sum is non-negative over non-negative totals |
| `Invoices.Summary` | proma/invoices/models.py:176-192 | the outstanding total is overdue plus draft; over non-negative totals, each part is between zero and the outstanding total |
| `Invoices.SummaryAppend` | proma/invoices/models.py:179-190 | the summary of two tables together is the sum of their summaries |
| `Invoices.SummaryOfOne` | proma/invoices/models.py:179-190 | one invoice adds its total to overdue exactly when it is open and due by today, and to draft exactly when it is a draft |
| `Invoices.Outstanding` | proma/invoices/models.py:181-186 | the kept invoices are drafts or open ones taken from the table |
| `Invoices.OutstandingKeepsAll` | proma/invoices/models.py:181-186 | every draft or open invoice of the table is kept |
| `Invoices.SummaryIgnoresClosed` | proma/invoices/models.py:179-190 | dropping paid and cancelled invoices leaves the summary unchanged |
| `Invoices.SummaryZeroWhenNothingMatches` | proma/invoices/models.py:179-192 | with no draft and nothing overdue, all three totals are zero (the Coalesce default) |
| `Invoices.CreateFromProjectRate` | proma/invoices/models.py:204-212 | the result is an editable draft for the project's client, project and currency. It has one item of exactly rate and units, no tax, and subtotal and total equal to rate times units |
| `Invoices.CreateFromProjectFlat` | proma/invoices/models.py:194-202 | the result is a draft with one item of the amount times 1, so its total is the amount |
| `DecimalText.NatToString` | proma/invoices/models.py:164 | `str(n)` is a non-empty digit string with a leading '0' only for zero |
| `DecimalText.ParseNatToString` | proma/invoices/models.py:164 | parsing `str(n)` gives back n |
| `DecimalText.NatToStringInjective` | proma/invoices/models.py:164 | different numbers have different decimal texts |
| `DecimalText.ZFill` | proma/invoices/models.py:164 | `zfill(w)` pads on the left with zeros to width w and keeps the text as its suffix |
| `DecimalText.ParseZFill` | proma/invoices/models.py:164 | the zero-padded counter is all digits and parses back to the counter |
| `InvoiceNumbering.IssueYearNumberingRepeats` | proma/invoices/models.py:148-164 | as written: a draft issued in an earlier year and any other draft, opened this year one after the other, receive the same number |
| `InvoiceNumbering.CountNumberedAfterUpdate` | proma/invoices/models.py:157-161 | replacing one invoice changes the source's count for a year by that invoice's contribution alone |
| `InvoiceNumbering.OpenTwoBySource` | proma/invoices/models.py:116-123 | opening two drafts in turn numbers each against the table as it then stands |
| `InvoiceNumbering.EarlierIssuedNumberRepeats` | proma/invoices/models.py:148-164 | as written, in any table: opening a draft issued in an earlier year does not advance this year's counter. The next draft opened this year receives the same number, so numbers are no longer distinct |
| `InvoiceNumbering.CountOpenedInYear` | proma/invoices/models.py:156-161 | the corrected count of invoices opened in a year is at most the table size |
| `InvoiceNumbering.CountOpenedZero` | proma/invoices/models.py:156-161 | the corrected count is zero exactly when nothing was opened that year |
| `InvoiceNumbering.OpenByOpeningYear` | proma/invoices/models.py:116-123 | the corrected open refuses exactly as the source does. On success the invoice is open, opened this year, and numbered after the invoices opened this year |
| `InvoiceNumbering.OpenByOpeningYearMatchesSource` | proma/invoices/models.py:116-123 | the corrected open gives the same error as the source, or the source's result with only the number changed |
| `InvoiceNumbering.OpeningYearNumberingSeparates` | proma/invoices/models.py:148-164 | the same two drafts opened with the corrected numbering get different numbers |
| `InvoiceNumbering.FormatNumberSplits` | proma/invoices/models.py:164 | with a four-digit year, the number is its first four characters (the year) followed by the counter |
| `InvoiceNumbering.FormatNumberUnique` | proma/invoices/models.py:164 | with four-digit years, equal numbers mean the same year and the same counter |
| `InvoiceNumbering.CountAfterUpdate` | proma/invoices/models.py:156-161 | replacing one invoice changes a year's count by that invoice's contribution alone |
| `InvoiceNumbering.CountAfterDraft` | proma/invoices/models.py:204-212 | adding a draft changes no year's count |
| `InvoiceNumbering.SameNumberingKeeps` | proma/invoices/models.py:125-137 | paying or cancelling keeps numbers valid and distinct |
| `InvoiceNumbering.OpenKeeps` | proma/invoices/models.py:116-123 | opening with the corrected numbering keeps numbers valid and distinct |
| `InvoiceNumbering.DraftKeeps` | proma/invoices/models.py:204-212 | creating a draft keeps numbers valid and distinct |
| `InvoiceNumbering.ApplyKeeps` | proma/invoices/models.py:116-137 | every request keeps numbers valid and distinct under the corrected numbering |
| `InvoiceNumbering.OpeningYearNumbersUnique` | proma/invoices/models.py:148-164 | under the corrected numbering, no series of requests ever gives two numbered invoices the same number |
| `InvoiceNumbering.DraftsAreWellNumbered` | proma/invoices/models.py:143-146 | a table of drafts only is a valid starting point |
| `InvoiceForms.CleanDueDate` | proma/invoices/forms.py:14-20 | the due date is rejected exactly when both dates are present and it is not strictly after the issue date; otherwise it is returned unchanged |
| `InvoiceForms.DueDateSameDayRejected` | proma/invoices/forms.py:18-19 | a due date equal to the issue date is rejected |
| `InvoiceForms.DueDateEarlierRejected` | proma/invoices/forms.py:18-19 | a due date before the issue date is rejected |
| `InvoiceForms.DueDateLaterAccepted` | proma/invoices/forms.py:14-20 | a later due date is accepted as it is |
| `InvoiceForms.DueDateMissingAccepted` | proma/invoices/forms.py:17-20 | with either date missing, the due date passes through |
| `Projects.Diff` | proma/projects/models.py:117-121 | no difference before the end is set; afterwards the start plus the difference is the end |
| `Projects.Finish` | proma/projects/models.py:132-135 | the timesheet becomes inactive and ends now; nothing else changes |
| `Projects.ActiveCount` | proma/projects/models.py:139 | the active count is zero exactly when no timesheet is active |
| `Projects.ClockIn` | proma/projects/models.py:137-142 | refused exactly when a timesheet is active. Otherwise it appends one active, unfinished timesheet for the project and label, started now, and then exactly one is active |
| `Projects.LastActive` | proma/projects/models.py:146 | the chosen timesheet is active and no later one is; there is none exactly when nothing is active |
| `Projects.ActiveCountDeactivate` | proma/projects/models.py:149 | deactivating one active timesheet lowers the active count by one |
| `Projects.ClockOut` | proma/projects/models.py:144-149 | refused exactly when none is active. Otherwise it finishes one active timesheet, leaves every other unchanged, and lowers the active count by one |
| `Projects.ApplyKeepsOneActive` | proma/projects/models.py:137-149 | a single clock request never makes a second timesheet active |
| `Projects.ReplayKeepsOneActive` | proma/projects/models.py:137-149 | any series of clock requests keeps at most one timesheet active |
| `ProjectForms.CleanEndDate` | proma/projects/forms.py:17-24 | the end date is rejected exactly when both dates are present and it is not strictly after the start; otherwise it is returned unchanged |
| `ProjectForms.CleanDescription` | proma/projects/forms.py:59 | the description is accepted exactly when it is present, non-empty and at most 100 characters |
| `ProjectForms.CleanNonNegative` | proma/projects/forms.py:71 | a decimal is accepted exactly when it is present and at least zero |
| `ProjectForms.CleanPercentage` | proma/projects/forms.py:119-121 | the percentage is accepted exactly when it is present and within 0..100 |
| `ProjectForms.ErrorsOf` | proma/projects/forms.py:57-59 | a field adds no error exactly when it cleaned |
| `ProjectForms.SubmitFlatForm` | proma/projects/forms.py:69-76 | the form's cleaning succeeds exactly when description and amount are valid. It then saves the flat invoice of that amount; otherwise it reports at least one error |
| `ProjectForms.Labels` | proma/projects/forms.py:97-114 | the default "Rate"/"Units" labels stay exactly for a flat-rate project, and the rate and units labels always differ |
| `ProjectForms.LabelsIdentifyPaymentType` | proma/projects/forms.py:97-114 | each payment type gets its own pair of labels |
| `ProjectForms.RateFormSetup` | proma/projects/forms.py:84-87 | the rate starts at the project's rate; the labels follow the payment type; "Rate"/"Units" appear exactly for a flat-rate project |
| `ProjectForms.SubmitRateForm` | proma/projects/forms.py:79-95 | the form's cleaning succeeds exactly when description, rate and units are valid. It then saves an invoice of one item with exactly that rate and those units |
| `ProjectForms.PercentageAmount` | proma/projects/forms.py:124 | the amount times 100 is rate times percentage; 0% gives zero and 100% gives the rate |
| `ProjectForms.SubmitPercentageForm` | proma/projects/forms.py:117-127 | the form saves exactly when description and percentage are valid. It saves a flat invoice whose total is that share of the project rate |
| `ProjectForms.PercentageEndpoints` | proma/projects/forms.py:123-127 | billing 100% bills the project rate; billing 0% bills nothing |
| `Pagination.TruncHalf` | proma/common/templatetags/pagination_tags.py:12 | `int(x / 2)` halves and truncates toward zero |
| `Pagination.Pages` | proma/common/templatetags/pagination_tags.py:17 | the range holds each page from lo to hi once, in order |
| `Pagination.WindowBounds` | proma/common/templatetags/pagination_tags.py:12-14 | the window lies within the pages and holds the current page. Each end is the current page shifted by the variation unless clipped. With few pages, it is every page |
| `Pagination.PaginationRange` | proma/common/templatetags/pagination_tags.py:9-27 | the list starts at page 1, ends at the last page, holds the current page, stays within bounds and strictly increases |
| `Pagination.SmallPageCount` | proma/common/templatetags/pagination_tags.py:12-27 | with no more pages than the length, the list is exactly pages 1..n |
| `Pagination.GapPlacement` | proma/common/templatetags/pagination_tags.py:18-26 | a leading "..." appears exactly when the window starts above page 2; a trailing one exactly when it ends below the next-to-last page |
| `Pagination.PagesShown` | proma/common/templatetags/pagination_tags.py:13-27 | a page is shown exactly when it is the first, the last, or inside the window |
| `Pagination.BlockShapes` | proma/common/templatetags/pagination_tags.py:18-26 | the left and right blocks take only their three forms, each tied to the window's edge |
| `Pagination.GapsHidePages` | proma/common/templatetags/pagination_tags.py:17-27 | neighbouring pages are consecutive, and each "..." stands between two pages with at least one page hidden between them |
| `Config.RemoveAll` | proma/config/models.py:40 | `str.replace(pat, "")` never lengthens the text and leaves it alone when the pattern is absent; which occurrences go is stated by `Config.RemoveAllLeftmost` |
| `Config.RemoveAllLeftmost` | proma/config/models.py:40 | the text before the leftmost occurrence is kept, that occurrence is dropped, and removal goes on after it |
| `Config.RemoveLeadingOccurrence` | proma/config/models.py:40 | a name made of the pattern and a pattern-free rest becomes that rest |
| `Config.RemoveAllExample` | proma/config/models.py:40 | every occurrence is removed, not only the first: "a_b_a_c" without "a_" is "b_c" |
| `Config.CollectInfo` | proma/config/models.py:37-41 | the keys are exactly those of the fields whose names start with the prefix |
| `Config.CollectInfoValue` | proma/config/models.py:38-40 | a selected field's value is stored under its key unless a later field has the same key |
| `Config.GetInfo` | proma/config/models.py:36-41 | a key is present exactly when some field starting with the prefix maps to it |
| `Config.CompanyLegalName` | proma/config/models.py:36-41 | with prefix "company", the legal name is stored under "legal_name" |
| `Config.CompanyLogoPath` | proma/config/models.py:43-46 | no path exactly when the logo is unset or has an empty name; otherwise the path is the media root and the file name |

## Left out

- The views, URL routing, templates, admin, filters, e-mail tasks and PDF
  reports are not modelled. They are collaborators that call the core.
- Persistence is not modelled: database rows, the `unique` constraints on
  number and token, and rounding to two decimal places on save.
- ProjectForms.SubmitFlatForm: the form's `amount` field has no digit limit,
  but the saved item's rate and total, and the invoice's amounts, are
  `DecimalField(max_digits=10, decimal_places=2)` (proma/invoices/models.py:79-85, 220-225).
  An amount of 10^8 or more cleans, and then the save raises, possibly after the
  invoice row is written. The model returns the invoice.
- ProjectForms.SubmitRateForm: the same limit applies. A rate, a units value or a
  rate times units of 10^8 or more cleans, but the item save raises. The model
  returns the invoice.
- Invoices.CreateFromProjectRate: amounts are unbounded reals. The source's
  save raises when rate, units or their product needs more than ten digits
  (eight before the point).
- Invoices.CreateFromProjectFlat: the same ten-digit limit on the amount is
  not modelled.
- Invoices.SaveItem: the ten-digit width of `rate`, `units` and `total` is not
  checked. A total that does not fit makes the source's save raise.
- Concurrency is not modelled. Two requests that read the same count at the
  same time can still receive one number. The model runs one request at a time.
- The clock is not modelled: `timezone.now()` is the parameter `now` or
  `today`.
- The values a new row gets are not computed: `secrets.token_hex` for number
  and token, and the `relativedelta` default due date. They arrive together as
  a `CreationContext`.
- `os.path.join` is not modelled: `get_company_logo_path` returns the pair
  (media root, file name) it would join.
- `Timesheet.diff_humanize` is left out: it formats a duration through a
  localisation library.
- `querystring_without_page` is left out: it manipulates a request's query string.
- `Item.__str__` is left out: it prints a Decimal, and the model does not
  model Decimal's text form.
- Translated message catalogues are left out. Labels and messages are the
  English source strings.
- Django's built-in field cleaning is reduced to required, maximum length and
  the min/max validators. Whitespace stripping, number parsing and the exact
  error texts are not modelled.
- The invoice form's own `tax_percent` validators are outside this model.
- Dates are lexicographic (year, month, day) without calendar validity.
- `zfill` on a negative number is not modelled: counters are never negative.
- Item edits and deletions on drafts are not requests of `InvoiceNumbering.Apply`.
  Those edits touch neither numbers nor statuses.
- Pagination.PaginationRange: a `length` below -1 is excluded by the
  precondition, because the source then fails with an IndexError at
  `page_range[0]`.
- Pagination.PaginationRange: the current page must lie within 1..num_pages,
  which a paginator page guarantees.
- InvoiceNumbering.OpeningYearNumbersUnique: every request that reads the
  clock must see a four-digit year (1000 to 9999). Only then do the year's
  digits and the counter split apart at position four.
- Invoices.OpenInvoice: follows the source. The corrected numbering lives
  only in `InvoiceNumbering`.
- Invoices.OpenInvoice: the source reads the clock twice, once for
  `opening_date` and again for the number's year. `opening_date` is a date in
  the configured time zone, while the number uses the year of the UTC time.
  The model reads one date `now` for both. Across New Year with a time zone
  other than UTC, the source can number an invoice for one year while its
  opening date lies in the year before. `InvoiceNumbering.OpeningYearNumbersUnique`
  and `InvoiceNumbering.CarriesNumber` rely on the two years agreeing.

## Findings

| source | as written | input that shows it | evidently intended | confidence | as-written member | corrected member |
|---|---|---|---|---|---|---|
| proma/invoices/models.py:156-161 | the counter counts non-draft invoices by their issue year | invoice A is issued in 2023 and opened in 2024, and gets 202400001; invoice B is issued and opened in 2024, and also gets 202400001. Since `number` is unique, saving B then raises an integrity error and B stays a draft. Every later open that year computes the same number and fails the same way | count the invoices opened in the current year, so that numbers never repeat | high, as the FIXME at lines 154-155 says as much; not executed | `InvoiceNumbering.EarlierIssuedNumberRepeats` | `InvoiceNumbering.OpeningYearNumbersUnique` |
