/**
 The project form's date check and the three forms that create an invoice
 from a project (proma/projects/forms.py). A submitted form is modelled as
 its field values, `None` for a field left empty; cleaning a field either
 yields its value or a field error, and a form with any error saves nothing.
 */
module ProjectForms {
  import opened Base
  import opened Projects
  import opened Invoices

  const EndDateMessage := "The end date must be greater than start date"

  /** `ProjectForm.clean_end_date`: with both dates present the end must fall
      strictly after the start; the end date is returned unchanged. */
  function CleanEndDate(startDate: Option<Date>, endDate: Option<Date>): (r: Result<Option<Date>, FieldError>)
    ensures r.Err? <==> startDate.Some? && endDate.Some? && !Before(startDate.value, endDate.value)
    ensures r.Err? ==> r.error == FieldError("end_date", Invalid(EndDateMessage))
    ensures r.Ok? ==> r.value == endDate
  {
    if startDate.Some? && endDate.Some? && AtOrBefore(endDate.value, startDate.value) then
      Err(FieldError("end_date", Invalid(EndDateMessage)))
    else
      Ok(endDate)
  }

  /** The description field: required, at most 100 characters. */
  function CleanDescription(description: Option<string>): (r: Result<string, FieldError>)
    ensures r.Ok? <==> description.Some? && 0 < |description.value| <= 100
    ensures r.Ok? ==> r.value == description.value
    ensures r.Err? ==> r.error.field == "description"
  {
    match description
    case None => Err(FieldError("description", Required))
    case Some(d) =>
      if |d| == 0 then Err(FieldError("description", Required))
      else if |d| > 100 then Err(FieldError("description", TooLong))
      else Ok(d)
  }

  /** A required decimal field with `MinValueValidator(0)`. */
  function CleanNonNegative(field: string, value: Option<real>): (r: Result<real, FieldError>)
    ensures r.Ok? <==> value.Some? && value.value >= 0.0
    ensures r.Ok? ==> r.value == value.value
    ensures r.Err? ==> r.error.field == field
  {
    match value
    case None => Err(FieldError(field, Required))
    case Some(v) => if v < 0.0 then Err(FieldError(field, BelowMinimum)) else Ok(v)
  }

  /** The required integer percentage with validators 0 and 100. */
  function CleanPercentage(value: Option<int>): (r: Result<int, FieldError>)
    ensures r.Ok? <==> value.Some? && 0 <= value.value <= 100
    ensures r.Ok? ==> r.value == value.value
    ensures r.Err? ==> r.error.field == "percentage"
  {
    match value
    case None => Err(FieldError("percentage", Required))
    case Some(p) =>
      if p < 0 then Err(FieldError("percentage", BelowMinimum))
      else if p > 100 then Err(FieldError("percentage", AboveMaximum))
      else Ok(p)
  }

  function ErrorsOf<T>(r: Result<T, FieldError>): (es: seq<FieldError>)
    ensures r.Ok? <==> es == []
  {
    if r.Err? then [r.error] else []
  }

  /** `CreateInvoiceFlatForm`: a valid form saves a flat invoice for the
      entered amount. */
  function SubmitFlatForm(project: Project, description: Option<string>, amount: Option<real>,
                          ctx: CreationContext): (r: Result<Invoice, seq<FieldError>>)
    ensures r.Ok? <==> CleanDescription(description).Ok? && amount.Some? && amount.value >= 0.0
    ensures r.Err? ==> |r.error| > 0
    ensures r.Ok? ==> r.value == CreateFromProjectFlat(project, description.value, amount.value, ctx)
    ensures r.Ok? ==> |r.value.items| == 1 && r.value.items[0].rate == amount.value && r.value.total == amount.value
  {
    var d := CleanDescription(description);
    var a := CleanNonNegative("amount", amount);
    var errors := ErrorsOf(d) + ErrorsOf(a);
    if errors != [] then Err(errors)
    else Ok(CreateFromProjectFlat(project, d.value, a.value, ctx))
  }

  /** The (rate, units) field labels `_set_labels` chooses for a payment type. */
  function Labels(paymentType: PaymentType): (r: (string, string))
    ensures paymentType == FlatRate <==> r == ("Rate", "Units")
    ensures r.0 != r.1
  {
    match paymentType
    case HourlyRate => ("Per hour", "Hours")
    case DailyRate => ("Per day", "Days")
    case WeeklyRate => ("Per week", "Weeks")
    case MounthlyRate => ("Per month", "Months")
    case FlatRate => ("Rate", "Units")
  }

  /** Each payment type has its own pair of labels. */
  lemma LabelsIdentifyPaymentType(a: PaymentType, b: PaymentType)
    requires Labels(a) == Labels(b)
    ensures a == b
  {
  }

  /** How `CreateInvoiceRateForm` is shown before anything is entered. */
  datatype RateFormLayout = RateFormLayout(initialRate: real, rateLabel: string, unitsLabel: string)

  /** `CreateInvoiceRateForm.__init__`: the rate starts at the project's rate
      and the labels follow the project's payment type. */
  function RateFormSetup(project: Project): (r: RateFormLayout)
    ensures r.initialRate == project.rate
    ensures (r.rateLabel, r.unitsLabel) == Labels(project.paymentType)
    ensures project.paymentType == FlatRate <==> r.rateLabel == "Rate" && r.unitsLabel == "Units"
  {
    var (rateLabel, unitsLabel) := Labels(project.paymentType);
    RateFormLayout(project.rate, rateLabel, unitsLabel)
  }

  /** `CreateInvoiceRateForm.save`: a valid form saves an invoice with one
      item of exactly the entered rate and units. */
  function SubmitRateForm(project: Project, description: Option<string>, rate: Option<real>,
                          units: Option<real>, ctx: CreationContext): (r: Result<Invoice, seq<FieldError>>)
    ensures r.Ok? <==> (CleanDescription(description).Ok? && rate.Some? && rate.value >= 0.0
                        && units.Some? && units.value >= 0.0)
    ensures r.Err? ==> |r.error| > 0
    ensures r.Ok? ==> r.value == CreateFromProjectRate(project, description.value, rate.value, units.value, ctx)
    ensures r.Ok? ==> (|r.value.items| == 1 && r.value.items[0].rate == rate.value
                       && r.value.items[0].units == units.value && r.value.total == rate.value * units.value)
  {
    var d := CleanDescription(description);
    var rt := CleanNonNegative("rate", rate);
    var u := CleanNonNegative("units", units);
    var errors := ErrorsOf(d) + ErrorsOf(rt) + ErrorsOf(u);
    if errors != [] then Err(errors)
    else Ok(CreateFromProjectRate(project, d.value, rt.value, u.value, ctx))
  }

  /** The amount the percentage form bills: that share of the project's rate. */
  function PercentageAmount(rate: real, percentage: int): (r: real)
    ensures r * 100.0 == rate * percentage as real
    ensures percentage == 0 ==> r == 0.0
    ensures percentage == 100 ==> r == rate
    ensures 0.0 <= rate && 0 <= percentage <= 100 ==> 0.0 <= r <= rate
  {
    var p := percentage as real;
    var r := rate * (p / 100.0);
    assert 0.0 <= rate && 0 <= percentage <= 100 ==> rate * (p / 100.0) <= rate * 1.0;
    r
  }

  /** `CreateInvoicePercentageForm.save`: a valid form saves a flat invoice
      for the given percentage of the project's rate. */
  function SubmitPercentageForm(project: Project, description: Option<string>, percentage: Option<int>,
                                ctx: CreationContext): (r: Result<Invoice, seq<FieldError>>)
    ensures r.Ok? <==> CleanDescription(description).Ok? && percentage.Some? && 0 <= percentage.value <= 100
    ensures r.Err? ==> |r.error| > 0
    ensures r.Ok? ==> r.value == CreateFromProjectFlat(project, description.value,
                                                       PercentageAmount(project.rate, percentage.value), ctx)
    ensures r.Ok? ==> r.value.total * 100.0 == project.rate * percentage.value as real
  {
    var d := CleanDescription(description);
    var p := CleanPercentage(percentage);
    var errors := ErrorsOf(d) + ErrorsOf(p);
    if errors != [] then Err(errors)
    else Ok(CreateFromProjectFlat(project, d.value, PercentageAmount(project.rate, p.value), ctx))
  }

  /** Billing 100% of the project bills exactly its rate; 0% bills nothing. */
  lemma PercentageEndpoints(project: Project, description: string, ctx: CreationContext)
    requires CleanDescription(Some(description)).Ok?
    ensures SubmitPercentageForm(project, Some(description), Some(100), ctx).value.total == project.rate
    ensures SubmitPercentageForm(project, Some(description), Some(0), ctx).value.total == 0.0
  {
  }
}
