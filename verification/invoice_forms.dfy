/**
 The invoice form's own validation (proma/invoices/forms.py). A date the form
 could not clean, or one left empty, arrives as `None`.
 */
module InvoiceForms {
  import opened Base

  const DueDateMessage := "Due date must be greater than issue date"

  /** `InvoiceForm.clean_due_date`: with both dates present the due date must
      fall strictly after the issue date; the due date is returned unchanged. */
  function CleanDueDate(issueDate: Option<Date>, dueDate: Option<Date>): (r: Result<Option<Date>, FieldError>)
    ensures r.Err? <==> issueDate.Some? && dueDate.Some? && !Before(issueDate.value, dueDate.value)
    ensures r.Err? ==> r.error == FieldError("due_date", Invalid(DueDateMessage))
    ensures r.Ok? ==> r.value == dueDate
  {
    if issueDate.Some? && dueDate.Some? && AtOrBefore(dueDate.value, issueDate.value) then
      Err(FieldError("due_date", Invalid(DueDateMessage)))
    else
      Ok(dueDate)
  }

  /** A due date equal to the issue date is rejected. */
  lemma DueDateSameDayRejected(d: Date)
    ensures CleanDueDate(Some(d), Some(d)).Err?
  {
  }

  /** A due date earlier than the issue date is rejected. */
  lemma DueDateEarlierRejected(issueDate: Date, dueDate: Date)
    requires Before(dueDate, issueDate)
    ensures CleanDueDate(Some(issueDate), Some(dueDate)).Err?
  {
  }

  /** A due date strictly later than the issue date is accepted as it is. */
  lemma DueDateLaterAccepted(issueDate: Date, dueDate: Date)
    requires Before(issueDate, dueDate)
    ensures CleanDueDate(Some(issueDate), Some(dueDate)) == Ok(Some(dueDate))
  {
  }

  /** When either date is missing nothing is checked. */
  lemma DueDateMissingAccepted(issueDate: Option<Date>, dueDate: Option<Date>)
    requires issueDate.None? || dueDate.None?
    ensures CleanDueDate(issueDate, dueDate) == Ok(dueDate)
  {
  }
}
