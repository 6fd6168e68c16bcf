/**
 Values shared by every module of the model: optional values, the results of
 operations that raise a domain exception, calendar dates and form errors.
 */
module Base {

  /** An optional value; Python's `None` is `None`. */
  datatype Option<T> = None | Some(value: T)

  /** The outcome of an operation that raises a domain exception in the source:
      `Ok` carries what it returns, `Err` the exception it raises. */
  datatype Result<T, E> = Ok(value: T) | Err(error: E)

  /** The years a Python `datetime.date` can hold (MINYEAR .. MAXYEAR). */
  type Year = y: int | 1 <= y <= 9999 witness 1

  /** A calendar date. Day and month are not range-checked: the model only
      compares dates and reads their year. */
  datatype Date = Date(year: Year, month: int, day: int)

  /** Python's `a < b` on dates: lexicographic on (year, month, day). */
  predicate Before(a: Date, b: Date) {
    || a.year < b.year
    || (a.year == b.year && a.month < b.month)
    || (a.year == b.year && a.month == b.month && a.day < b.day)
  }

  /** Python's `a <= b` on dates. */
  predicate AtOrBefore(a: Date, b: Date) {
    a == b || Before(a, b)
  }

  /** Why a form field was rejected. `Invalid` is a custom `clean_<field>` error. */
  datatype ErrorKind = Required | TooLong | BelowMinimum | AboveMaximum | Invalid(message: string)

  /** A validation error attached to one form field. */
  datatype FieldError = FieldError(field: string, kind: ErrorKind)
}
