/** Small shared vocabulary: optional values, validation outcomes and the
    three answers a role-gated view can give. */
module Common {

  datatype Option<+T> = None | Some(value: T)

  /** A step that either produces a value or fails with a message
      (a form ValidationError, a database IntegrityError). */
  datatype Outcome<+T> = Ok(value: T) | Err(error: string)

  /** What a view answers: its page with the data it would render,
      the 403 page, or the 404 page. Redirects and bodies are not modelled. */
  datatype Response<+T> = Allowed(value: T) | Forbidden | NotFound

  /** The request method; views act on POST and only render on anything else. */
  datatype HttpMethod = Get | Post

  /** Date, time-of-day and timestamp fields are kept as integers
      (days, minutes, seconds); only their order is ever used. */
  type Date = int
  type Timestamp = int
  type TimeOfDay = int

  /** Decimal money and marks fields, in hundredths; no arithmetic is done on them. */
  type Decimal = int
}
