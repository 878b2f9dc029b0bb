/** Failure values and optional values shared by every module. */
module Common {

  datatype Option<+T> = None | Some(value: T)

  /** The HTTP failures the services raise, by their exception class. */
  datatype Failure =
    | BadRequest
    | Forbidden
    | NotFound
    | Conflict
    | Unprocessable

  datatype ReportKind = INTERNAL | INTER_COORDINATION

  datatype Severity = LOW | MEDIUM | HIGH | CRITICAL

  datatype Result<+T> = Ok(value: T) | Err(error: Failure)

  const HOUR_MS: int := 3_600_000
  const DAY_MS: int := 24 * HOUR_MS
}
