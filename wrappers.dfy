/** Small value wrappers shared by every module of the model. */
module Wrappers {

  /** A nullable value (`T | null` in the application). */
  datatype Option<+T> = None | Some(value: T)

  /** The outcome of a route: the value it returns, or the error it throws. */
  datatype Result<+T, +E> = Ok(value: T) | Err(error: E)

  /**
   * A field of a partial-update request body: left out of the body
   * (`undefined`), sent as `null`, or given a value.
   */
  datatype Field<+T> = Absent | Null | Given(value: T)

  /** `if (f !== undefined) x = f === null ? null : f`. */
  function Nullable<T>(f: Field<T>, current: Option<T>): Option<T>
  {
    match f
    case Absent => current
    case Null => None
    case Given(v) => Some(v)
  }

  /** `if (f !== undefined) x = Boolean(f)`; `Boolean(null)` is false. */
  function BooleanField(f: Field<bool>, current: bool): bool
  {
    match f
    case Absent => current
    case Null => false
    case Given(b) => b
  }
}
