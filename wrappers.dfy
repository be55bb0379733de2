/** Nullable values and fallible results, as used by the invoice model. */
module Wrappers {

  /** A nullable column or an absent row. */
  datatype Option<+T> = None | Some(value: T)

  /** The outcome of a database commit: the new table, or the constraint that rejected it. */
  datatype Result<+T, +E> = Ok(value: T) | Err(error: E)
}
