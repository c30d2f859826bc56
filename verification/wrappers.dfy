/** Nullable values and Java-style failure outcomes shared by the model. */
module Wrappers {

  /** A Java reference that may be null: `None` is null. */
  datatype Option<+T> = None | Some(value: T)

  /** The unchecked exceptions the modelled code can raise. */
  datatype JavaException =
    | NullPointerException   // a method called on a null reference
    | AssertionError         // a failed `Assumption.assertTrue`

  /** Either a normal return value or an exception that escapes the call. */
  datatype Result<+T> = Ok(value: T) | Thrown(exception: JavaException)
}
