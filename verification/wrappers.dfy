/** The optional value used where the source returns a possibly-null reference. */
module Wrappers {

  /** `None` stands for a Java `null` result, `Some(v)` for a non-null one. */
  datatype Option<+T> = None | Some(value: T)
}
