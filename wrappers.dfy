/** The optional value used where the source has `null` (or a missing entry). */
module Wrappers {

  datatype Option<+T> = None | Some(value: T)
}
