/** A shared datatype. */
module Prelude {
  datatype Option<+T> = None | Some(value: T)
}
