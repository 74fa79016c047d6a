/** An optional value, for the fields of a record that may be absent. */
module Wrappers {

  datatype Option<+T> = None | Some(value: T)
}
