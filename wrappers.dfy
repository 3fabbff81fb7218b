/** The optional value the gateway's selector returns: an endpoint, or nothing (JavaScript's null). */
module Wrappers {
  datatype Option<+T> = None | Some(value: T)
}
