/** The optional value used for JSON fields that may be absent and for
    evaluations that may throw. */
module Wrappers {

  datatype Option<+T> = None | Some(value: T)
}
