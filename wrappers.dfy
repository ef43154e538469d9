/** An optional value, for results that may be absent and for optional
    collaborators. */
module Wrappers {

  datatype Option<+T> = None | Some(value: T)
}
