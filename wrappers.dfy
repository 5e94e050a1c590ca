/** The optional value used for the places where the application gets no
    row back (an unknown user id, an empty catalog) or raises. */
module Wrappers {
  datatype Option<T> = None | Some(value: T)
}
