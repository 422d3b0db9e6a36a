/** The optional value used for an absent regular-expression match and for
    the parser's "no current speaker". */
module Wrappers {
  datatype Option<T> = None | Some(value: T)
}
