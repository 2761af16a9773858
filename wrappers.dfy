/** The Some/None datatype used for Python's `None` results and for
    operations that may raise. */
module Wrappers {

  datatype Option<+T> = None | Some(value: T)
}
