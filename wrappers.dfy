/** The optional value used wherever the component can come back with nothing:
    a JavaScript `undefined`, a `NaN` from `parseInt`, or an exception that
    ends the constructor. */
module Wrappers {
  datatype Option<+T> = None | Some(value: T)
}
