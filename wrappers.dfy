/** The optional value used wherever the source yields `null`, `NaN` or "no match". */
module Wrappers {

  datatype Option<+T> = None | Some(value: T)
}
