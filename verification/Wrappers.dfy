/** The optional value used wherever the modelled code has nil, a missing key or an error. */
module Wrappers {

  datatype Option<+T> = None | Some(value: T)
}
