/** The optional-value type used wherever a field of the source's records may be absent. */
module Wrappers {

  datatype Option<+T> = None | Some(value: T)
}
