/** The optional value used for every nullable field and every "no score" answer. */
module Wrappers {

  datatype Option<+T> = None | Some(value: T)
}
