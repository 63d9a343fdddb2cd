/** The optional value used wherever the game returns or stores `None`. */
module Wrappers {

  datatype Option<+T> = None | Some(value: T)
}
