/** The optional value the parsers of this model return instead of raising. */
module Wrappers {

  datatype Option<+T> = None | Some(value: T)

}
