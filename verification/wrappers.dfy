/** A minimal optional-value datatype, used by the level-string parser. */
module Wrappers {

  datatype Option<+T> = None | Some(value: T)

}
