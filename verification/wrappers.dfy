/** The optional value used for every operation of the bot that can fail. */
module Wrappers {

  datatype Option<+T> = None | Some(value: T)
}
