/** The absent-or-present value used wherever the bot looks something up. */
module Wrappers {

  datatype Option<+T> = None | Some(value: T)
}
