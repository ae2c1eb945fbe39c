/** The optional value used for strategy results and close reasons. */
module Wrappers {

  /** `None` stands for the source's Python `None`. */
  datatype Option<+T> = None | Some(value: T)
}
