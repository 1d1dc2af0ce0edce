/** The optional-value datatype the model uses for results that may be absent. */
module Wrappers {

  /** `None` marks a value that was never produced; `Some` carries the one that was. */
  datatype Option<+T> = None | Some(value: T)
}
