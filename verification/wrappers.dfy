/** The optional-value datatype used for stores that may not exist yet. */
module Wrappers {

  /** `None` stands for a store (file) that does not exist; `Some` carries its contents. */
  datatype Option<+T> = None | Some(value: T)
}
