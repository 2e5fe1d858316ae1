/** The optional value used wherever the modelled code returns a nullable reference. */
module Wrappers {

  /** `None` stands for Java's `null`, `Some(v)` for a present value. */
  datatype Option<+T> = None | Some(value: T)
}
