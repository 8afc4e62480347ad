/** The optional-value wrapper shared by the modules of this model. */
module Wrappers {

  /** `None` stands for a Java `null` or for "nothing found". */
  datatype Option<+T> = None | Some(value: T)
}
