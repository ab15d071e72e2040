/** The optional-value wrapper used for "nothing selected" and "no URL opened". */
module Wrappers {

  datatype Option<+T> = None | Some(value: T)
}
