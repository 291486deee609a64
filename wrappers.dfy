/** The optional value used for Java's null and for an enum lookup that throws. */
module Wrappers {

  datatype Option<+T> = None | Some(value: T)
}
