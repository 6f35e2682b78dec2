/** The optional value used wherever the Java code returns `null` or throws
    on a path that the model keeps as an explicit alternative. */
module Wrappers {

  datatype Option<+T> = None | Some(value: T)
}
