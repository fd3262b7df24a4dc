/** The optional value the Python code expresses by returning `None`. */
module Wrappers {

  datatype Option<+T> = None | Some(value: T)
}
