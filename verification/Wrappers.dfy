/** The optional value shared by the models: a directory that may be absent, a record that may not exist yet. */
module Wrappers {
  datatype Option<+T> = None | Some(value: T)
}
