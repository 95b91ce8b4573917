/** The nullable references of the C# source, as a value type. */
module Wrappers {
  datatype Option<+T> = None | Some(value: T)
}
