/** An optional value: `None` stands for Python's missing key, failed parse or absent result. */
module Wrappers {
  datatype Option<+T> = None | Some(value: T)
}
