/** The optional-value datatype used where the Python code returns `None`
    or may find nothing (a regex search, a failed `float()` conversion). */
module Wrappers {

  datatype Option<+T> = None | Some(value: T)
}
