/** Optional values: C#'s nullable references (`string?`) in the model. */
module Wrappers {
  datatype Option<+T> = None | Some(value: T)
}
