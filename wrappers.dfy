/** Optional values: the model's reading of Python's `None` beside a value. */
module Wrappers {

  datatype Option<+T> = None | Some(value: T)
}
