/** Optional values: `None` stands for a call that raises instead of returning. */
module Wrappers {
  datatype Option<T> = None | Some(value: T)
}
