/** Optional values, used by the dashboard model. */
module Wrappers {

  /** `None` stands for a JavaScript `undefined` or `null`. */
  datatype Option<+T> = None | Some(value: T)
}
