/** Optional values: `None` stands for JavaScript's `undefined` and for a
    call that throws a `TypeError` instead of returning. */
module Wrappers {
  datatype Option<T> = None | Some(value: T)
}
