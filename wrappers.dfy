/** Optional values: `None` stands for Python's `None` (a read that got no reply, a cache slot not yet filled). */
module Wrappers {

  datatype Option<+T> = None | Some(value: T)
}
