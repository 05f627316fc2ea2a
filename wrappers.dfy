/** Optional values: the model's stand-in for Python's None and for a
    handler path that raises instead of producing a value. */
module Wrappers {

  datatype Option<+T> = None | Some(value: T)
}
