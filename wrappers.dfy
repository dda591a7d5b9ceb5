/** Optional values: a Python result that may be `None`, or a dictionary lookup that may miss. */
module Wrappers {

  datatype Option<+T> = None | Some(value: T)
}
