/** Optional values: `None` stands for Python's `None` and for `float('inf')` where
    the source uses infinity as "no value yet". */
module Wrappers {

  datatype Option<+T> = None | Some(value: T)

}
