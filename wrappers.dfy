/** Optional values: `None` stands for a JavaScript `undefined` (or `null`) where the
    service reads a property or an array element that is not there. */
module Wrappers {

  datatype Option<+T> = None | Some(value: T)
}
