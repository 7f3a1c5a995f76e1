/** Optional values: `None` stands for the JavaScript `null` or `undefined` of the source. */
module Wrappers {

  datatype Option<+T> = None | Some(value: T)
}
