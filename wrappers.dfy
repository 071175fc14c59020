/** Optional values, standing for a JSON key that may be absent. */
module Wrappers {

  datatype Option<+T> = None | Some(value: T)
}
