/** Optional values: the model's stand-in for a field that may be absent (None in
    Python, undefined or null in TypeScript). */
module Wrappers {

  datatype Option<+T> = None | Some(value: T)
}
