/** Optional values, standing in for the runtime's `optional<T>` and for nullable pointers. */
module Wrappers {

  datatype Option<+T> = None | Some(value: T)

}
