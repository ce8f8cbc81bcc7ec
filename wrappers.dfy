/** Optional values: the models' stand-in for a C++ boolean result plus out-parameters. */
module Wrappers {
  datatype Option<+T> = None | Some(value: T)
}
