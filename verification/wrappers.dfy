/** Optional values, standing for Ruby's `nil` where the source tests `.nil?`. */
module Wrappers {

  datatype Option<+T> = None | Some(value: T)
}
