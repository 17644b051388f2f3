/** An optional value: either absent or carrying one value. */
module Wrappers {

  datatype Option<+T> = None | Some(value: T)
}
