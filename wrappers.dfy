/** Optional values, as the pallet's storage and the grid's placement use them. */
module Wrappers {

  datatype Option<+T> = None | Some(value: T)
}
