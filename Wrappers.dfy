/** Optional value for the dashboard's no-data paths. */
module Wrappers {

  datatype Option<+T> = None | Some(value: T)

}
