/** Optional values, used for C's nullable pointers (`in_file`, `out_file`,
    the result of `getcwd`) and for descriptor lookups. */
module Wrappers {

  datatype Option<T> = None | Some(value: T)

}
