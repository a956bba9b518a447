/** Optional values: a JSON field that may be missing, a step that may be refused. */
module Wrappers {

  datatype Option<+T> = None | Some(value: T)
}
