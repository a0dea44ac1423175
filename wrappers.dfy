/** Optional values: a form field the user has not filled in, a date filter not chosen. */
module Wrappers {

  datatype Option<+T> = None | Some(value: T)
}
