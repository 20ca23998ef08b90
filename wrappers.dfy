/** Optional values: Go's nil pointers, null.String/null.Time and absent payload keys. */
module Wrappers {

  datatype Option<+T> = None | Some(value: T)
}
