/** Optional values, standing for the Java `null`s and the "no match" answers of the handler. */
module Wrappers {

  datatype Option<+T> = None | Some(value: T)
}
