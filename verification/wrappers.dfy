/** Optional values: a row either yields a document or is dropped. */
module Wrappers {

  datatype Option<+T> = None | Some(value: T)

}
