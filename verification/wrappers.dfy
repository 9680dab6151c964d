/** Optional values: a JavaScript `undefined`/`null` or an absent database row. */
module Wrappers {

  datatype Option<+T> = None | Some(value: T)
}
