/** Optional values: a JavaScript `undefined` or absent field becomes `None`. */
module Wrappers {

  datatype Option<+T> = None | Some(value: T)

}
