/** Optional values: `None` stands for a JavaScript `undefined`, a `NaN`, or a thrown exception. */
module Wrappers {

  datatype Option<+T> = None | Some(value: T)
}
