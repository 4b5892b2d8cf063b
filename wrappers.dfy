/** Optional values: `undefined`/`null` in the application's TypeScript. */
module Wrappers {

  datatype Option<+T> = None | Some(value: T)
}
