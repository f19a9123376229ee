/** The optional value used for JavaScript's `null`/`undefined` results and for failed fetches. */
module Wrappers {

  datatype Option<+T> = None | Some(value: T)
}
