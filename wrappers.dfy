/** The optional value used wherever the storefront returns `undefined`/`null` or nothing was selected. */
module Wrappers {
  datatype Option<+T> = None | Some(value: T)
}
