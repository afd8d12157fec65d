/** The optional value that stands for `T | null` and for the `undefined`
    that `Array.prototype.find` returns when nothing matches. */
module Wrappers {

  datatype Option<+T> = None | Some(value: T)
}
