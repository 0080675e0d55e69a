/** The optional value used wherever the storefront holds "a record or nothing":
    the result of a lookup, and the vendor session. */
module Wrappers {

  datatype Option<+T> = None | Some(value: T)
}
