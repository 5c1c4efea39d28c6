/** The optional value used wherever the source tests `'key' in filters` or a
    regular-expression match object for None. */
module Wrappers {

  datatype Option<+T> = None | Some(value: T)
}
