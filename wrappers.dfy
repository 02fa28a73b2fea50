/** PHP's nullable values (`null|string`) as an explicit option. */
module Wrappers {

  datatype Option<+T> = None | Some(value: T)
}
