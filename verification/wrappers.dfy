/** The optional value the source writes as `T | undefined` or `T | null`. */
module Wrappers {
  datatype Option<+T> = None | Some(value: T)
}
