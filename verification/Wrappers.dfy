/** What the documents of every component share. */
module Wrappers {
  datatype Option<+T> = None | Some(value: T)

  /** The largest count, revision or serial that a file may hold. */
  const MAX_COUNT: nat := 2147483647
}
