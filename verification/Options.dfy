/** The outcome of an operation that may have no result, where the C code returns null or a sentinel. */
module Options {
  datatype Option<+T> = None | Some(value: T)
}
