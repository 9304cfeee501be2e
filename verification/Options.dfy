/** The outcome of an operation that may be unavailable: a step that is not enabled, a lookup that misses. */
module Options {
  datatype Option<+T> = None | Some(value: T)
}
