/** A value that may be missing: the contracts' optional fields, and results of calls that may panic. */
module Options {
  datatype Option<+T> = None | Some(value: T)
}
