// A value that may be missing: the source's nil results and second "ok" results.

module Options {
  datatype Option<T> = None | Some(value: T)
}
