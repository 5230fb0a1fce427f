/** Optional values: a pointer that may be NULL, a lookup that may fail, a list that may be missing. */
module Options {
  datatype Option<+T> = None | Some(value: T)
}
