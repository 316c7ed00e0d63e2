/** Absent-or-present values: JavaScript's null and undefined read as None. */
module Options {
  datatype Option<+T> = None | Some(value: T)
}
