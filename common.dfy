/** Small shared datatypes. */
module Common {
  /** An optional value: `None` where the Go code has no value (an empty field list, a failed read). */
  datatype Option<+T> = None | Some(value: T)
}
