/** The optional value shared by every model: Python's `Optional[T]` and a nullable column. */
module Options {
  datatype Option<+T> = None | Some(value: T)

  /** `value or fallback` for a value that is absent rather than falsy. */
  function GetOr<T>(o: Option<T>, fallback: T): T {
    if o.Some? then o.value else fallback
  }
}
