/** The optional value used by every component for Python's `None`. */
module Options {
  datatype Option<+T> = None | Some(value: T)

  /** None or one element. */
  function AsSeq<T>(x: Option<T>): seq<T> { if x.Some? then [x.value] else [] }
}
