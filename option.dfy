/** The optional value used wherever the source returns `None` or a missing key. */
module Optional {
  datatype Option<T> = None | Some(value: T)
  {
    /** The value, or `default` when there is none (Python's `x if x is not None else default`). */
    function GetOr(default: T): (r: T)
      ensures this.Some? ==> r == value
      ensures this.None? ==> r == default
    {
      match this
      case None => default
      case Some(v) => v
    }
  }
}
