/** The optional value used wherever the JavaScript code reads a property that
    may be absent, or returns `null`/`undefined` for "not found". */
module Optional {

  datatype Option<+T> = None | Some(value: T) {

    /** The value, or `default` when absent: the `x || default` idiom of the
        source, for values that are never falsy. */
    function GetOr(default: T): (r: T)
      ensures Some? ==> r == value
      ensures None? ==> r == default
    {
      match this
      case Some(v) => v
      case None => default
    }
  }
}
