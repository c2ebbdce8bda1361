/** The optional value used wherever the source has `undefined` or `null`. */
module Options {

  datatype Option<+T> = None | Some(value: T) {

    /** Returns the value in Some, or the given default. */
    function GetOr(default: T): T {
      match this
      case Some(v) => v
      case None => default
    }
  }
}
