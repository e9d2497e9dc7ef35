/** A value that may be absent. */
module Options {

  datatype Option<+T> = None | Some(value: T) {

    /** The `?? default` / `|| default` idiom for a value that may be absent. */
    function GetOr(default: T): T {
      match this
      case Some(v) => v
      case None => default
    }
  }
}
