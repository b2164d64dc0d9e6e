/** A value that may be missing: the documents' optional fields and `null` results. */
module Optional {

  datatype Option<+T> = None | Some(value: T) {

    /** The value, or `default` when there is none (the `??` operator). */
    function GetOr(default: T): T {
      match this
      case Some(v) => v
      case None => default
    }

    /** This value, or `other` when there is none. */
    function OrElse(other: Option<T>): Option<T> {
      if Some? then this else other
    }
  }
}
