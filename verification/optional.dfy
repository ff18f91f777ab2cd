/** The absent-value sentinel of the application: `undefined` in the source
    (a lookup that finds nothing, an optional field that is not set). */
module Optional {

  datatype Option<+T> = None | Some(value: T) {

    /** The contained value, or `default` when there is none. */
    function GetOr(default: T): T
    {
      match this
      case Some(v) => v
      case None => default
    }
  }
}
