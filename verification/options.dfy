/** A value that may be absent: the model's stand-in for a TypeScript
    optional field or an `undefined` lookup result. */
module Options {

  datatype Option<+T> = None | Some(value: T) {

    /** Returns the value held in Some, or `default` when None. */
    function GetOr(default: T): T {
      match this
      case Some(v) => v
      case None => default
    }
  }
}
