/** The absent-or-present value used wherever the scripts return `null`
    or `undefined` for "nothing". */
module Options {

  datatype Option<+T> = None | Some(value: T) {

    /** The value when present, `default` otherwise. */
    function GetOr(default: T): T {
      match this
      case Some(v) => v
      case None => default
    }
  }
}
