/** The absent-or-present value used wherever the modelled code returns
    `null`, `undefined`, `NaN` or a Go `nil`. */
module Optional {

  datatype Option<+T> = None | Some(value: T) {

    /** The value when present, otherwise `default`. */
    function GetOr(default: T): T {
      match this
      case Some(v) => v
      case None => default
    }
  }
}
