/** The optional value used wherever the picker holds a date that may be absent
    (an unset end date, a padding cell of the month grid, a missing prop). */
module Options {

  datatype Option<+T> = None | Some(value: T) {

    /** The wrapped value, or `default` when there is none (JavaScript's `x || default`). */
    function GetOr(default: T): T {
      match this
      case Some(v) => v
      case None => default
    }
  }
}
