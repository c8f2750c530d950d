/** An optional value: `None` stands for a field that is `undefined` in the
    renderer's input (a missing modifier list, a missing `properties` record,
    a modifier without an argument). */
module Options {

  datatype Option<+T> = None | Some(value: T) {

    /** The wrapped value, or `default` when absent (JavaScript's
        parameter-default `x = default`). */
    function GetOr(default: T): T {
      match this
      case Some(v) => v
      case None => default
    }
  }
}
