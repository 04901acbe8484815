/** Optional values: Python's `None` and JavaScript's `null`/`undefined` where they stand for "no value". */
module Options {
  datatype Option<+T> = None | Some(value: T) {
    function GetOr(default: T): T {
      match this
      case Some(v) => v
      case None => default
    }
  }
}
