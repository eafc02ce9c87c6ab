/** An optional value: stands for a TypeScript `T | undefined` or `T | null`. */
module Maybe {

  datatype Option<+T> = None | Some(value: T) {

    /** The wrapped value, or `default` when there is none. */
    function GetOr(default: T): T {
      match this
      case Some(v) => v
      case None => default
    }
  }
}
