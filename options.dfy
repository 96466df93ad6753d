/** An optional value: TypeScript's `T | null` and optional (`?`) properties. */
module Options {
  datatype Option<+T> = None | Some(value: T) {
    /** The value, or `default` when there is none (the `x || default` idiom). */
    function GetOr(default: T): T {
      match this
      case Some(v) => v
      case None => default
    }
  }
}
