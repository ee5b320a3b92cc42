/** Java's `Optional` and nullable references, as a value type. */
module Optional {

  datatype Option<+T> = None | Some(value: T) {

    /** `Optional.orElse`: the held value, or `default` when empty. */
    function GetOr(default: T): T {
      match this
      case Some(v) => v
      case None => default
    }
  }
}
