module Options {
  /** A value that may be absent: a NULL pointer or an error return in the source. */
  datatype Option<T> = None | Some(value: T) {
    function GetOr(default: T): T {
      if None? then default else value
    }
  }
}
