/** The optional value used wherever the assistant's routines return `None`
    or a value: a transcript that may be missing, a temp-file path that may
    not have been recorded yet. */
module Options {

  datatype Option<+T> = None | Some(value: T) {

    /** Returns the value held in Some, or `default` for None. */
    function GetOr(default: T): T
    {
      match this
      case Some(v) => v
      case None => default
    }
  }
}
