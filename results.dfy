/** Failure-carrying results for the operations that raise in the checklist generator. */
module Results {

  datatype Option<T> = None | Some(value: T) {
    function GetOr(default: T): T {
      match this
      case Some(v) => v
      case None => default
    }
  }

  /** The exceptions the modelled code can raise. */
  datatype Error =
    | ZeroDivision                 // `//` by a zero column width
    | EmptyMax                     // `max()` of an empty generator
    | InvalidFontKey(key: string)  // find_max_width with an unknown key
    | NotNumeric(name: string)     // `float(name)` on a non-numeric category name

  datatype Result<T> = Ok(value: T) | Err(error: Error)
}
