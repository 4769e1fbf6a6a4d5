/** Option and Result, the two wrappers every stage of the pipeline uses for
    nullable cells (pandas NaN/NaT/None) and for operations that raise. */
module Common {

  /** A nullable cell: `None` is pandas' NaN, NaT or Python's None. */
  datatype Option<+T> = None | Some(value: T) {
    function GetOr(default: T): T {
      match this
      case Some(v) => v
      case None => default
    }
  }

  /** The outcome of an operation that may raise. */
  datatype Result<+T, +E> = Ok(value: T) | Err(error: E)

  /** `fillna('')` on a text cell. */
  function OrEmpty(s: Option<string>): string {
    s.GetOr("")
  }
}
