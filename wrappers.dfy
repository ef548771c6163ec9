/** Option and Result values for the `null` returns and thrown errors of the modelled code. */
module Wrappers {

  /** `None` stands for JavaScript `null`/`undefined` and Python `None`. */
  datatype Option<+T> = None | Some(value: T) {
    function GetOr(default: T): T {
      match this
      case Some(v) => v
      case None => default
    }
  }

  /** `Err` stands for an exception the source throws. */
  datatype Result<+T> = Ok(value: T) | Err(msg: string)
}
