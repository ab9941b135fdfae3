/** The option and result shapes shared by every module of the model. */
module Options {

  datatype Option<+T> = None | Some(value: T) {
    function GetOr(default: T): T {
      match this
      case Some(v) => v
      case None => default
    }
  }

  /** A transaction that either produces a value or fails (and is then rolled back). */
  datatype Result<+T> = Ok(value: T) | Failed
}
