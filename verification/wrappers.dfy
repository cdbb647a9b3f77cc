/** Option and Result values standing in for TypeScript's `null` and for
    thrown errors (whose `message` is all the application ever reads). */
module Wrappers {

  datatype Option<+T> = None | Some(value: T) {
    function GetOr(default: T): T {
      match this
      case Some(v) => v
      case None => default
    }
  }

  datatype Result<+T> = Ok(value: T) | Err(message: string)
}
