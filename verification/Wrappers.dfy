/** The two result shapes used throughout: an absent value, and an operation that
    either answers or raises the service's error. */
module Wrappers {
  datatype Option<+T> = None | Some(value: T) {
    function GetOr(default: T): T {
      if Some? then value else default
    }
  }

  datatype Result<+R, +E> = Ok(value: R) | Err(error: E)
}
