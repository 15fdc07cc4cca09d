/** The two result shapes every module uses: a value that may be missing, and a
    call that may throw.  A JavaScript `throw` is an `Err`; state the throwing
    call had only changed in a local copy is then discarded by its caller. */
module Outcomes {
  datatype Option<+T> = None | Some(value: T)

  datatype Result<+T, +E> = Ok(value: T) | Err(error: E)
}
