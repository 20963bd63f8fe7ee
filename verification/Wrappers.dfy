/** The error values and result shapes shared by every operation of the store. */
module Wrappers {

  datatype Option<+T> = None | Some(value: T)

  /** models.ErrNotFound, models.ErrConflict, and every other error the database driver returns. */
  datatype Error = NotFound | Conflict | Internal

  datatype Result<+T> = Ok(value: T) | Err(error: Error)

  /** How a call that changes the store ended. */
  datatype Status = Done | Failed(error: Error)
}
