/** Values shared by the modules of the challenge generator model. */
module Common {

  /** Python's `Optional[str]`: `None` or a string. */
  datatype Option<+T> = None | Some(value: T)

  /** The outcome of an operation that may raise. */
  datatype Result<+T, +E> = Success(value: T) | Failure(error: E)

  /** The exceptions `create` can raise outside of file-system I/O. */
  datatype Error =
    | CouldNotGetData        // `Exception('Could not get data from "..."')`
    | NoneHasNoSplit         // `AttributeError`: `None.split(' ')`
}
