/** Failure-carrying values shared by the modules of this model: Python's
    raised exceptions become the Failure side of a Result. */
module Results {

  datatype Option<+T> = None | Some(value: T)

  datatype Result<+T, +E> = Success(value: T) | Failure(error: E)
}
