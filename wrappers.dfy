/** Failure-carrying result types shared by the pipeline stages. */
module Wrappers {

  datatype Option<+T> = None | Some(value: T)

  /** Either the value a stage produced or the error it stopped with. */
  datatype Result<+R, +E> = Success(value: R) | Failure(error: E)
}
