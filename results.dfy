/** Optional values and results with an error, used throughout the pipeline. */
module Results {

  datatype Option<+T> = None | Some(value: T)

  datatype Result<+T, +E> = Success(value: T) | Failure(error: E)
}
