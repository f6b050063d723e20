/** Optional values and results with an error, used wherever the scraper reads
    something that may be missing or may fault. */
module Wrappers {

  /** A value that may be absent (`null` / `undefined` in the scraper). */
  datatype Option<+T> = None | Some(value: T)

  /** The outcome of an operation that may fault with an error of type `E`. */
  datatype Result<+R, +E> = Success(value: R) | Failure(error: E)
}
