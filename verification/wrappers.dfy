/** Optional values and results, shared by the other modules. */
module Wrappers {

  /** An optional value: `None` where the program has nothing (a missing
      argument, a detection that yields no sub-box, a rate not yet known). */
  datatype Option<+T> = None | Some(value: T)

  /** Either a value or the reason the program gave up. */
  datatype Result<+R, +E> = Success(value: R) | Failure(error: E)
}
