/** Optional values and success-or-error results, used for Python's
    `Optional[...]` fields and for operations that can be refused. */
module Wrappers {

  /** `None` stands for Python's `None` / a SQL NULL. */
  datatype Option<T> = None | Some(value: T)

  datatype Result<T, E> = Success(value: T) | Failure(error: E)
}
