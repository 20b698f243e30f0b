/** Optional values and success-or-failure results used throughout the model.
    `None` stands for JavaScript's `undefined`; `Failure` for a thrown error. */
module Outcomes {

  datatype Option<T> = None | Some(value: T) {
    function GetOr(default: T): T {
      match this
      case Some(v) => v
      case None => default
    }
  }

  datatype Result<T> = Success(value: T) | Failure(message: string)
}
