/** Failure-carrying values shared by every module of the project. */
module Wrappers {
  datatype Option<T> = None | Some(value: T) {
    function GetOr(default: T): T {
      if Some? then value else default
    }

    /** This value if present, otherwise `other`: SQL's COALESCE, TypeScript's `??`. */
    function OrElse(other: Option<T>): Option<T> {
      if Some? then this else other
    }
  }

  datatype Result<T, E> = Success(value: T) | Failure(error: E)
}
