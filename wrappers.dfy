/** Failure-carrying results shared by every layer of the model.

    The source signals failures with exceptions: `json::ParsingError` for
    malformed documents, `std::logic_error("wrong type")` from the typed
    accessors of `json::Node`, `std::out_of_range` from `std::map::at` and
    `std::vector::at`. It also dereferences a null pointer when a route
    names an unknown stop or the map names an unknown bus, indexes an empty
    colour palette when the map is drawn, and steps before the start of an
    empty stop list when a bus without stops is added. Each becomes an
    `Error` value here. */
module Wrappers {

  datatype Option<T> = None | Some(value: T)

  datatype Error =
    | ParsingError(message: string)
    | WrongType
    | OutOfRange(key: string)
    | NullDereference(name: string)
    | EmptyAccess(container: string)

  datatype Result<T> = Success(value: T) | Failure(error: Error) {

    predicate IsFailure() {
      Failure?
    }

    function PropagateFailure<U>(): Result<U>
      requires Failure?
    {
      Failure(error)
    }

    function Extract(): T
      requires Success?
    {
      value
    }
  }
}
