/** Shared result types for the documentation-site search model. */
module Common {

  /** A value that may be absent: JavaScript's `null`/`undefined` for a field. */
  datatype Option<+T> = None | Some(value: T)

  /** An operation that either completes or raises one of the errors below. */
  datatype Result<+R> = Success(value: R) | Failure(error: Error)

  /** The runtime errors the search code can raise. */
  datatype Error =
    | UnknownPage(id: string)   // `pages[id]` is undefined, so `page.version` throws
    | NullQuery                 // `$scope.q` is null or undefined, so `q.length` throws
    | NullResults               // `$scope.results` is null, so indexing it throws
    | NoPendingQuery            // a worker reply arrives before any `results` deferred exists
}
