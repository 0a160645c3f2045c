/**
 * `CategoriesViewModel`: the category list screen. A cancelled request, however deeply
 * wrapped in network errors, is not an error the screen shows.
 */
module CategoriesViewModel {
  import opened Wrappers
  import opened Errors
  import opened Models

  /** The error a chain of `networkError` wrappers ends in. */
  function Innermost(e: Error): (r: Error)
    ensures !(r.Network? && r.network.NetworkFailure?)
  {
    match e
    case Network(NetworkFailure(cause)) => Innermost(cause)
    case _ => e
  }

  /**
   * `isCancelledError`: a cancelled URL error, directly or inside `NetworkError.networkError`.
   * An error counts as cancelled exactly when the error its wrappers end in is `URLError(.cancelled)`.
   */
  function IsCancelledError(e: Error): (r: bool)
    ensures r <==> Innermost(e) == URLError(Cancelled)
  {
    match e
    case URLError(code) => code == Cancelled
    case Network(NetworkFailure(cause)) => IsCancelledError(cause)
    case _ => false
  }

  /** The service query `loadCategories` issues. */
  datatype Query = ByIncome(isIncome: bool) | AllCategories

  /** A given direction asks for `isIncome == (direction == .income)`; none asks for every category. */
  function QueryFor(direction: Option<Direction>): (r: Query)
    ensures direction.None? <==> r == AllCategories
    ensures direction.Some? ==> r == ByIncome(direction.value == Income)
  {
    match direction
    case Some(d) => ByIncome(d == Income)
    case None => AllCategories
  }

  class CategoriesViewModel {
    var categories: seq<Category>
    var isLoading: bool
    var error: Option<Error>

    constructor ()
      ensures categories == [] && !isLoading && error == None
    {
      categories := [];
      isLoading := false;
      error := None;
    }

    /**
     * `loadCategories(for:)`: the error is cleared first and `isLoading` is false again on
     * every exit. A success replaces the categories; a failure keeps them and shows its error
     * unless it is a cancellation or `Task.isCancelled` holds. `fetched` is the answer to the
     * returned query.
     */
    method LoadCategories(direction: Option<Direction>, fetched: Result<seq<Category>, Error>, taskCancelled: bool)
      returns (query: Query)
      modifies this
      ensures query == QueryFor(direction)
      ensures !isLoading
      ensures fetched.Success? ==> categories == fetched.value && error == None
      ensures fetched.Failure? ==> categories == old(categories)
      ensures fetched.Failure? && (IsCancelledError(fetched.error) || taskCancelled) ==> error == None
      ensures fetched.Failure? && !IsCancelledError(fetched.error) && !taskCancelled ==> error == Some(fetched.error)
    {
      isLoading := true;
      error := None;
      query := QueryFor(direction);
      match fetched {
        case Success(cs) =>
          categories := cs;
        case Failure(e) =>
          if !(IsCancelledError(e) || taskCancelled) {
            error := Some(e);
          }
      }
      isLoading := false;
    }
  }
}
