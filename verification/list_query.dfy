/** internal/usecase/query/todo_list_query.go: answer only from a view
    store, with no fallback to the events. The store's lookup is the
    parameter `get`. */
module ListQuery {
  import opened Wrappers
  import opened Errors
  import opened Views
  import opened UseCaseSteps
  import QueryUseCase
  import ViewRepository

  const ErrNotFound: Error := Message("todo list not found")

  /** `Query`: the result, or the error. */
  function Query(get: string -> Option<View>, aggregateId: string): (r: (Option<ListOutput>, Option<Error>))
    ensures get(aggregateId).None? <==> r.1.Some?
    ensures r.1.Some? ==> r == (None, Some(ErrNotFound))
    ensures r.1.None? ==> r.0.Some? && r.0.value.items == get(aggregateId).value.items
  {
    match get(aggregateId)
    case None => (None, Some(ErrNotFound))
    case Some(view) => (Some(QueryUseCase.FromView(view)), None)
  }

  /** Over the in-memory view repository: a view saved under an ID is what
      the query answers for it, and a deleted or nil-saved one is not
      found. */
  lemma QueryOverRepository(repo: ViewRepository.Repository, id: string, v: View)
    ensures Query(k => ViewRepository.Get(ViewRepository.Save(repo, id, Some(v)).0, k), id) ==
      (Some(ListOutput(v.aggregateId, v.userId, v.items, None)), None)
    ensures Query(k => ViewRepository.Get(ViewRepository.Delete(repo, id).0, k), id) == (None, Some(ErrNotFound))
    ensures Query(k => ViewRepository.Get(ViewRepository.Save(repo, id, None).0, k), id) == (None, Some(ErrNotFound))
  {
    ViewRepository.SaveThenGet(repo, id, Some(v), id);
    ViewRepository.SaveThenGet(repo, id, None, id);
    ViewRepository.DeleteThenGet(repo, id, id);
  }
}
