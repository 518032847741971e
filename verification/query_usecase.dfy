/** internal/usecase/query/todo_query_usecase.go: answer from the in-memory
    projection when it holds a view of the list, and otherwise replay the
    list's events from the store exactly as `TodoUseCase.GetTodoList` does. */
module QueryUseCase {
  import opened Wrappers
  import opened Errors
  import opened Uuids
  import opened Events
  import opened Views
  import opened Transaction
  import opened EventStore
  import opened UseCaseSteps
  import InMemProjector
  import TodoUseCase

  /** The output built from a view: its owner fields and item texts; the
      time is left at its zero value. */
  function FromView(v: View): (o: ListOutput)
    ensures o.aggregateId == v.aggregateId && o.userId == v.userId && o.items == v.items && o.updatedAt.None?
  {
    ListOutput(v.aggregateId, v.userId, v.items, None)
  }

  /** `GetTodoList`: the result, or the error. A nil error always comes
      with a result. */
  function GetTodoList(p: InMemProjector.Projector, t: Table, ctx: Context, aggregateId: string, env: Env)
    : (r: (Option<ListOutput>, Option<Error>))
    ensures r.1.None? ==> r.0.Some? && r.0.value.updatedAt.None?
    ensures r.1.Some? ==> r.0.None?
  {
    match InMemProjector.GetList(p, aggregateId)
    case Some(view) => (Some(FromView(view)), None)
    case None => TodoUseCase.GetTodoList(t, ctx, aggregateId, env)
  }

  /** Once the projection holds a view of the list, the store is not read:
      the answer is the same whatever the table and the driver do. */
  lemma ProjectionShadowsStore(p: InMemProjector.Projector, t1: Table, t2: Table, ctx: Context, aggregateId: string,
                               env1: Env, env2: Env)
    requires aggregateId in p.views
    ensures GetTodoList(p, t1, ctx, aggregateId, env1) == GetTodoList(p, t2, ctx, aggregateId, env2)
    ensures GetTodoList(p, t1, ctx, aggregateId, env1) == (Some(FromView(p.views[aggregateId])), None)
  {
  }

  /** A projector that has handled only the first `n` events of a list's
      history answers with the items of those `n` events, however many
      more the store holds: reads are eventually consistent. */
  lemma AnswersFromProjectedPrefix(p: InMemProjector.Projector, t: Table, ctx: Context, env: Env,
                                   id: Uuid, evs: seq<Event>, n: nat)
    requires ListHistory(id, evs) && 1 <= n <= |evs|
    requires forall k :: 0 <= k < |evs| ==> evs[k].eventId !in p.seen
    ensures GetTodoList(InMemProjector.Project(p, evs[..n]), t, ctx, id, env) ==
      (Some(ListOutput(id, evs[0].userId, AddedTexts(evs[..n]), None)), None)
  {
    InMemProjector.ProjectionOfHistory(p, id, evs, n);
  }

  /** With the whole history projected, the projection path and the
      replay path give the same answer: the owner and one item per add
      event, in order. */
  lemma PathsAgree(p: InMemProjector.Projector, t: Table, ctx: Context, env: Env, id: Uuid, evs: seq<Event>)
    requires ListHistory(id, evs) && Rows(t, id) == RowsOf(evs) && Clean(env)
    requires forall k :: 0 <= k < |evs| ==> evs[k].eventId !in p.seen
    ensures var answer := (Some(ListOutput(id, evs[0].userId, AddedTexts(evs), None)), None);
      && GetTodoList(InMemProjector.Project(p, evs), t, ctx, id, env) == answer
      && GetTodoList(InMemProjector.New(), t, ctx, id, env) == answer
  {
    AnswersFromProjectedPrefix(p, t, ctx, env, id, evs, |evs|);
    assert evs[..|evs|] == evs;
    ParseString(id);
    TodoUseCase.ReadReturnsHistory(t, ctx, id, env, id, evs);
  }

  /** A list neither the projection nor the store knows is answered with
      NotFound "todo list not found", and no result. */
  lemma UnknownListNotFound(p: InMemProjector.Projector, t: Table, ctx: Context, aggregateId: string, env: Env, id: Uuid)
    requires aggregateId !in p.views
    requires Parse(aggregateId) == Ok(id) && Rows(t, id) == [] && Clean(env)
    ensures GetTodoList(p, t, ctx, aggregateId, env) == (None, Some(New(NotFound, "todo list not found")))
  {
    TodoUseCase.UnknownListNotFound(t, ctx, aggregateId, env, id);
  }
}
