/** internal/usecase/todo.go: the older use case, which runs the same steps
    as the commands but publishes nothing, returns its results directly
    instead of presenting them, and signals an empty history with its own
    message. Each Go result is a (pointer, error) pair: `None` is nil. */
module TodoUseCase {
  import opened Wrappers
  import opened Errors
  import opened Uuids
  import opened Events
  import opened Values
  import opened Transaction
  import opened EventStore
  import opened UseCaseSteps
  import Retry
  import AddItemCommand

  /** This use case registers no hooks; running one would change nothing. */
  function NoHooks(w: (), h: Hook): Step<()> {
    Step(w, None)
  }

  /** The create body: on success nothing is registered. */
  function CreateBody(t: Table, scope: Scope<Hook>, userId: string, env: Env): (b: BodyResult<Table, Hook>)
    ensures b.scope == scope
    ensures CreateSteps(scope.ctx, t, userId, env).Err? ==>
      b == BodyResult(t, scope, Some(CreateSteps(scope.ctx, t, userId, env).error))
    ensures CreateSteps(scope.ctx, t, userId, env).Ok? ==>
      b == BodyResult(CreateSteps(scope.ctx, t, userId, env).value.table, scope, None)
  {
    match CreateSteps(scope.ctx, t, userId, env)
    case Err(e) => BodyResult(t, scope, Some(e))
    case Ok(d) => BodyResult(d.table, scope, None)
  }

  /** `CreateTodoList`: the table after the call, the new list's ID, and the
      error. */
  function CreateTodoList(t: Table, ctx: Context, userId: string, env: Env): (r: (Table, Option<string>, Option<Error>))
    ensures r.2.None? ==> r.1 == Some(env.gen.aggregateId)
    ensures r.2.Some? ==> r.0 == t && r.1.None?
    ensures NewUserId(userId).err.Some? && env.beginErr.None? ==> r == (t, None, Some(NewUserId(userId).err.value))
  {
    var tx := RunTx(t, (), ctx, [], env.tx, env.beginErr,
                    (db: Table, sc: Scope<Hook>) => CreateBody(db, sc, userId, env), env.commitErr, NoHooks);
    var steps := CreateSteps(WithTx(ctx, env.tx), t, userId, env);
    var result := if env.beginErr.None? && steps.Ok? then Some(steps.value.list.aggregateId) else None;
    CommitIsDurable(t, (), ctx, [], env.tx, env.beginErr,
                    (db: Table, sc: Scope<Hook>) => CreateBody(db, sc, userId, env), env.commitErr, NoHooks);
    if tx.err.Some? then (tx.db, None, tx.err) else (tx.db, result, None)
  }

  /** Creating with a valid user ID, a fresh aggregate ID and no driver
      failure stores the creation event as the list's whole history and
      returns the new ID. */
  lemma CreateStoresList(t: Table, ctx: Context, userId: string, env: Env)
    requires NewUserId(userId).err.None? && Rows(t, env.gen.aggregateId) == [] && Clean(env)
    ensures var r := CreateTodoList(t, ctx, userId, env);
      var e := TodoListCreated(env.gen.aggregateId, NewUserId(userId).value, env.gen.eventId, env.gen.now, 1);
      && r.1 == Some(env.gen.aggregateId) && r.2.None?
      && LoadEvents(WithTx(ctx, env.tx), Deserializer.NewRegistry(), r.0, env.gen.aggregateId, NoReadFaults()) == Ok([e])
  {
    CreateStoresHistory(WithTx(ctx, env.tx), t, userId, env);
  }

  /** The error for an empty history in this use case. */
  const EmptyError: Error := Message("todo list not found")

  /** The add body: on success nothing is registered. */
  function AddBody(t: Table, scope: Scope<Hook>, input: AddInput, env: Env): (b: BodyResult<Table, Hook>)
    ensures b.scope == scope
    ensures AddSteps(scope.ctx, t, input, env, EmptyError).Err? ==>
      b == BodyResult(t, scope, Some(AddSteps(scope.ctx, t, input, env, EmptyError).error))
    ensures AddSteps(scope.ctx, t, input, env, EmptyError).Ok? ==>
      b == BodyResult(AddSteps(scope.ctx, t, input, env, EmptyError).value.table, scope, None)
  {
    match AddSteps(scope.ctx, t, input, env, EmptyError)
    case Err(e) => BodyResult(t, scope, Some(e))
    case Ok(d) => BodyResult(d.table, scope, None)
  }

  /** One attempt of the loop: one `RWTx` call. */
  function AddAttempt(t: Table, k: nat, ctx: Context, input: AddInput, envs: nat -> Env): Step<Table>
  {
    var env := envs(k);
    var tx := RunTx(t, (), ctx, [], env.tx, env.beginErr,
                    (db: Table, sc: Scope<Hook>) => AddBody(db, sc, input, env), env.commitErr, NoHooks);
    Step(tx.db, tx.err)
  }

  /** `addTodoWithRetry` with a given classifier. With no attempt at all
      (`maxRetries` <= 0) the table is untouched and the final error wraps a
      nil error; whenever the loop ends in an error, no attempt committed
      and the table is as it was. */
  function AddTodoWithRetry(t: Table, ctx: Context, input: AddInput, envs: nat -> Env, maxRetries: int,
                            retryable: Error -> bool): (r: (Table, Option<Error>))
    ensures maxRetries <= 0 ==> r == (t, Some(Retry.NoAttemptError(maxRetries)))
    ensures r.1.Some? ==> r.0 == t
    ensures r.1.None? ==> maxRetries > 0
  {
    var run := (x: Table, k: nat) => AddAttempt(x, k, ctx, input, envs);
    AddAttemptFailureKeeps(ctx, input, envs);
    Retry.FailureKeeps(t, maxRetries, run, retryable, (x: Table) => x);
    var o := Retry.Retry(t, maxRetries, run, retryable);
    (o.state, o.err)
  }

  /** A failed attempt never committed: no hook can fail here, so every
      failure leaves the table it started from. */
  lemma AddAttemptFailureKeeps(ctx: Context, input: AddInput, envs: nat -> Env)
    ensures forall x: Table, k: nat :: AddAttempt(x, k, ctx, input, envs).failure.Some? ==>
      AddAttempt(x, k, ctx, input, envs).state == x
  {
    forall x: Table, k: nat
      ensures AddAttempt(x, k, ctx, input, envs).failure.Some? ==> AddAttempt(x, k, ctx, input, envs).state == x
    {
      var env := envs(k);
      CommitIsDurable(x, (), ctx, [], env.tx, env.beginErr,
                      (db: Table, sc: Scope<Hook>) => AddBody(db, sc, input, env), env.commitErr, NoHooks);
    }
  }

  /** `AddTodo` as written: three attempts, retrying only errors whose text
      contains "optimistic lock error". A failed add leaves the table as it
      was. */
  function AddTodoAsWritten(t: Table, ctx: Context, input: AddInput, envs: nat -> Env): (r: (Table, Option<Error>))
    ensures r.1.Some? ==> r.0 == t
  {
    AddTodoWithRetry(t, ctx, input, envs, 3, Retry.IsOptimisticLockError)
  }

  /** `AddTodo` with conflicts recognised by their error code. A failed add
      leaves the table as it was. */
  function AddTodo(t: Table, ctx: Context, input: AddInput, envs: nat -> Env): (r: (Table, Option<Error>))
    ensures r.1.Some? ==> r.0 == t
  {
    AddTodoWithRetry(t, ctx, input, envs, 3, Retry.IsConflict)
  }

  /** With no attempt the final error names the count and a nil cause. */
  lemma NoAttemptMessage(t: Table, ctx: Context, input: AddInput, envs: nat -> Env, retryable: Error -> bool)
    ensures AddTodoWithRetry(t, ctx, input, envs, 0, retryable) == (t, Some(Message("failed after " + "0" + " retries: %!w(<nil>)")))
  {
    assert Strings.Decimal(0) == "0";
  }

  /** An attempt that does not commit leaves the table as it was and
      returns the error that stopped it. */
  lemma AddAttemptRollsBack(t: Table, k: nat, ctx: Context, input: AddInput, envs: nat -> Env)
    requires var env := envs(k);
      env.beginErr.Some? || env.commitErr.Some? || AddBody(t, Scope(WithTx(ctx, env.tx), []), input, env).err.Some?
    ensures var env := envs(k);
      var b := AddBody(t, Scope(WithTx(ctx, env.tx), []), input, env);
      var r := AddAttempt(t, k, ctx, input, envs);
      && r.state == t
      && (env.beginErr.Some? ==> r.failure == env.beginErr)
      && (env.beginErr.None? && b.err.Some? ==> r.failure == b.err)
      && (env.beginErr.None? && b.err.None? ==> r.failure == env.commitErr)
  {
    var env := envs(k);
    CommitIsDurable(t, (), ctx, [], env.tx, env.beginErr,
                    (db: Table, sc: Scope<Hook>) => AddBody(db, sc, input, env), env.commitErr, NoHooks);
  }

  /** An attempt that commits keeps the body's writes and succeeds. */
  lemma AddAttemptCommits(t: Table, k: nat, ctx: Context, input: AddInput, envs: nat -> Env, d: Done)
    requires envs(k).beginErr.None? && envs(k).commitErr.None?
    requires AddSteps(WithTx(ctx, envs(k).tx), t, input, envs(k), EmptyError) == Ok(d)
    ensures AddAttempt(t, k, ctx, input, envs) == Step(d.table, None)
  {
    var env := envs(k);
    CommitIsDurable(t, (), ctx, [], env.tx, env.beginErr,
                    (db: Table, sc: Scope<Hook>) => AddBody(db, sc, input, env), env.commitErr, NoHooks);
  }

  /** Each attempt of this use case stores exactly what the same attempt of
      the add-item command stores and fails with the same error, as long as
      publishing succeeds: the two differ only in the unreachable
      empty-history error and in publishing. */
  lemma AttemptsAgree<W>(t: Table, w: W, last: Output, k: nat, ctx: Context, input: AddInput, envs: nat -> Env,
                         publish: (W, Hook) -> Step<W>)
    requires forall v: W, h: Hook :: publish(v, h).failure.None?
    ensures var mine := AddAttempt(t, k, ctx, input, envs);
      var cmd := AddItemCommand.Attempt(AddItemCommand.Sys(t, w, last), k, ctx, input, envs, publish);
      mine.state == cmd.state.table && mine.failure == cmd.failure
  {
    var env := envs(k);
    var c := WithTx(ctx, env.tx);
    SameSteps(c, t, input, env);
    var steps := AddSteps(c, t, input, env, EmptyError);
    var s := AddItemCommand.Sys(t, w, last);
    if env.beginErr.Some? || env.commitErr.Some? || steps.Err? {
      AddAttemptRollsBack(t, k, ctx, input, envs);
      AddItemCommand.AttemptRollsBack(s, k, ctx, input, envs, publish);
    } else {
      AddAttemptCommits(t, k, ctx, input, envs, steps.value);
      AddItemCommand.AttemptCommits(s, k, ctx, input, envs, publish, steps.value);
    }
  }

  /** The two empty-history errors never surface, so the steps agree. */
  lemma SameSteps(ctx: Context, t: Table, input: AddInput, env: Env)
    ensures AddSteps(ctx, t, input, env, EmptyError) == AddSteps(ctx, t, input, env, AddItemCommand.EmptyError(input))
  {
    EmptyHistoryUnreachable(ctx, t, input.aggregateId, env.read, EmptyError, AddItemCommand.EmptyError(input));
  }

  /** The read body: it writes nothing. */
  function ReadBody(t: Table, scope: Scope<Hook>, aggregateId: string, env: Env): (b: BodyResult<Table, Hook>)
    ensures b.db == t && b.scope == scope
    ensures b.err.None? <==> ReadSteps(scope.ctx, t, aggregateId, env.read).Ok?
    ensures b.err.Some? ==> b.err == Some(ReadSteps(scope.ctx, t, aggregateId, env.read).error)
  {
    match ReadSteps(scope.ctx, t, aggregateId, env.read)
    case Err(e) => BodyResult(t, scope, Some(e))
    case Ok(_) => BodyResult(t, scope, None)
  }

  /** `GetTodoList`: the replayed list, or the error. It never changes the
      table. */
  function GetTodoList(t: Table, ctx: Context, aggregateId: string, env: Env): (r: (Option<ListOutput>, Option<Error>))
    ensures r.1.None? ==> r.0.Some? && r.0.value.updatedAt.None?
    ensures r.1.Some? ==> r.0.None?
  {
    var tx := RunTx(t, (), ctx, [], env.tx, env.beginErr,
                    (db: Table, sc: Scope<Hook>) => ReadBody(db, sc, aggregateId, env), env.commitErr, NoHooks);
    var steps := ReadSteps(WithTx(ctx, env.tx), t, aggregateId, env.read);
    var result := if env.beginErr.None? && steps.Ok? then Some(steps.value) else None;
    if tx.err.Some? then (None, tx.err) else (result, None)
  }

  /** Reading a stored list with no driver failure returns its owner and
      one item per add event, in order. */
  lemma ReadReturnsHistory(t: Table, ctx: Context, aggregateId: string, env: Env, id: Uuid, evs: seq<Event>)
    requires Parse(aggregateId) == Ok(id) && ListHistory(id, evs) && Rows(t, id) == RowsOf(evs) && Clean(env)
    ensures GetTodoList(t, ctx, aggregateId, env) == (Some(ListOutput(id, evs[0].userId, AddedTexts(evs), None)), None)
  {
    ReadListHistory(WithTx(ctx, env.tx), t, aggregateId, id, evs);
  }

  /** A well-formed ID the store holds no events for is answered with
      NotFound "todo list not found", and no result. */
  lemma UnknownListNotFound(t: Table, ctx: Context, aggregateId: string, env: Env, id: Uuid)
    requires Parse(aggregateId) == Ok(id) && Rows(t, id) == [] && Clean(env)
    ensures GetTodoList(t, ctx, aggregateId, env) == (None, Some(New(NotFound, "todo list not found")))
  {
  }
}
