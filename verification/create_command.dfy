/** internal/usecase/command/todo_list_create_command.go: create a list in
    one transaction and publish its creation event after the commit. There
    is no retry. */
module CreateCommand {
  import opened Wrappers
  import opened Errors
  import opened Uuids
  import opened Events
  import opened Values
  import opened Transaction
  import opened EventStore
  import opened UseCaseSteps

  /** The event table, the rest of the system, and what was presented. */
  datatype Outcome<W> = Outcome(table: Table, world: W, presented: Presented)

  /** The function `RWTx` runs. */
  function Body(t: Table, scope: Scope<Hook>, userId: string, env: Env): (b: BodyResult<Table, Hook>)
    ensures b.scope.ctx == scope.ctx
    ensures CreateSteps(scope.ctx, t, userId, env).Err? ==>
      b == BodyResult(t, scope, Some(CreateSteps(scope.ctx, t, userId, env).error))
    ensures CreateSteps(scope.ctx, t, userId, env).Ok? ==>
      var d := CreateSteps(scope.ctx, t, userId, env).value;
      b == BodyResult(d.table, AfterCommit(scope, PublishEvents(d.list.uncommitted)), None)
  {
    match CreateSteps(scope.ctx, t, userId, env)
    case Err(e) => BodyResult(t, scope, Some(e))
    case Ok(d) => BodyResult(d.table, AfterCommit(scope, PublishEvents(d.list.uncommitted)), None)
  }

  /** The outputs the body sets: blank unless its save succeeded. */
  function Outputs(ctx: Context, t: Table, userId: string, env: Env): (o: Output)
    ensures CreateSteps(ctx, t, userId, env).Err? ==> o == Blank
    ensures CreateSteps(ctx, t, userId, env).Ok? ==> o == OutputOf(CreateSteps(ctx, t, userId, env).value)
  {
    match CreateSteps(ctx, t, userId, env)
    case Err(_) => Blank
    case Ok(d) => OutputOf(d)
  }

  /** `Execute`. A transaction that cannot begin presents its error and
      changes nothing; a success presents the new list's ID, version 1 and
      its creation event; with a bus that accepts the publication, a
      failure stored and published nothing. */
  function Execute<W>(t: Table, w: W, ctx: Context, userId: string, env: Env,
                      publish: (W, Hook) -> Step<W>): (r: Outcome<W>)
    ensures env.beginErr.Some? ==> r == Outcome(t, w, Failure(env.beginErr.value))
    ensures r.presented.Success? ==>
      r.presented.out == Output(env.gen.aggregateId, 1,
                                [TodoListCreated(env.gen.aggregateId, NewUserId(userId).value, env.gen.eventId, env.gen.now, 1)])
    ensures r.presented.Failure? && (forall h: Hook :: publish(w, h).failure.None?) ==> r.table == t && r.world == w
  {
    var body := (db: Table, sc: Scope<Hook>) => Body(db, sc, userId, env);
    var tx := RunTx(t, w, ctx, [], env.tx, env.beginErr, body, env.commitErr, publish);
    var steps := CreateSteps(WithTx(ctx, env.tx), t, userId, env);
    var out := if env.beginErr.None? then Outputs(WithTx(ctx, env.tx), t, userId, env) else Blank;
    CommitIsDurable(t, w, ctx, [], env.tx, env.beginErr, body, env.commitErr, publish);
    RunOneHook(w, PublishEvents(if steps.Ok? then steps.value.list.uncommitted else []), publish);
    Outcome(tx.db, tx.world, if tx.err.None? then Success(out) else Failure(tx.err.value))
  }

  /** Without a commit nothing is stored or published and the error that
      stopped the transaction is presented. */
  lemma RollsBack<W>(t: Table, w: W, ctx: Context, userId: string, env: Env, publish: (W, Hook) -> Step<W>)
    requires env.beginErr.Some? || env.commitErr.Some? || Body(t, Scope(WithTx(ctx, env.tx), []), userId, env).err.Some?
    ensures var r := Execute(t, w, ctx, userId, env, publish);
      r.table == t && r.world == w && r.presented.Failure?
    ensures env.beginErr.Some? ==> Execute(t, w, ctx, userId, env, publish).presented == Failure(env.beginErr.value)
    ensures var b := Body(t, Scope(WithTx(ctx, env.tx), []), userId, env);
      env.beginErr.None? && b.err.Some? ==> Execute(t, w, ctx, userId, env, publish).presented == Failure(b.err.value)
  {
    CommitIsDurable(t, w, ctx, [], env.tx, env.beginErr,
                    (db: Table, sc: Scope<Hook>) => Body(db, sc, userId, env), env.commitErr, publish);
  }

  /** A body whose steps succeed and which commits: the steps' table is
      kept, the creation event is published once, and the presenter gets
      the body's outputs unless publishing failed. */
  lemma Commits<W>(t: Table, w: W, ctx: Context, userId: string, env: Env,
                   publish: (W, Hook) -> Step<W>, d: Done)
    requires env.beginErr.None? && env.commitErr.None?
    requires CreateSteps(WithTx(ctx, env.tx), t, userId, env) == Ok(d)
    ensures var p := publish(w, PublishEvents(d.list.uncommitted));
      Execute(t, w, ctx, userId, env, publish) ==
        Outcome(d.table, p.state, if p.failure.None? then Success(OutputOf(d)) else Failure(p.failure.value))
  {
    var body := (db: Table, sc: Scope<Hook>) => Body(db, sc, userId, env);
    var b := Body(t, Scope(WithTx(ctx, env.tx), []), userId, env);
    assert b.db == d.table && b.err.None? && b.scope.hooks == [PublishEvents(d.list.uncommitted)];
    assert b.scope.hooks[1..] == [];
    CommitIsDurable(t, w, ctx, [], env.tx, env.beginErr, body, env.commitErr, publish);
  }

  /** Creating a list with a valid user ID, a fresh aggregate ID, no driver
      failure and a bus that accepts the event: the creation event is the
      list's whole stored history, it is published once, and the presenter
      gets the new ID, version 1 and that event. */
  lemma ExecuteCreatesList<W>(t: Table, w: W, ctx: Context, userId: string, env: Env,
                              publish: (W, Hook) -> Step<W>)
    requires NewUserId(userId).err.None? && Rows(t, env.gen.aggregateId) == [] && Clean(env)
    requires forall v: W, h: Hook :: publish(v, h).failure.None?
    ensures var r := Execute(t, w, ctx, userId, env, publish);
      var e := TodoListCreated(env.gen.aggregateId, NewUserId(userId).value, env.gen.eventId, env.gen.now, 1);
      && r.presented == Success(Output(env.gen.aggregateId, 1, [e]))
      && r.world == publish(w, PublishEvents([e])).state
      && ListHistory(env.gen.aggregateId, [e])
      && LoadEvents(WithTx(ctx, env.tx), Deserializer.NewRegistry(), r.table, env.gen.aggregateId, NoReadFaults()) == Ok([e])
  {
    var c := WithTx(ctx, env.tx);
    CreateStoresHistory(c, t, userId, env);
    Commits(t, w, ctx, userId, env, publish, CreateSteps(c, t, userId, env).value);
  }

  /** An invalid user ID is presented as the validation error; nothing is
      stored or published. */
  lemma InvalidUserRefused<W>(t: Table, w: W, ctx: Context, userId: string, env: Env,
                              publish: (W, Hook) -> Step<W>)
    requires NewUserId(userId).err.Some? && env.beginErr.None?
    ensures Execute(t, w, ctx, userId, env, publish) == Outcome(t, w, Failure(NewUserId(userId).err.value))
  {
    RollsBack(t, w, ctx, userId, env, publish);
  }
}
