/** internal/usecase/command/todo_add_item_command.go: add an item to a
    list inside a transaction, publish the new event after the commit, and
    retry the whole transaction on an optimistic-lock conflict, three
    attempts at most.

    `publish` is what publishing events on the bus does to the rest of the
    system (a value of type `W`); `envs(k)` is what attempt `k` draws from
    outside. */
module AddItemCommand {
  import opened Wrappers
  import opened Errors
  import opened Uuids
  import opened Events
  import opened Values
  import opened Transaction
  import opened EventStore
  import opened UseCaseSteps
  import Retry
  import A = TodoListAggregate

  const MaxRetries: int := 3

  /** The system between attempts: the event table, the rest of the
      system, and the outputs the last attempt's body set. */
  datatype Sys<W> = Sys(table: Table, world: W, last: Output)

  /** The error for an empty history: dead, see `EmptyHistoryUnreachable`. */
  function EmptyError(input: AddInput): Error {
    NotFoundError("todo list", input.aggregateId)
  }

  /** The function `RWTx` runs: on success, register the publication of
      the new events and return nil. */
  function Body(t: Table, scope: Scope<Hook>, input: AddInput, env: Env): (b: BodyResult<Table, Hook>)
    ensures b.scope.ctx == scope.ctx
    ensures AddSteps(scope.ctx, t, input, env, EmptyError(input)).Err? ==>
      b == BodyResult(t, scope, Some(AddSteps(scope.ctx, t, input, env, EmptyError(input)).error))
    ensures AddSteps(scope.ctx, t, input, env, EmptyError(input)).Ok? ==>
      var d := AddSteps(scope.ctx, t, input, env, EmptyError(input)).value;
      b == BodyResult(d.table, AfterCommit(scope, PublishEvents(d.list.uncommitted)), None)
  {
    match AddSteps(scope.ctx, t, input, env, EmptyError(input))
    case Err(e) => BodyResult(t, scope, Some(e))
    case Ok(d) => BodyResult(d.table, AfterCommit(scope, PublishEvents(d.list.uncommitted)), None)
  }

  /** The outputs the body of one attempt sets: the blank output unless
      its save succeeded. */
  function Outputs(ctx: Context, t: Table, input: AddInput, env: Env): (o: Output)
    ensures AddSteps(ctx, t, input, env, EmptyError(input)).Err? ==> o == Blank
    ensures AddSteps(ctx, t, input, env, EmptyError(input)).Ok? ==>
      o == OutputOf(AddSteps(ctx, t, input, env, EmptyError(input)).value)
  {
    match AddSteps(ctx, t, input, env, EmptyError(input))
    case Err(_) => Blank
    case Ok(d) => OutputOf(d)
  }

  /** One attempt: one `RWTx` call. */
  function Attempt<W>(s: Sys<W>, k: nat, ctx: Context, input: AddInput, envs: nat -> Env,
                      publish: (W, Hook) -> Step<W>): Step<Sys<W>>
  {
    var env := envs(k);
    var tx := RunTx(s.table, s.world, ctx, [], env.tx, env.beginErr,
                    (db: Table, sc: Scope<Hook>) => Body(db, sc, input, env), env.commitErr, publish);
    var last := if env.beginErr.None? then Outputs(WithTx(ctx, env.tx), s.table, input, env) else Blank;
    Step(Sys(tx.db, tx.world, last), tx.err)
  }

  /** An attempt that does not commit leaves the table and the rest of the
      system as they were and fails. */
  lemma AttemptRollsBack<W>(s: Sys<W>, k: nat, ctx: Context, input: AddInput, envs: nat -> Env,
                            publish: (W, Hook) -> Step<W>)
    requires var env := envs(k);
      env.beginErr.Some? || env.commitErr.Some? || Body(s.table, Scope(WithTx(ctx, env.tx), []), input, env).err.Some?
    ensures var r := Attempt(s, k, ctx, input, envs, publish);
      r.state.table == s.table && r.state.world == s.world && r.failure.Some?
    ensures var env := envs(k);
      var b := Body(s.table, Scope(WithTx(ctx, env.tx), []), input, env);
      var r := Attempt(s, k, ctx, input, envs, publish);
      && (env.beginErr.Some? ==> r.failure == env.beginErr)
      && (env.beginErr.None? && b.err.Some? ==> r.failure == b.err)
      && (env.beginErr.None? && b.err.None? ==> r.failure == env.commitErr)
  {
    var env := envs(k);
    CommitIsDurable(s.table, s.world, ctx, [], env.tx, env.beginErr,
                    (db: Table, sc: Scope<Hook>) => Body(db, sc, input, env), env.commitErr, publish);
  }

  /** An attempt that commits keeps the body's writes whatever the hooks
      then do, and its hooks see the system as it was. */
  lemma AttemptKeepsWrites<W>(s: Sys<W>, k: nat, ctx: Context, input: AddInput, envs: nat -> Env,
                              publish: (W, Hook) -> Step<W>)
    requires var env := envs(k);
      env.beginErr.None? && env.commitErr.None? && Body(s.table, Scope(WithTx(ctx, env.tx), []), input, env).err.None?
    ensures var env := envs(k);
      var b := Body(s.table, Scope(WithTx(ctx, env.tx), []), input, env);
      var r := Attempt(s, k, ctx, input, envs, publish);
      r.state.table == b.db && Step(r.state.world, r.failure) == RunHooks(s.world, b.scope.hooks, publish).0
  {
    var env := envs(k);
    CommitIsDurable(s.table, s.world, ctx, [], env.tx, env.beginErr,
                    (db: Table, sc: Scope<Hook>) => Body(db, sc, input, env), env.commitErr, publish);
  }

  /** A body whose steps succeed registers exactly one hook, publishing the
      new events, and returns the steps' table. */
  lemma BodySucceeds(t: Table, ctx: Context, input: AddInput, env: Env)
    requires AddSteps(ctx, t, input, env, EmptyError(input)).Ok?
    ensures var d := AddSteps(ctx, t, input, env, EmptyError(input)).value;
      var b := Body(t, Scope(ctx, []), input, env);
      b.err.None? && b.db == d.table && b.scope.hooks == [PublishEvents(d.list.uncommitted)]
  {
  }

  /** What a successful run presents: the new version and the one add
      event written at it, for the list and text of the input. */
  predicate AddedOutput(o: Output, input: AddInput) {
    |o.events| == 1 && AddedFor(o.events[0], o.version, input)
  }

  /** The use case with a given retry classifier. A success presents the
      add event the last attempt wrote; with a bus that never refuses, a
      failure means no attempt committed, so nothing was stored or
      published. */
  function ExecuteWith<W>(retryable: Error -> bool, t: Table, w: W, ctx: Context, input: AddInput,
                          envs: nat -> Env, publish: (W, Hook) -> Step<W>): (r: (Sys<W>, Presented))
    ensures r.1.Failure? <==> Retry.Retry(Sys(t, w, Blank), MaxRetries,
                                (s: Sys<W>, k: nat) => Attempt(s, k, ctx, input, envs, publish), retryable).err.Some?
    ensures r.1.Success? ==> r.1.out == r.0.last && AddedOutput(r.1.out, input)
    ensures r.1.Failure? && (forall h: Hook :: publish(w, h).failure.None?) ==> r.0.table == t && r.0.world == w
  {
    var run := (s: Sys<W>, k: nat) => Attempt(s, k, ctx, input, envs, publish);
    AttemptSuccessPresents(ctx, input, envs, publish);
    Retry.SuccessHolds(Sys(t, w, Blank), MaxRetries, run, retryable, (s: Sys<W>) => AddedOutput(s.last, input));
    LoopFailureKeeps(retryable, t, w, ctx, input, envs, publish);
    var o := Retry.Retry(Sys(t, w, Blank), MaxRetries, run, retryable);
    (o.state, if o.err.None? then Success(o.state.last) else Failure(o.err.value))
  }

  /** Every successful attempt leaves the outputs of the add it saved. */
  lemma AttemptSuccessPresents<W>(ctx: Context, input: AddInput, envs: nat -> Env, publish: (W, Hook) -> Step<W>)
    ensures forall s: Sys<W>, k: nat :: Attempt(s, k, ctx, input, envs, publish).failure.None? ==>
      AddedOutput(Attempt(s, k, ctx, input, envs, publish).state.last, input)
  {
    forall s: Sys<W>, k: nat
      ensures Attempt(s, k, ctx, input, envs, publish).failure.None? ==>
        AddedOutput(Attempt(s, k, ctx, input, envs, publish).state.last, input)
    {
      var env := envs(k);
      CommitIsDurable(s.table, s.world, ctx, [], env.tx, env.beginErr,
                      (db: Table, sc: Scope<Hook>) => Body(db, sc, input, env), env.commitErr, publish);
    }
  }

  /** With a bus that accepts every publication from the starting state, a
      loop that ends in failure left the table and the rest of the system
      as they were: every failed attempt starts from that state again. */
  lemma LoopFailureKeeps<W>(retryable: Error -> bool, t: Table, w: W, ctx: Context, input: AddInput,
                            envs: nat -> Env, publish: (W, Hook) -> Step<W>)
    ensures (forall h: Hook :: publish(w, h).failure.None?) ==>
      var o := Retry.Retry(Sys(t, w, Blank), MaxRetries,
                           (s: Sys<W>, k: nat) => Attempt(s, k, ctx, input, envs, publish), retryable);
      o.err.Some? ==> o.state.table == t && o.state.world == w
  {
    if forall h: Hook :: publish(w, h).failure.None? {
      forall s: Sys<W>, k: nat | s.world == w
        ensures Attempt(s, k, ctx, input, envs, publish).failure.Some? ==>
          Attempt(s, k, ctx, input, envs, publish).state.table == s.table
          && Attempt(s, k, ctx, input, envs, publish).state.world == s.world
      {
        AttemptFailureKeeps(s, k, ctx, input, envs, publish);
      }
      Retry.FailureKeeps(Sys(t, w, Blank), MaxRetries,
                         (s: Sys<W>, k: nat) => Attempt(s, k, ctx, input, envs, publish), retryable,
                         (s: Sys<W>) => (s.table, s.world));
    }
  }

  /** With a bus that accepts every publication from the attempt's starting
      state, a failed attempt is one that did not commit: it leaves the
      table and the rest of the system as they were. */
  lemma AttemptFailureKeeps<W>(s: Sys<W>, k: nat, ctx: Context, input: AddInput, envs: nat -> Env,
                               publish: (W, Hook) -> Step<W>)
    requires forall h: Hook :: publish(s.world, h).failure.None?
    ensures var a := Attempt(s, k, ctx, input, envs, publish);
      a.failure.Some? ==> a.state.table == s.table && a.state.world == s.world
  {
    var env := envs(k);
    var b := Body(s.table, Scope(WithTx(ctx, env.tx), []), input, env);
    if env.beginErr.Some? || env.commitErr.Some? || b.err.Some? {
      AttemptRollsBack(s, k, ctx, input, envs, publish);
    } else {
      var d := AddSteps(WithTx(ctx, env.tx), s.table, input, env, EmptyError(input)).value;
      AttemptCommits(s, k, ctx, input, envs, publish, d);
    }
  }

  /** `Execute` as written: retries only on errors whose text contains
      "optimistic lock error", which the store's conflict error never does.
      A success presents the add event written; with a bus that never
      refuses, a failure stored and published nothing. */
  function ExecuteAsWritten<W>(t: Table, w: W, ctx: Context, input: AddInput, envs: nat -> Env,
                               publish: (W, Hook) -> Step<W>): (r: (Sys<W>, Presented))
    ensures r.1.Success? ==> AddedOutput(r.1.out, input)
    ensures r.1.Failure? && (forall h: Hook :: publish(w, h).failure.None?) ==> r.0.table == t && r.0.world == w
  {
    ExecuteWith(Retry.IsOptimisticLockError, t, w, ctx, input, envs, publish)
  }

  /** `Execute` with conflicts recognised by their error code. A success
      presents the add event written; with a bus that never refuses, a
      failure stored and published nothing. */
  function Execute<W>(t: Table, w: W, ctx: Context, input: AddInput, envs: nat -> Env,
                      publish: (W, Hook) -> Step<W>): (r: (Sys<W>, Presented))
    ensures r.1.Success? ==> AddedOutput(r.1.out, input)
    ensures r.1.Failure? && (forall h: Hook :: publish(w, h).failure.None?) ==> r.0.table == t && r.0.world == w
  {
    ExecuteWith(Retry.IsConflict, t, w, ctx, input, envs, publish)
  }

  /** Adding to a stored list with room, valid input, a clean first attempt
      and a bus that accepts the event: one attempt, the item's event is
      stored one version above the last and published once, and the
      presenter gets that version and event. */
  lemma ExecuteAddsItem<W>(t: Table, w: W, ctx: Context, input: AddInput, envs: nat -> Env,
                           publish: (W, Hook) -> Step<W>, id: Uuid, evs: seq<Event>)
    requires Parse(input.aggregateId) == Ok(id)
    requires ListHistory(id, evs) && Rows(t, id) == RowsOf(evs) && |evs| <= A.MaxItems
    requires NewTodoText(input.todo).err.None? && NewUserId(input.userId).err.None?
    requires Clean(envs(0))
    requires forall k :: 0 <= k < |evs| ==> evs[k].eventId != envs(0).gen.eventId
    requires publish(w, PublishEvents([AddedEvent(id, input, envs(0), |evs| + 1)])).failure.None?
    ensures var r := Execute(t, w, ctx, input, envs, publish);
      var e := AddedEvent(id, input, envs(0), |evs| + 1);
      && r.1 == Success(Output(id, |evs| + 1, [e]))
      && r.0.world == publish(w, PublishEvents([e])).state
      && LoadEvents(WithTx(ctx, envs(0).tx), Deserializer.NewRegistry(), r.0.table, id, NoReadFaults()) == Ok(evs + [e])
  {
    var env := envs(0);
    var c := WithTx(ctx, env.tx);
    assert c.tx.Some? && env.read == NoReadFaults() && env.write == NoWriteFaults();
    AddAppendsOneEvent(c, t, input, id, evs, env, EmptyError(input));
    var d := AddSteps(c, t, input, env, EmptyError(input)).value;
    ExecuteAfterSteps(t, w, ctx, input, envs, publish, d, id, evs, AddedEvent(id, input, env, |evs| + 1));
  }

  lemma ExecuteAfterSteps<W>(t: Table, w: W, ctx: Context, input: AddInput, envs: nat -> Env,
                             publish: (W, Hook) -> Step<W>, d: Done, id: Uuid, evs: seq<Event>, e: Event)
    requires envs(0).beginErr.None? && envs(0).commitErr.None?
    requires AddSteps(WithTx(ctx, envs(0).tx), t, input, envs(0), EmptyError(input)) == Ok(d)
    requires d.list.aggregateId == id && d.list.version == |evs| + 1 && d.list.uncommitted == [e]
    requires LoadEvents(WithTx(ctx, envs(0).tx), Deserializer.NewRegistry(), d.table, id, NoReadFaults()) == Ok(evs + [e])
    requires publish(w, PublishEvents([e])).failure.None?
    ensures var r := Execute(t, w, ctx, input, envs, publish);
      && r.1 == Success(Output(id, |evs| + 1, [e]))
      && r.0.world == publish(w, PublishEvents([e])).state
      && LoadEvents(WithTx(ctx, envs(0).tx), Deserializer.NewRegistry(), r.0.table, id, NoReadFaults()) == Ok(evs + [e])
  {
    FirstAttemptCommits(Sys(t, w, Blank), ctx, input, envs, publish, d);
  }

  /** A list that already has three items: the refusal is presented after a
      single attempt, nothing is stored and nothing is published. */
  lemma ExecuteRefusesAtCap<W>(t: Table, w: W, ctx: Context, input: AddInput, envs: nat -> Env,
                               publish: (W, Hook) -> Step<W>, id: Uuid, evs: seq<Event>)
    requires Parse(input.aggregateId) == Ok(id)
    requires ListHistory(id, evs) && Rows(t, id) == RowsOf(evs) && |evs| > A.MaxItems
    requires NewTodoText(input.todo).err.None? && NewUserId(input.userId).err.None?
    requires envs(0).beginErr.None? && envs(0).read == NoReadFaults()
    ensures var r := Execute(t, w, ctx, input, envs, publish);
      && r.1 == Failure(Message("cannot add more than 3 todos per day"))
      && r.0.table == t && r.0.world == w
  {
    var env := envs(0);
    var c := WithTx(ctx, env.tx);
    var cap := Message("cannot add more than 3 todos per day");
    AddRefusedAtCap(c, t, input, id, evs, env, EmptyError(input));
    assert Body(t, Scope(c, []), input, env).err == Some(cap);
    AttemptRollsBack(Sys(t, w, Blank), 0, ctx, input, envs, publish);
    var a := Attempt(Sys(t, w, Blank), 0, ctx, input, envs, publish);
    assert a.failure == Some(cap) && a.state.table == t && a.state.world == w;
    assert !Retry.IsConflict(cap);
    AttemptFailsOnce(Sys(t, w, Blank), ctx, input, envs, publish, cap);
  }

  /** A failing publication is reported as a failure of the use case even
      though the event is already committed. */
  lemma PublishFailureAfterCommit<W>(s: Sys<W>, k: nat, ctx: Context, input: AddInput, envs: nat -> Env,
                                     publish: (W, Hook) -> Step<W>)
    requires envs(k).beginErr.None? && envs(k).commitErr.None?
    requires AddSteps(WithTx(ctx, envs(k).tx), s.table, input, envs(k), EmptyError(input)).Ok?
    requires publish(s.world, PublishEvents(AddSteps(WithTx(ctx, envs(k).tx), s.table, input, envs(k), EmptyError(input)).value.list.uncommitted)).failure.Some?
    ensures var r := Attempt(s, k, ctx, input, envs, publish);
      r.failure.Some? && r.state.table == AddSteps(WithTx(ctx, envs(k).tx), s.table, input, envs(k), EmptyError(input)).value.table
  {
    AttemptCommits(s, k, ctx, input, envs, publish,
                   AddSteps(WithTx(ctx, envs(k).tx), s.table, input, envs(k), EmptyError(input)).value);
  }

  /** An attempt whose steps succeed and which commits: the table is the
      steps' table, the outputs are the new list's, and the rest of the
      system and the attempt's error are what publishing its events gives. */
  lemma AttemptCommits<W>(s: Sys<W>, k: nat, ctx: Context, input: AddInput, envs: nat -> Env,
                          publish: (W, Hook) -> Step<W>, d: Done)
    requires envs(k).beginErr.None? && envs(k).commitErr.None?
    requires AddSteps(WithTx(ctx, envs(k).tx), s.table, input, envs(k), EmptyError(input)) == Ok(d)
    ensures var p := publish(s.world, PublishEvents(d.list.uncommitted));
      Attempt(s, k, ctx, input, envs, publish) == Step(Sys(d.table, p.state, OutputOf(d)), p.failure)
  {
    BodySucceeds(s.table, WithTx(ctx, envs(k).tx), input, envs(k));
    RunOneHook(s.world, PublishEvents(d.list.uncommitted), publish);
    AttemptKeepsWrites(s, k, ctx, input, envs, publish);
  }

  /** A first attempt that commits and publishes is the whole run, and the
      presenter gets its outputs. */
  lemma FirstAttemptCommits<W>(s: Sys<W>, ctx: Context, input: AddInput, envs: nat -> Env,
                               publish: (W, Hook) -> Step<W>, d: Done)
    requires envs(0).beginErr.None? && envs(0).commitErr.None?
    requires AddSteps(WithTx(ctx, envs(0).tx), s.table, input, envs(0), EmptyError(input)) == Ok(d)
    requires publish(s.world, PublishEvents(d.list.uncommitted)).failure.None?
    ensures Execute(s.table, s.world, ctx, input, envs, publish) ==
      (Sys(d.table, publish(s.world, PublishEvents(d.list.uncommitted)).state, OutputOf(d)), Success(OutputOf(d)))
  {
    AttemptCommits(s, 0, ctx, input, envs, publish, d);
    AttemptSucceedsOnce(s, ctx, input, envs, publish);
  }

  /** A first attempt that succeeds is the whole run. */
  lemma AttemptSucceedsOnce<W>(s: Sys<W>, ctx: Context, input: AddInput, envs: nat -> Env,
                               publish: (W, Hook) -> Step<W>)
    requires Attempt(s, 0, ctx, input, envs, publish).failure.None?
    ensures Execute(s.table, s.world, ctx, input, envs, publish) ==
      (Attempt(s, 0, ctx, input, envs, publish).state, Success(Attempt(s, 0, ctx, input, envs, publish).state.last))
  {
  }

  /** A first attempt that fails with an error the classifier does not
      retry is the whole run. */
  lemma AttemptFailsOnce<W>(s: Sys<W>, ctx: Context, input: AddInput, envs: nat -> Env,
                            publish: (W, Hook) -> Step<W>, err: Error)
    requires Attempt(s, 0, ctx, input, envs, publish).failure == Some(err) && !Retry.IsConflict(err)
    ensures Execute(s.table, s.world, ctx, input, envs, publish) ==
      (Attempt(s, 0, ctx, input, envs, publish).state, Failure(err))
  {
  }

  /** As written, a first attempt that fails with the store's conflict
      error ends the use case: the conflict is presented, never retried. */
  lemma ConflictPresentedAsWritten<W>(s: Sys<W>, ctx: Context, input: AddInput, envs: nat -> Env,
                                      publish: (W, Hook) -> Step<W>, id: Uuid, v: int, err: Error)
    requires IsDuplicateKey(err)
    requires Attempt(s, 0, ctx, input, envs, publish).failure == Some(SaveError(id, v, err))
    ensures ExecuteAsWritten(s.table, s.world, ctx, input, envs, publish) ==
      (Attempt(s, 0, ctx, input, envs, publish).state, Failure(SaveError(id, v, err)))
  {
    Retry.ConflictIsNotRecognised(id, v, err);
  }

  /** With conflicts recognised by code, the same first attempt is followed
      by a second one, from the state the first left behind: the use case's
      result is that of the loop from attempt 1. */
  lemma ConflictRetried<W>(s: Sys<W>, ctx: Context, input: AddInput, envs: nat -> Env,
                           publish: (W, Hook) -> Step<W>, id: Uuid, v: int, err: Error)
    requires IsDuplicateKey(err)
    requires Attempt(s, 0, ctx, input, envs, publish).failure == Some(SaveError(id, v, err))
    ensures var o := Retry.RetryFrom(Attempt(s, 0, ctx, input, envs, publish).state, 1, MaxRetries,
                                     (x: Sys<W>, k: nat) => Attempt(x, k, ctx, input, envs, publish), Retry.IsConflict);
      Execute(s.table, s.world, ctx, input, envs, publish) ==
        (o.state, if o.err.None? then Success(o.state.last) else Failure(o.err.value))
  {
    Retry.ConflictIsRecognised(id, v, err);
  }
}
