/** The steps the use cases run inside their transactions, shared by
    internal/usecase/todo.go and the command and query use cases: load and
    replay a list, add an item, create a list, and read a list back.

    Everything one run of a use case draws from outside is an `Env`: the
    transaction the driver opens, the driver's failures at begin, commit,
    query and insert time, and the fresh IDs and clock reading. */
module UseCaseSteps {
  import opened Wrappers
  import opened Errors
  import opened Uuids
  import opened Events
  import opened Values
  import opened Deserializer
  import opened Transaction
  import opened EventStore
  import A = TodoListAggregate

  datatype Env = Env(tx: Tx, beginErr: Option<Error>, commitErr: Option<Error>, gen: Fresh,
                     read: ReadFaults, write: nat -> Option<Error>)

  /** What a successful body leaves: the table after its writes and the
      aggregate after the command. */
  datatype Done = Done(table: Table, list: A.TodoList)

  /** Parse the ID, load the events, refuse an empty history with
      `emptyErr`, replay. */
  function LoadList(ctx: Context, t: Table, aggregateId: string, read: ReadFaults, emptyErr: Error): (r: Result<(Uuid, A.TodoList), Error>)
    ensures Parse(aggregateId).Err? ==> r == Err(Parse(aggregateId).error)
    ensures r.Ok? ==> Parse(aggregateId) == Ok(r.value.0)
    ensures r.Ok? ==> var loaded := LoadEvents(ctx, NewRegistry(), t, r.value.0, read);
      loaded.Ok? && A.Hydrate(A.New(), loaded.value) == Step(r.value.1, None)
    ensures r.Err? && Parse(aggregateId).Ok? ==>
      var loaded := LoadEvents(ctx, NewRegistry(), t, Parse(aggregateId).value, read);
      loaded.Err? || A.Hydrate(A.New(), loaded.value).failure.Some?
  {
    match Parse(aggregateId)
    case Err(e) => Err(e)
    case Ok(id) =>
      match LoadEvents(ctx, NewRegistry(), t, id, read)
      case Err(e) => Err(e)
      case Ok(evs) =>
        if |evs| == 0 then Err(emptyErr)
        else
          var h := A.Hydrate(A.New(), evs);
          if h.failure.Some? then Err(h.failure.value) else Ok((id, h.state))
  }

  /** The empty-history check is dead: the store reports a missing list as
      NotFound itself, so the error passed for an empty history is never
      returned. */
  lemma EmptyHistoryUnreachable(ctx: Context, t: Table, aggregateId: string, read: ReadFaults, e1: Error, e2: Error)
    ensures LoadList(ctx, t, aggregateId, read, e1) == LoadList(ctx, t, aggregateId, read, e2)
  {
  }

  /** A stored list history loads and replays to the list it describes. */
  lemma LoadListHistory(ctx: Context, t: Table, aggregateId: string, id: Uuid, evs: seq<Event>, emptyErr: Error)
    requires ctx.tx.Some? && Parse(aggregateId) == Ok(id)
    requires ListHistory(id, evs) && Rows(t, id) == RowsOf(evs)
    ensures var r := LoadList(ctx, t, aggregateId, NoReadFaults(), emptyErr);
      && r.Ok? && r.value.0 == id
      && r.value.1.aggregateId == id && r.value.1.userId == evs[0].userId
      && r.value.1.items == AddedTexts(evs) && r.value.1.version == |evs| && r.value.1.uncommitted == []
  {
    HistoryReadable(id, evs);
    LoadStored(ctx, t, id, evs);
    A.HydrateListHistory(id, evs);
  }

  datatype AddInput = AddInput(aggregateId: string, userId: string, todo: string)

  /** The add body up to the save: validate the text, load and replay the
      list, validate the user ID, then `SaveAdd`. */
  function AddSteps(ctx: Context, t: Table, input: AddInput, env: Env, emptyErr: Error): (r: Result<Done, Error>)
    ensures NewTodoText(input.todo).err.Some? ==> r == Err(NewTodoText(input.todo).err.value)
    ensures NewTodoText(input.todo).err.None? && Parse(input.aggregateId).Err? ==> r == Err(Parse(input.aggregateId).error)
    ensures NewTodoText(input.todo).err.None? && LoadList(ctx, t, input.aggregateId, env.read, emptyErr).Err? ==>
      r == Err(LoadList(ctx, t, input.aggregateId, env.read, emptyErr).error)
    ensures (NewTodoText(input.todo).err.None? && LoadList(ctx, t, input.aggregateId, env.read, emptyErr).Ok?
             && NewUserId(input.userId).err.Some?) ==> r == Err(NewUserId(input.userId).err.value)
    ensures r.Ok? ==> NewTodoText(input.todo).err.None? && NewUserId(input.userId).err.None?
    ensures r.Ok? ==> |r.value.list.uncommitted| == 1 && AddedFor(r.value.list.uncommitted[0], r.value.list.version, input)
  {
    var text := NewTodoText(input.todo);
    if text.err.Some? then Err(text.err.value)
    else
      match LoadList(ctx, t, input.aggregateId, env.read, emptyErr)
      case Err(e) => Err(e)
      case Ok((id, a)) =>
        var user := NewUserId(input.userId);
        if user.err.Some? then Err(user.err.value)
        else SaveAdd(ctx, t, id, a, user.value, text.value, env)
  }

  /** `e` is the add event of `input` at `version`: it belongs to the list
      the input names and carries the input's validated text. */
  predicate AddedFor(e: Event, version: int, input: AddInput) {
    && e.TodoAdded?
    && e.version == version
    && Parse(input.aggregateId) == Ok(e.aggregateId)
    && e.todoText == NewTodoText(input.todo).value
  }

  /** Run the add command on the replayed list and save its event under the
      list's own aggregate ID. */
  function SaveAdd(ctx: Context, t: Table, id: Uuid, a: A.TodoList, user: string, text: string, env: Env): (r: Result<Done, Error>)
    ensures |a.items| >= A.MaxItems ==> r == Err(Message("cannot add more than 3 todos per day"))
    ensures r.Ok? ==> r.value.list.uncommitted == a.uncommitted + [TodoAdded(id, user, text, env.gen.eventId, env.gen.now, a.version + 1)]
    ensures r.Ok? ==> r.value.list.version == a.version + 1 && r.value.list.items == a.items + [text]
    ensures r.Ok? ==> r.value.list.aggregateId == a.aggregateId
  {
    var s := A.ExecuteAdd(a, A.AddTodoCommand(id, user, text), env.gen);
    if s.failure.Some? then Err(s.failure.value)
    else
      var saved := SaveEvents(ctx, t, s.state.aggregateId, s.state.uncommitted, env.write);
      if saved.failure.Some? then Err(saved.failure.value) else Ok(Done(saved.state, s.state))
  }

  /** The event a successful add writes. */
  function AddedEvent(id: Uuid, input: AddInput, env: Env, version: int): (e: Event)
    ensures e.TodoAdded? && e.aggregateId == id && e.version == version
  {
    TodoAdded(id, NewUserId(input.userId).value, NewTodoText(input.todo).value, env.gen.eventId, env.gen.now, version)
  }

  /** Adding to a stored list with fewer than three items, with valid input
      and no driver failure, writes exactly one add event one version above
      the last; loading the list afterwards gives the old history followed
      by that event. */
  lemma AddAppendsOneEvent(ctx: Context, t: Table, input: AddInput, id: Uuid, evs: seq<Event>, env: Env, emptyErr: Error)
    requires ctx.tx.Some? && Parse(input.aggregateId) == Ok(id)
    requires ListHistory(id, evs) && Rows(t, id) == RowsOf(evs) && |evs| <= A.MaxItems
    requires NewTodoText(input.todo).err.None? && NewUserId(input.userId).err.None?
    requires env.read == NoReadFaults() && env.write == NoWriteFaults()
    requires forall k :: 0 <= k < |evs| ==> evs[k].eventId != env.gen.eventId
    ensures var r := AddSteps(ctx, t, input, env, emptyErr);
      var e := AddedEvent(id, input, env, |evs| + 1);
      && r.Ok?
      && r.value.list.aggregateId == id
      && r.value.list.uncommitted == [e]
      && r.value.list.version == |evs| + 1
      && r.value.list.items == AddedTexts(evs) + [e.todoText]
      && ListHistory(id, evs + [e])
      && LoadEvents(ctx, NewRegistry(), r.value.table, id, NoReadFaults()) == Ok(evs + [e])
  {
    LoadListHistory(ctx, t, input.aggregateId, id, evs, emptyErr);
    var a := LoadList(ctx, t, input.aggregateId, env.read, emptyErr).value.1;
    var user := NewUserId(input.userId).value;
    var text := NewTodoText(input.todo).value;
    assert AddSteps(ctx, t, input, env, emptyErr) == SaveAdd(ctx, t, id, a, user, text, env);
    SaveAddAppends(ctx, t, id, a, user, text, env, evs);
  }

  lemma SaveAddAppends(ctx: Context, t: Table, id: Uuid, a: A.TodoList, user: string, text: string, env: Env, evs: seq<Event>)
    requires ctx.tx.Some? && ListHistory(id, evs) && Rows(t, id) == RowsOf(evs) && |evs| <= A.MaxItems
    requires a.aggregateId == id && a.items == AddedTexts(evs) && a.version == |evs| && a.uncommitted == []
    requires env.write == NoWriteFaults()
    requires forall k :: 0 <= k < |evs| ==> evs[k].eventId != env.gen.eventId
    ensures var r := SaveAdd(ctx, t, id, a, user, text, env);
      var e := TodoAdded(id, user, text, env.gen.eventId, env.gen.now, |evs| + 1);
      && r.Ok?
      && ListHistory(id, evs + [e])
      && LoadEvents(ctx, NewRegistry(), r.value.table, id, NoReadFaults()) == Ok(evs + [e])
  {
    HistoryTexts(id, evs);
    var e := TodoAdded(id, user, text, env.gen.eventId, env.gen.now, |evs| + 1);
    HistoryExtends(id, evs, e);
    var s := A.ExecuteAdd(a, A.AddTodoCommand(id, user, text), env.gen);
    assert s.failure.None? && s.state.aggregateId == id && s.state.uncommitted == [e];
    SaveListEvent(ctx, t, id, evs, e);
  }

  /** Saving the next event of a stored list history and loading it back. */
  lemma SaveListEvent(ctx: Context, t: Table, id: Uuid, evs: seq<Event>, e: Event)
    requires ctx.tx.Some? && ListHistory(id, evs + [e]) && Rows(t, id) == RowsOf(evs)
    ensures SaveEvents(ctx, t, id, [e], NoWriteFaults()).failure.None?
    ensures LoadEvents(ctx, NewRegistry(), SaveEvents(ctx, t, id, [e], NoWriteFaults()).state, id, NoReadFaults()) == Ok(evs + [e])
  {
    HistoryReadable(id, evs + [e]);
    SaveThenLoad(ctx, t, id, evs, [e]);
  }

  /** A list that already has three items refuses the add, and nothing is
      written. */
  lemma AddRefusedAtCap(ctx: Context, t: Table, input: AddInput, id: Uuid, evs: seq<Event>, env: Env, emptyErr: Error)
    requires ctx.tx.Some? && Parse(input.aggregateId) == Ok(id)
    requires ListHistory(id, evs) && Rows(t, id) == RowsOf(evs) && |evs| > A.MaxItems
    requires NewTodoText(input.todo).err.None? && NewUserId(input.userId).err.None?
    requires env.read == NoReadFaults()
    ensures AddSteps(ctx, t, input, env, emptyErr) == Err(Message("cannot add more than 3 todos per day"))
  {
    LoadListHistory(ctx, t, input.aggregateId, id, evs, emptyErr);
    HistoryTexts(id, evs);
  }

  /** The create body up to the save: validate the user ID, run the command
      on a new aggregate, save its event. */
  function CreateSteps(ctx: Context, t: Table, userId: string, env: Env): (r: Result<Done, Error>)
    ensures NewUserId(userId).err.Some? ==> r == Err(NewUserId(userId).err.value)
    ensures r.Ok? ==> r.value.list.aggregateId == env.gen.aggregateId && r.value.list.version == 1
    ensures r.Ok? ==> r.value.list.uncommitted == [TodoListCreated(env.gen.aggregateId, NewUserId(userId).value, env.gen.eventId, env.gen.now, 1)]
    ensures r.Err? && NewUserId(userId).err.None? ==>
      var e := TodoListCreated(env.gen.aggregateId, NewUserId(userId).value, env.gen.eventId, env.gen.now, 1);
      SaveEvents(ctx, t, env.gen.aggregateId, [e], env.write).failure == Some(r.error)
  {
    var user := NewUserId(userId);
    if user.err.Some? then Err(user.err.value)
    else
      var s := A.ExecuteCreate(A.New(), A.CreateTodoListCommand(user.value), env.gen);
      var saved := SaveEvents(ctx, t, s.state.aggregateId, s.state.uncommitted, env.write);
      if saved.failure.Some? then Err(saved.failure.value) else Ok(Done(saved.state, s.state))
  }

  /** Creating a list under an ID the store has no rows for, with no driver
      failure, stores its creation event as the list's whole history. */
  lemma CreateStoresHistory(ctx: Context, t: Table, userId: string, env: Env)
    requires ctx.tx.Some? && NewUserId(userId).err.None?
    requires Rows(t, env.gen.aggregateId) == [] && env.write == NoWriteFaults()
    ensures var r := CreateSteps(ctx, t, userId, env);
      var e := TodoListCreated(env.gen.aggregateId, NewUserId(userId).value, env.gen.eventId, env.gen.now, 1);
      && r.Ok?
      && ListHistory(env.gen.aggregateId, [e])
      && LoadEvents(ctx, NewRegistry(), r.value.table, env.gen.aggregateId, NoReadFaults()) == Ok([e])
  {
    var e := TodoListCreated(env.gen.aggregateId, NewUserId(userId).value, env.gen.eventId, env.gen.now, 1);
    FirstEventStored(ctx, t, env.gen.aggregateId, e);
  }

  lemma FirstEventStored(ctx: Context, t: Table, id: Uuid, e: Event)
    requires ctx.tx.Some? && e.TodoListCreated? && e.aggregateId == id && e.version == 1 && Rows(t, id) == []
    ensures ListHistory(id, [e])
    ensures SaveEvents(ctx, t, id, [e], NoWriteFaults()).failure.None?
    ensures LoadEvents(ctx, NewRegistry(), SaveEvents(ctx, t, id, [e], NoWriteFaults()).state, id, NoReadFaults()) == Ok([e])
  {
    assert RowsOf([]) == [];
    assert [] + [e] == [e];
    SaveListEvent(ctx, t, id, [], e);
  }

  /** `GetTodoListOutput`; `None` is the zero time, which is all either
      read path ever puts there. */
  datatype ListOutput = ListOutput(aggregateId: string, userId: string, items: seq<string>, updatedAt: Option<int>)

  /** The read body: load and replay, then report the owner and the
      item texts. */
  function ReadSteps(ctx: Context, t: Table, aggregateId: string, read: ReadFaults): (r: Result<ListOutput, Error>)
    ensures r.Ok? ==> r.value.updatedAt.None?
    ensures r.Ok? <==> LoadList(ctx, t, aggregateId, read, Message("todo list not found")).Ok?
  {
    match LoadList(ctx, t, aggregateId, read, Message("todo list not found"))
    case Err(e) => Err(e)
    case Ok((_, a)) => Ok(ListOutput(a.aggregateId, a.userId, a.items, None))
  }

  /** Reading a stored list reports its owner and one item per add event,
      in order. */
  lemma ReadListHistory(ctx: Context, t: Table, aggregateId: string, id: Uuid, evs: seq<Event>)
    requires ctx.tx.Some? && Parse(aggregateId) == Ok(id)
    requires ListHistory(id, evs) && Rows(t, id) == RowsOf(evs)
    ensures ReadSteps(ctx, t, aggregateId, NoReadFaults()) == Ok(ListOutput(id, evs[0].userId, AddedTexts(evs), None))
  {
    LoadListHistory(ctx, t, aggregateId, id, evs, Message("todo list not found"));
  }

  /** The after-commit hook both commands register:
      `eventBus.Publish(context.Background(), evs...)`. */
  datatype Hook = PublishEvents(events: seq<Event>)

  /** What a command hands to `PresentSuccess`: the aggregate ID, its
      version and the new events. A Go variable that the body never set
      keeps its zero value, `Blank`. */
  datatype Output = Output(aggregateId: string, version: int, events: seq<Event>)

  const Blank: Output := Output("", 0, [])

  /** The presenter call a command ends with. */
  datatype Presented = Success(out: Output) | Failure(err: Error)

  /** The outputs a body sets once its save succeeded. */
  function OutputOf(d: Done): (o: Output)
    ensures o.version == d.list.version && o.events == d.list.uncommitted
  {
    Output(d.list.aggregateId, d.list.version, d.list.uncommitted)
  }

  /** No failure from the driver in this run. */
  ghost predicate Clean(env: Env) {
    env.beginErr.None? && env.commitErr.None? && env.read == NoReadFaults() && env.write == NoWriteFaults()
  }
}
