/** internal/domain/aggregate/todo_list.go: the todo-list aggregate. Its state
    is rebuilt by replaying the list's events; commands validate against that
    state, emit one event each, apply it and buffer it for the store. */
module TodoListAggregate {
  import opened Wrappers
  import opened Errors
  import opened Uuids
  import opened Events

  /** The per-list cap `ExecuteAddTodoCommand` enforces. */
  const MaxItems: nat := 3

  /** Items are kept as their texts: the item ID and creation time that
      `entity.NewTodoItem` draws are never read by the core. */
  datatype TodoList = TodoList(aggregateId: Uuid, userId: string, items: seq<string>, version: int, uncommitted: seq<Event>)

  datatype CreateTodoListCommand = CreateTodoListCommand(userId: string)
  datatype AddTodoCommand = AddTodoCommand(aggregateId: Uuid, userId: string, todoText: string)

  /** `NewTodoListAggregate`. */
  function New(): (a: TodoList)
    ensures a.aggregateId == Nil && a.items == [] && a.version == 0 && a.uncommitted == []
  {
    TodoList(Nil, "", [], 0, [])
  }

  /** `MarkEventsAsCommitted`: empties the buffer and nothing else. */
  function MarkEventsAsCommitted(a: TodoList): (r: TodoList)
    ensures r.uncommitted == []
    ensures r.(uncommitted := a.uncommitted) == a
  {
    a.(uncommitted := [])
  }

  /** `applyEvent`: an unknown type fails without touching the state; a known
      one updates it, moves the version to the event's, and is buffered only
      when it is new. */
  function Apply(a: TodoList, e: Event, isNew: bool): (r: Step<TodoList>)
    ensures r.failure.Some? <==> e.Foreign?
    ensures e.Foreign? ==> r == Step(a, Some(UnknownEventType(e)))
    ensures !e.Foreign? ==> r.state.version == e.version
    ensures !e.Foreign? ==> r.state.uncommitted == if isNew then a.uncommitted + [e] else a.uncommitted
    ensures e.TodoListCreated? ==> r.state.items == a.items && r.state.aggregateId == e.aggregateId && r.state.userId == e.userId
    ensures e.TodoAdded? ==> r.state.items == a.items + [e.todoText] && r.state.aggregateId == a.aggregateId && r.state.userId == a.userId
  {
    if e.Foreign? then Step(a, Some(UnknownEventType(e)))
    else
      var s := if e.TodoListCreated? then a.(aggregateId := e.aggregateId, userId := e.userId)
        else a.(items := a.items + [e.todoText]);
      Step(s.(uncommitted := if isNew then a.uncommitted + [e] else a.uncommitted, version := e.version), None)
  }

  /** The owner fields after replaying `evs`: the last creation event's. */
  function OwnerAfter(id: Uuid, user: string, evs: seq<Event>): (Uuid, string)
    decreases |evs|
  {
    if |evs| == 0 then (id, user)
    else if evs[0].TodoListCreated? then OwnerAfter(evs[0].aggregateId, evs[0].userId, evs[1..])
    else OwnerAfter(id, user, evs[1..])
  }

  /** `Hydration`: replays the events in order without buffering them,
      stopping at the first one it cannot apply. */
  function Hydrate(a: TodoList, evs: seq<Event>): (r: Step<TodoList>)
    ensures r.state.uncommitted == a.uncommitted
    ensures r.failure.None? <==> KnownPrefix(evs) == evs
    ensures r.failure.Some? ==>
      r.failure == Some(Wrapped("failed to apply event", UnknownEventType(evs[|KnownPrefix(evs)|])))
    decreases |evs|
  {
    if |evs| == 0 then Step(a, None)
    else
      var s := Apply(a, evs[0], false);
      if s.failure.Some? then Step(s.state, Some(Wrapped("failed to apply event", s.failure.value)))
      else
        assert KnownPrefix(evs) == [evs[0]] + KnownPrefix(evs[1..]);
        Hydrate(s.state, evs[1..])
  }

  /** What replay computes: the items are the texts of the add events before
      the first unknown event, the version is the last applied event's, and
      the owner is set by the last creation event. */
  lemma {:induction false} HydrateMeaning(a: TodoList, evs: seq<Event>)
    ensures var r := Hydrate(a, evs); var k := KnownPrefix(evs);
      && r.state.items == a.items + AddedTexts(k)
      && r.state.version == LastVersion(a.version, k)
      && (r.state.aggregateId, r.state.userId) == OwnerAfter(a.aggregateId, a.userId, k)
    decreases |evs|
  {
    if |evs| > 0 && !evs[0].Foreign? {
      var e := evs[0];
      var s := Apply(a, e, false).state;
      var k := KnownPrefix(evs[1..]);
      HydrateMeaning(s, evs[1..]);
      assert Hydrate(a, evs) == Hydrate(s, evs[1..]);
      var all := [e] + k;
      assert KnownPrefix(evs) == all;
      assert all[0] == e && all[1..] == k;
      assert AddedTexts(all) == (if e.TodoAdded? then [e.todoText] else []) + AddedTexts(k);
      assert s.items == a.items + (if e.TodoAdded? then [e.todoText] else []);
      assert OwnerAfter(a.aggregateId, a.userId, all) == OwnerAfter(s.aggregateId, s.userId, k);
    } else if |evs| > 0 {
      assert KnownPrefix(evs) == [];
    }
  }

  /** A list's stored history replays to the list it describes: the owner
      from the creation event, one item per add event, the version of the
      last event, and nothing buffered. */
  lemma HydrateListHistory(id: Uuid, evs: seq<Event>)
    requires ListHistory(id, evs)
    ensures Hydrate(New(), evs) == Step(TodoList(id, evs[0].userId, AddedTexts(evs), |evs|, []), None)
  {
    HistoryIsKnown(id, evs);
    HistoryOwner(id, evs);
    HydrateKnown(evs, id, evs[0].userId);
  }

  lemma HydrateKnown(evs: seq<Event>, id: Uuid, user: string)
    requires |evs| > 0 && KnownPrefix(evs) == evs && OwnerAfter(Nil, "", evs) == (id, user)
    requires evs[|evs| - 1].version == |evs|
    ensures Hydrate(New(), evs) == Step(TodoList(id, user, AddedTexts(evs), |evs|, []), None)
  {
    HydrateMeaning(New(), evs);
    var r := Hydrate(New(), evs);
    assert r.failure.None?;
    assert r.state.items == AddedTexts(evs);
    assert r.state.version == |evs|;
    assert r.state.uncommitted == [];
    assert r.state.aggregateId == id;
    assert r.state.userId == user;
  }

  lemma HistoryIsKnown(id: Uuid, evs: seq<Event>)
    requires ListHistory(id, evs)
    ensures KnownPrefix(evs) == evs
  {
    KnownOnlyPrefix(evs);
  }

  lemma HistoryOwner(id: Uuid, evs: seq<Event>)
    requires ListHistory(id, evs)
    ensures OwnerAfter(Nil, "", evs) == (id, evs[0].userId)
  {
    var rest := evs[1..];
    forall k | 0 <= k < |rest| ensures rest[k].TodoAdded? {
      assert rest[k] == evs[k + 1];
    }
    OwnerAfterAdds(evs[0].aggregateId, evs[0].userId, rest);
  }

  lemma {:induction false} OwnerAfterAdds(id: Uuid, user: string, evs: seq<Event>)
    requires forall k :: 0 <= k < |evs| ==> evs[k].TodoAdded?
    ensures OwnerAfter(id, user, evs) == (id, user)
    decreases |evs|
  {
    if |evs| > 0 {
      OwnerAfterAdds(id, user, evs[1..]);
    }
  }

  /** Replaying a concatenation is replaying the parts in turn. */
  lemma {:induction false} HydrateAppend(a: TodoList, x: seq<Event>, y: seq<Event>)
    ensures Hydrate(a, x + y) ==
      var s := Hydrate(a, x); if s.failure.Some? then s else Hydrate(s.state, y)
    decreases |x|
  {
    if |x| == 0 {
      assert x + y == y;
    } else {
      assert (x + y)[0] == x[0];
      assert (x + y)[1..] == x[1..] + y;
      var s := Apply(a, x[0], false);
      if s.failure.None? {
        HydrateAppend(s.state, x[1..], y);
      }
    }
  }

  /** `ExecuteCreateTodoListCommand`. */
  function ExecuteCreate(a: TodoList, cmd: CreateTodoListCommand, gen: Fresh): (r: Step<TodoList>)
    ensures a.aggregateId != Nil ==> r == Step(a, Some(Message("todo list already exists")))
    ensures a.aggregateId == Nil ==> r.failure.None?
    ensures a.aggregateId == Nil ==>
      && r.state.uncommitted == a.uncommitted + [TodoListCreated(gen.aggregateId, cmd.userId, gen.eventId, gen.now, 1)]
      && r.state.aggregateId == gen.aggregateId && r.state.userId == cmd.userId
      && r.state.version == 1 && r.state.items == a.items
  {
    if a.aggregateId != Nil then Step(a, Some(Message("todo list already exists")))
    else Apply(a, TodoListCreated(gen.aggregateId, cmd.userId, gen.eventId, gen.now, 1), true)
  }

  /** `ExecuteAddTodoCommand`: at most three items per list. */
  function ExecuteAdd(a: TodoList, cmd: AddTodoCommand, gen: Fresh): (r: Step<TodoList>)
    ensures |a.items| >= MaxItems ==> r == Step(a, Some(Message("cannot add more than 3 todos per day")))
    ensures |a.items| < MaxItems ==> r.failure.None?
    ensures |a.items| < MaxItems ==>
      && r.state.uncommitted == a.uncommitted + [TodoAdded(cmd.aggregateId, cmd.userId, cmd.todoText, gen.eventId, gen.now, a.version + 1)]
      && r.state.items == a.items + [cmd.todoText]
      && r.state.version == a.version + 1
      && r.state.aggregateId == a.aggregateId && r.state.userId == a.userId
  {
    if |a.items| >= MaxItems then Step(a, Some(Message("cannot add more than 3 todos per day")))
    else Apply(a, TodoAdded(cmd.aggregateId, cmd.userId, cmd.todoText, gen.eventId, gen.now, a.version + 1), true)
  }

  /** The buffer, replayed on the state it was produced from, rebuilds the
      aggregate as it will be once committed. */
  predicate Replays(base: TodoList, a: TodoList) {
    && |base.uncommitted| <= |a.uncommitted|
    && a.uncommitted[..|base.uncommitted|] == base.uncommitted
    && Hydrate(base, a.uncommitted[|base.uncommitted|..]) == Step(MarkEventsAsCommitted(a).(uncommitted := base.uncommitted), None)
  }

  lemma ReplaysStart(base: TodoList)
    ensures Replays(base, base)
  {
    assert base.uncommitted[|base.uncommitted|..] == [];
  }

  /** A successful create keeps the buffer replayable. */
  lemma {:induction false} CreateKeepsReplay(base: TodoList, a: TodoList, cmd: CreateTodoListCommand, gen: Fresh)
    requires Replays(base, a)
    requires ExecuteCreate(a, cmd, gen).failure.None?
    ensures Replays(base, ExecuteCreate(a, cmd, gen).state)
  {
    var e := TodoListCreated(gen.aggregateId, cmd.userId, gen.eventId, gen.now, 1);
    BufferStep(base, a, e);
  }

  /** A successful add keeps the buffer replayable. */
  lemma {:induction false} AddKeepsReplay(base: TodoList, a: TodoList, cmd: AddTodoCommand, gen: Fresh)
    requires Replays(base, a)
    requires ExecuteAdd(a, cmd, gen).failure.None?
    ensures Replays(base, ExecuteAdd(a, cmd, gen).state)
  {
    var e := TodoAdded(cmd.aggregateId, cmd.userId, cmd.todoText, gen.eventId, gen.now, a.version + 1);
    BufferStep(base, a, e);
  }

  lemma {:induction false} BufferStep(base: TodoList, a: TodoList, e: Event)
    requires Replays(base, a)
    requires !e.Foreign?
    ensures Replays(base, Apply(a, e, true).state)
  {
    var n := |base.uncommitted|;
    var a' := Apply(a, e, true).state;
    assert a'.uncommitted == a.uncommitted + [e];
    assert a'.uncommitted[n..] == a.uncommitted[n..] + [e];
    assert a'.uncommitted[..n] == a.uncommitted[..n];
    HydrateAppend(base, a.uncommitted[n..], [e]);
    var mid := MarkEventsAsCommitted(a).(uncommitted := base.uncommitted);
    assert Hydrate(mid, [e]) == Step(Apply(mid, e, false).state, None);
    assert Apply(mid, e, false).state == MarkEventsAsCommitted(a').(uncommitted := base.uncommitted);
  }

  /** Loading a list and running a create or an add on it: appending the
      buffered event to the loaded history and replaying the whole log from a
      new aggregate rebuilds the committed state. */
  lemma {:induction false} AddReplayRoundTrip(history: seq<Event>, cmd: AddTodoCommand, gen: Fresh)
    requires Hydrate(New(), history).failure.None?
    requires ExecuteAdd(Hydrate(New(), history).state, cmd, gen).failure.None?
    ensures var a := ExecuteAdd(Hydrate(New(), history).state, cmd, gen).state;
      Hydrate(New(), history + a.uncommitted) == Step(MarkEventsAsCommitted(a), None)
  {
    var s := Hydrate(New(), history).state;
    ReplaysStart(s);
    AddKeepsReplay(s, s, cmd, gen);
    var a := ExecuteAdd(s, cmd, gen).state;
    assert s.uncommitted == [];
    assert a.uncommitted[0..] == a.uncommitted;
    HydrateAppend(New(), history, a.uncommitted);
  }

  /** Creating a list from a new aggregate: its buffer replays to it. */
  lemma CreateReplayRoundTrip(cmd: CreateTodoListCommand, gen: Fresh)
    ensures var a := ExecuteCreate(New(), cmd, gen).state;
      Hydrate(New(), a.uncommitted) == Step(MarkEventsAsCommitted(a), None)
  {
    ReplaysStart(New());
    CreateKeepsReplay(New(), New(), cmd, gen);
  }

  /** Replay has no cap: every add event of a known-only log contributes an
      item, however many there are. */
  lemma {:induction false} HydrationHasNoCap(a: TodoList, evs: seq<Event>)
    requires forall i :: 0 <= i < |evs| ==> evs[i].TodoAdded?
    ensures Hydrate(a, evs).failure.None?
    ensures |Hydrate(a, evs).state.items| == |a.items| + |evs|
    decreases |evs|
  {
    if |evs| > 0 {
      HydrationHasNoCap(Apply(a, evs[0], false).state, evs[1..]);
    }
  }

  /** The life cycle of the overview: create, then three adds, then a fourth
      add refused. */
  lemma LifeCycleExample(f1: Fresh, f2: Fresh, f3: Fresh, f4: Fresh, f5: Fresh)
    requires f1.aggregateId != Nil
    ensures var a1 := ExecuteCreate(New(), CreateTodoListCommand("user123"), f1).state;
      var id := f1.aggregateId;
      var a2 := ExecuteAdd(a1, AddTodoCommand(id, "user123", "Buy milk"), f2).state;
      var a3 := ExecuteAdd(a2, AddTodoCommand(id, "user123", "Walk dog"), f3).state;
      var a4 := ExecuteAdd(a3, AddTodoCommand(id, "user123", "Read book"), f4).state;
      && a1.version == 1 && a1.items == [] && a1.aggregateId == id
      && a2.version == 2 && a2.items == ["Buy milk"]
      && a4.version == 4 && a4.items == ["Buy milk", "Walk dog", "Read book"]
      && |a4.uncommitted| == 4
      && ExecuteAdd(a4, AddTodoCommand(id, "user123", "Extra"), f5) ==
           Step(a4, Some(Message("cannot add more than 3 todos per day")))
      && ExecuteCreate(a4, CreateTodoListCommand("user123"), f5).failure ==
           Some(Message("todo list already exists"))
  {
  }
}
