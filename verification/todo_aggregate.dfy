/** internal/domain/aggregate/todo.go: the older single-stream aggregate. It
    knows only the add event, takes its identity from the first one it sees,
    and has no cap on the number of items. */
module TodoAggregate {
  import opened Wrappers
  import opened Errors
  import opened Uuids
  import opened Events

  datatype Todo = Todo(aggregateId: Uuid, version: int, uncommitted: seq<Event>)

  datatype AddTodoCommand = AddTodoCommand(aggregateId: Uuid, todoText: string)

  /** `NewTodoAggregate`. */
  function New(): (a: Todo)
    ensures a.aggregateId == Nil && a.version == 0 && a.uncommitted == []
  {
    Todo(Nil, 0, [])
  }

  /** `MarkEventsAsCommitted`. */
  function MarkEventsAsCommitted(a: Todo): (r: Todo)
    ensures r.uncommitted == [] && r.(uncommitted := a.uncommitted) == a
  {
    a.(uncommitted := [])
  }

  /** `applyEvent`: only the add event is known here; the creation event of
      the list aggregate is as foreign to this type as any other. */
  function Apply(a: Todo, e: Event, isNew: bool): (r: Step<Todo>)
    ensures r.failure.Some? <==> !e.TodoAdded?
    ensures !e.TodoAdded? ==> r == Step(a, Some(UnknownEventType(e)))
    ensures e.TodoAdded? ==> r.state.version == e.version
    ensures e.TodoAdded? ==> r.state.uncommitted == if isNew then a.uncommitted + [e] else a.uncommitted
    ensures e.TodoAdded? && a.aggregateId != Nil ==> r.state.aggregateId == a.aggregateId
    ensures e.TodoAdded? && a.aggregateId == Nil ==> r.state.aggregateId == e.aggregateId
  {
    if !e.TodoAdded? then Step(a, Some(UnknownEventType(e)))
    else
      var id := if a.aggregateId == Nil then e.aggregateId else a.aggregateId;
      Step(Todo(id, e.version, if isNew then a.uncommitted + [e] else a.uncommitted), None)
  }

  /** The longest prefix of add events. */
  function AddedPrefix(evs: seq<Event>): (k: seq<Event>)
    ensures |k| <= |evs| && k == evs[..|k|]
    ensures forall i :: 0 <= i < |k| ==> k[i].TodoAdded?
    ensures |k| < |evs| ==> !evs[|k|].TodoAdded?
  {
    if |evs| == 0 || !evs[0].TodoAdded? then [] else [evs[0]] + AddedPrefix(evs[1..])
  }

  /** `Hydration`: replay without buffering, stopping at the first event
      that is not an add. */
  function Hydrate(a: Todo, evs: seq<Event>): (r: Step<Todo>)
    ensures r.state.uncommitted == a.uncommitted
    ensures r.failure.None? <==> AddedPrefix(evs) == evs
    ensures r.failure.Some? ==>
      r.failure == Some(Wrapped("failed to apply event", UnknownEventType(evs[|AddedPrefix(evs)|])))
    decreases |evs|
  {
    if |evs| == 0 then Step(a, None)
    else
      var s := Apply(a, evs[0], false);
      if s.failure.Some? then Step(s.state, Some(Wrapped("failed to apply event", s.failure.value)))
      else
        assert AddedPrefix(evs) == [evs[0]] + AddedPrefix(evs[1..]);
        Hydrate(s.state, evs[1..])
  }

  /** Replay leaves the version at the last applied add event's, never
      changes an identity once set, and otherwise takes the first applied
      event's identity. */
  lemma {:induction false} HydrateMeaning(a: Todo, evs: seq<Event>)
    ensures var r := Hydrate(a, evs); var k := AddedPrefix(evs);
      && r.state.version == LastVersion(a.version, k)
      && (a.aggregateId != Nil ==> r.state.aggregateId == a.aggregateId)
      && (a.aggregateId == Nil && |k| > 0 && k[0].aggregateId != Nil ==> r.state.aggregateId == k[0].aggregateId)
    decreases |evs|
  {
    if |evs| > 0 && evs[0].TodoAdded? {
      var s := Apply(a, evs[0], false).state;
      var k := AddedPrefix(evs[1..]);
      HydrateMeaning(s, evs[1..]);
      assert AddedPrefix(evs) == [evs[0]] + k;
    }
  }

  /** `ExecuteAddTodoCommand`: never fails; the event carries no user ID. */
  function ExecuteAdd(a: Todo, cmd: AddTodoCommand, gen: Fresh): (r: Step<Todo>)
    ensures r.failure.None?
    ensures r.state.uncommitted == a.uncommitted + [TodoAdded(cmd.aggregateId, "", cmd.todoText, gen.eventId, gen.now, a.version + 1)]
    ensures r.state.version == a.version + 1
    ensures r.state.aggregateId == if a.aggregateId == Nil then cmd.aggregateId else a.aggregateId
  {
    Apply(a, TodoAdded(cmd.aggregateId, "", cmd.todoText, gen.eventId, gen.now, a.version + 1), true)
  }

  /** Unlike the list aggregate this one has no cap: n adds in a row all
      succeed and buffer n events. */
  lemma {:induction false} NoCap(a: Todo, cmds: seq<AddTodoCommand>, gens: seq<Fresh>)
    requires |cmds| == |gens|
    ensures var r := AddAll(a, cmds, gens);
      r.failure.None? && |r.state.uncommitted| == |a.uncommitted| + |cmds| && r.state.version == a.version + |cmds|
    decreases |cmds|
  {
    if |cmds| > 0 {
      NoCap(ExecuteAdd(a, cmds[0], gens[0]).state, cmds[1..], gens[1..]);
    }
  }

  /** Run add commands in order, stopping at the first failure. */
  function AddAll(a: Todo, cmds: seq<AddTodoCommand>, gens: seq<Fresh>): Step<Todo>
    requires |cmds| == |gens|
    decreases |cmds|
  {
    if |cmds| == 0 then Step(a, None)
    else
      var s := ExecuteAdd(a, cmds[0], gens[0]);
      if s.failure.Some? then s else AddAll(s.state, cmds[1..], gens[1..])
  }

  /** The buffer of a fresh aggregate replays to its committed state. */
  lemma {:induction false} ReplayRoundTrip(cmds: seq<AddTodoCommand>, gens: seq<Fresh>)
    requires |cmds| == |gens|
    ensures var r := AddAll(New(), cmds, gens).state;
      Hydrate(New(), r.uncommitted) == Step(MarkEventsAsCommitted(r), None)
  {
    AddAllReplays(New(), cmds, gens);
  }

  lemma {:induction false} AddAllReplays(a: Todo, cmds: seq<AddTodoCommand>, gens: seq<Fresh>)
    requires |cmds| == |gens|
    requires Hydrate(New(), a.uncommitted) == Step(MarkEventsAsCommitted(a), None)
    ensures var r := AddAll(a, cmds, gens).state;
      Hydrate(New(), r.uncommitted) == Step(MarkEventsAsCommitted(r), None)
    decreases |cmds|
  {
    if |cmds| > 0 {
      var s := ExecuteAdd(a, cmds[0], gens[0]).state;
      var e := s.uncommitted[|s.uncommitted| - 1];
      assert s.uncommitted == a.uncommitted + [e];
      HydrateAppend(New(), a.uncommitted, [e]);
      assert Hydrate(MarkEventsAsCommitted(a), [e]) == Step(Apply(MarkEventsAsCommitted(a), e, false).state, None);
      AddAllReplays(s, cmds[1..], gens[1..]);
    }
  }

  lemma {:induction false} HydrateAppend(a: Todo, x: seq<Event>, y: seq<Event>)
    ensures Hydrate(a, x + y) ==
      var s := Hydrate(a, x); if s.failure.Some? then s else Hydrate(s.state, y)
    decreases |x|
  {
    if |x| == 0 {
      assert x + y == y;
    } else {
      assert (x + y)[0] == x[0];
      assert (x + y)[1..] == x[1..] + y;
      var s := Apply(a, x[0], false);
      if s.failure.None? {
        HydrateAppend(s.state, x[1..], y);
      }
    }
  }

  /** A creation event stops this aggregate's replay. */
  lemma CreationEventIsUnknown(a: Todo, e: Event)
    requires e.TodoListCreated?
    ensures Hydrate(a, [e]).failure ==
      Some(Wrapped("failed to apply event", Message("unknown event type: " + "event.TodoListCreatedEvent")))
  {
    assert [e][0] == e;
    assert AddedPrefix([e]) == [];
    CreationTypeMessage(e);
  }

  lemma CreationTypeMessage(e: Event)
    requires e.TodoListCreated?
    ensures UnknownEventType(e) == Message("unknown event type: " + "event.TodoListCreatedEvent")
  {
    assert GoTypeName(e) == "event.TodoListCreatedEvent";
  }
}
