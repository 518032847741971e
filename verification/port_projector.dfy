/** internal/infrastructure/projector/todo/todo_projector.go: the projector
    behind the use-case port. It writes through a read-model store that can
    fail, deduplicates by event ID, and has no version check.

    The store is a value of type `S` read by `get` and written by `upsert`,
    which stand for `readmodelstore.TodoListStore`'s `Get` and `Upsert`. */
module PortProjector {
  import opened Wrappers
  import opened Errors
  import opened Uuids
  import opened Events
  import opened Views
  import EventBus
  import InMemProjector

  /** What the store's `Get` returns: a view (nil is `None`) and an error. */
  datatype Read = Read(view: Option<View>, err: Option<Error>)

  /** `TodoProjectorImpl`: the store and the IDs of the events handled. */
  datatype Projector<S> = Projector(store: S, seen: set<Uuid>)

  /** `NewTodoProjector`. */
  function New<S>(store: S): (p: Projector<S>)
    ensures p.store == store && p.seen == {}
  {
    Projector(store, {})
  }

  /** The view `Handle` goes on with after reading the store: a NotFound
      error means there is no view; any other error is returned. */
  function Current(r: Read): (c: Result<Option<View>, Error>)
    ensures r.err.None? ==> c == Ok(r.view)
    ensures r.err.Some? && HasCode(r.err.value, NotFound) ==> c == Ok(None)
    ensures r.err.Some? && !HasCode(r.err.value, NotFound) ==> c == Err(r.err.value)
  {
    if r.err.None? then Ok(r.view)
    else if HasCode(r.err.value, NotFound) then Ok(None)
    else Err(r.err.value)
  }

  /** The input on which `Handle` dereferences a nil view: a new add event
      for an aggregate the store has no view of. */
  predicate DerefsNil<S>(p: Projector<S>, e: Event, get: (S, string) -> Read) {
    && e.eventId !in p.seen
    && e.TodoAdded?
    && Current(get(p.store, e.aggregateId)) == Ok(None)
  }

  /** `applyToView` as written: an add event reads the items of the view it
      is given, so the view must be there. A creation event replaces
      whatever view there was with an empty one; an add event appends its
      text and takes its version whatever the view's version was; any other
      event leaves the view as it is. */
  function ApplyAsWritten(view: Option<View>, e: Event): (r: Option<View>)
    requires e.TodoAdded? ==> view.Some?
    ensures e.TodoListCreated? ==>
      r.Some? && r.value.items == [] && r.value.version == e.version
      && r.value.aggregateId == e.aggregateId && r.value.userId == e.userId
    ensures e.TodoAdded? ==>
      r.Some? && r.value.items == view.value.items + [e.todoText]
      && r.value.version == e.version && r.value.aggregateId == view.value.aggregateId
    ensures e.Foreign? ==> r == view
  {
    match e
    case TodoListCreated(_, _, _, _, _) => Some(Started(e))
    case TodoAdded(_, _, _, _, _, _) => Some(Appended(view.value, e))
    case Foreign(_, _, _, _, _, _) => view
  }

  /** `Handle` as written. The event is recorded as seen before anything
      can fail; other event types are ignored without touching the store;
      a store error other than NotFound is returned; the applied view is
      upserted and the upsert's error returned. */
  function HandleAsWritten<S>(p: Projector<S>, e: Event, get: (S, string) -> Read,
                              upsert: (S, string, View) -> Step<S>): (r: Step<Projector<S>>)
    requires !DerefsNil(p, e, get)
    ensures r.state.seen == p.seen + {e.eventId}
    ensures e.eventId in p.seen || e.Foreign? ==> r == Step(p.(seen := p.seen + {e.eventId}), None)
    ensures r.failure.Some? ==> e.eventId !in p.seen && !e.Foreign?
    ensures e.eventId !in p.seen && !e.Foreign? && Current(get(p.store, e.aggregateId)).Err? ==>
      r == Step(p.(seen := p.seen + {e.eventId}), Some(Current(get(p.store, e.aggregateId)).error))
    ensures e.eventId !in p.seen && !e.Foreign? && Current(get(p.store, e.aggregateId)).Ok? ==>
      var u := upsert(p.store, e.aggregateId, ApplyAsWritten(Current(get(p.store, e.aggregateId)).value, e).value);
      r == Step(Projector(u.state, p.seen + {e.eventId}), u.failure)
  {
    var marked := p.(seen := p.seen + {e.eventId});
    if e.eventId in p.seen || e.Foreign? then Step(marked, None)
    else
      var current := Current(get(p.store, e.aggregateId));
      if current.Err? then Step(marked, Some(current.error))
      else
        var updated := ApplyAsWritten(current.value, e);
        var u := upsert(p.store, e.aggregateId, updated.value);
        Step(marked.(store := u.state), u.failure)
  }

  /** The nil dereference is reachable: a store that answers NotFound for an
      unknown aggregate (as a store without the view does) and an add event
      for that aggregate. */
  lemma DerefIsReachable<S>(p: Projector<S>, e: Event, get: (S, string) -> Read)
    requires e.TodoAdded? && e.eventId !in p.seen
    requires get(p.store, e.aggregateId) == Read(None, Some(Errors.New(NotFound, "todo list not found")))
    ensures DerefsNil(p, e, get)
  {
  }

  const ErrListNotFound: Error := Errors.New(NotFound, "todo list not found")

  /** `Handle` with the nil view checked: an add event for a list the store
      has no view of is reported as NotFound and nothing is written. */
  function Handle<S>(p: Projector<S>, e: Event, get: (S, string) -> Read,
                     upsert: (S, string, View) -> Step<S>): (r: Step<Projector<S>>)
    ensures r.state.seen == p.seen + {e.eventId}
    ensures !DerefsNil(p, e, get) ==> r == HandleAsWritten(p, e, get, upsert)
    ensures DerefsNil(p, e, get) ==> r == Step(Projector(p.store, p.seen + {e.eventId}), Some(ErrListNotFound))
  {
    if DerefsNil(p, e, get) then Step(Projector(p.store, p.seen + {e.eventId}), Some(ErrListNotFound))
    else HandleAsWritten(p, e, get, upsert)
  }

  /** The NotFound answer is the one the package's handler tests expect
      for an add event without a view. */
  lemma MissingViewIsNotFound<S>(p: Projector<S>, e: Event, get: (S, string) -> Read,
                                 upsert: (S, string, View) -> Step<S>)
    requires DerefsNil(p, e, get)
    ensures var r := Handle(p, e, get, upsert);
      r.failure.Some? && HasCode(r.failure.value, NotFound) && ErrorString(r.failure.value) == "todo list not found"
      && r.state.store == p.store
  {
  }

  /** An event is handled at most once even when handling it failed: the
      second delivery is skipped with no error and no write, so a failed
      projection is never retried. */
  lemma FailureIsNotRetried<S>(p: Projector<S>, e: Event, get: (S, string) -> Read,
                               upsert: (S, string, View) -> Step<S>)
    ensures var r := Handle(p, e, get, upsert);
      Handle(r.state, e, get, upsert) == Step(r.state, None)
  {
    var r := Handle(p, e, get, upsert);
    assert e.eventId in r.state.seen;
  }

  /** No version check: a new add event whose version the view has already
      passed still appends its item. */
  lemma NoVersionGate<S>(p: Projector<S>, e: Event, v: View, get: (S, string) -> Read,
                         upsert: (S, string, View) -> Step<S>)
    requires e.TodoAdded? && e.eventId !in p.seen && e.version <= v.version
    requires get(p.store, e.aggregateId) == Read(Some(v), None)
    ensures upsert(p.store, e.aggregateId, Appended(v, e)).failure.None? ==>
      Handle(p, e, get, upsert) == Step(Projector(upsert(p.store, e.aggregateId, Appended(v, e)).state, p.seen + {e.eventId}), None)
  {
  }

  /** A store that is a plain map: `Get` answers NotFound for a missing
      view, `Upsert` always succeeds. */
  function MapGet(m: map<string, View>, id: string): (r: Read)
    ensures id in m ==> r == Read(Some(m[id]), None)
    ensures id !in m ==> r == Read(None, Some(ErrListNotFound))
  {
    if id in m then Read(Some(m[id]), None) else Read(None, Some(ErrListNotFound))
  }

  function MapUpsert(m: map<string, View>, id: string, v: View): (r: Step<map<string, View>>)
    ensures r == Step(m[id := v], None)
  {
    Step(m[id := v], None)
  }

  /** Over a map store, this projector and the in-memory one keep the same
      views and seen sets, event by event, unless an add event arrives with
      a version the view has already reached: there the in-memory one
      ignores the item and this one appends it. An add without a view
      leaves both unchanged, though only this one reports it. */
  lemma {:induction false} AgreesWithInMemory(p: Projector<map<string, View>>, q: InMemProjector.Projector, e: Event)
    requires p.store == q.views && p.seen == q.seen
    requires e.TodoAdded? && e.eventId !in p.seen && e.aggregateId in q.views ==> e.version > q.views[e.aggregateId].version
    ensures var r := Handle(p, e, MapGet, MapUpsert).state;
      var s := InMemProjector.Handle(q, e).state;
      r.store == s.views && r.seen == s.seen
  {
    if e.eventId !in p.seen && !e.Foreign? {
      assert InMemProjector.GetList(q, e.aggregateId) == MapGet(p.store, e.aggregateId).view;
    }
  }

  /** Where the two differ: the same stale add appends an item here and
      none in the in-memory projector. */
  lemma {:induction false} StaleAddDiverges(p: Projector<map<string, View>>, q: InMemProjector.Projector, e: Event)
    requires p.store == q.views && p.seen == q.seen
    requires e.TodoAdded? && e.eventId !in p.seen && e.aggregateId in q.views
    requires e.version <= q.views[e.aggregateId].version
    ensures var r := Handle(p, e, MapGet, MapUpsert).state;
      var s := InMemProjector.Handle(q, e).state;
      |r.store[e.aggregateId].items| == |s.views[e.aggregateId].items| + 1
  {
    assert InMemProjector.GetList(q, e.aggregateId) == Some(q.views[e.aggregateId]);
  }

  /** The subscriber `Start` registers on the bus. */
  datatype Subscriber = ProjectorHandler

  /** `Start`: subscribe `Handle`; always nil. */
  function Start(b: EventBus.Bus<Subscriber>): (r: (EventBus.Bus<Subscriber>, Option<Error>))
    ensures r.1.None?
    ensures r.0.handlers == b.handlers + [ProjectorHandler]
  {
    (EventBus.Subscribe(b, ProjectorHandler).0, None)
  }
}
