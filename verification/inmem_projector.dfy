/** internal/infrastructure/projector/inmemory_todo_projector.go: a read
    model kept in memory and fed by the event bus. Each event is handled at
    most once (by event ID); a creation event starts a view, an add event
    extends an existing view when its version is newer, and nothing the
    handler does returns an error. The mutex only serialises calls and is
    left out. */
module InMemProjector {
  import opened Wrappers
  import opened Errors
  import opened Uuids
  import opened Events
  import opened Views
  import EventBus
  import TodoListAggregate

  /** `InMemTodoProjector`: the views by aggregate ID and the IDs of the
      events already handled. The map never holds a nil view. */
  datatype Projector = Projector(views: map<string, View>, seen: set<Uuid>)

  /** `NewInMemTodoProjector`. */
  function New(): (p: Projector)
    ensures p.views == map[] && p.seen == {}
  {
    Projector(map[], {})
  }

  /** `applyToView`: `None` is the nil view. */
  function ApplyToView(view: Option<View>, e: Event): (r: Option<View>)
    ensures e.TodoListCreated? ==> r == Some(Started(e))
    ensures e.TodoAdded? && view.None? ==> r.None?
    ensures e.TodoAdded? && view.Some? && e.version <= view.value.version ==> r == view
    ensures e.TodoAdded? && view.Some? && e.version > view.value.version ==> r == Some(Appended(view.value, e))
    ensures e.Foreign? ==> r == view
  {
    match e
    case TodoListCreated(_, _, _, _, _) => Some(Started(e))
    case TodoAdded(_, _, _, _, _, _) =>
      if view.None? then None
      else if e.version <= view.value.version then view
      else Some(Appended(view.value, e))
    case Foreign(_, _, _, _, _, _) => view
  }

  /** `GetList`: a copy of the stored view, nil when there is none. */
  function GetList(p: Projector, aggregateId: string): (r: Option<View>)
    ensures r.Some? <==> aggregateId in p.views
  {
    if aggregateId in p.views then Some(p.views[aggregateId]) else None
  }

  /** The handler `Start` subscribes: skip an event already seen, otherwise
      record it as seen and store the applied view under the event's
      aggregate when it is not nil. It always returns nil. */
  function Handle(p: Projector, e: Event): (r: Step<Projector>)
    ensures r.failure.None?
    ensures r.state.seen == p.seen + {e.eventId}
    ensures e.eventId in p.seen ==> r.state == p
    ensures forall id :: id != e.aggregateId ==> GetList(r.state, id) == GetList(p, id)
    ensures e.eventId !in p.seen ==>
      var applied := ApplyToView(GetList(p, e.aggregateId), e);
      GetList(r.state, e.aggregateId) == if applied.Some? then applied else GetList(p, e.aggregateId)
  {
    if e.eventId in p.seen then Step(p, None)
    else
      var applied := ApplyToView(GetList(p, e.aggregateId), e);
      var views := if applied.Some? then p.views[e.aggregateId := applied.value] else p.views;
      Step(Projector(views, p.seen + {e.eventId}), None)
  }

  /** Redelivering an event changes nothing. */
  lemma HandleIdempotent(p: Projector, e: Event)
    ensures Handle(Handle(p, e).state, e) == Handle(p, e)
  {
  }

  /** An add event that arrives before its list's creation event is dropped
      but still recorded as seen, so delivering it again after the creation
      event does not add the item either. */
  lemma EarlyAddIsLost(p: Projector, created: Event, added: Event)
    requires created.TodoListCreated? && added.TodoAdded?
    requires added.aggregateId == created.aggregateId && added.eventId != created.eventId
    requires created.aggregateId !in p.views && added.eventId !in p.seen && created.eventId !in p.seen
    ensures var p1 := Handle(p, added).state;
      var p2 := Handle(p1, created).state;
      var p3 := Handle(p2, added).state;
      && GetList(p1, added.aggregateId).None?
      && GetList(p3, added.aggregateId) == Some(Started(created))
  {
  }

  /** Add events are applied by version, not by arrival: an older add that
      arrives after a newer one is ignored, so a gap in the versions is not
      detected and the older item never appears. */
  lemma OutOfOrderAddIsIgnored(p: Projector, older: Event, newer: Event)
    requires older.TodoAdded? && newer.TodoAdded?
    requires older.aggregateId == newer.aggregateId && older.eventId != newer.eventId
    requires older.eventId !in p.seen && newer.eventId !in p.seen
    requires GetList(p, newer.aggregateId).Some?
    requires GetList(p, newer.aggregateId).value.version < older.version < newer.version
    ensures var v := GetList(p, newer.aggregateId).value;
      GetList(Handle(Handle(p, newer).state, older).state, newer.aggregateId) == Some(Appended(v, newer))
  {
  }

  /** A second creation event for a list replaces its view: the items
      gathered so far are gone. */
  lemma RecreationResets(p: Projector, e: Event)
    requires e.TodoListCreated? && e.eventId !in p.seen
    ensures GetList(Handle(p, e).state, e.aggregateId) == Some(View(e.aggregateId, e.userId, [], e.version, e.timestamp))
  {
  }

  /** Events handled one after another, in order. */
  function Project(p: Projector, evs: seq<Event>): (r: Projector)
    decreases |evs|
  {
    if |evs| == 0 then p else Project(Handle(p, evs[0]).state, evs[1..])
  }

  lemma {:induction false} ProjectSnoc(p: Projector, evs: seq<Event>, e: Event)
    ensures Project(p, evs + [e]) == Handle(Project(p, evs), e).state
    decreases |evs|
  {
    if |evs| == 0 {
      assert evs + [e] == [e];
    } else {
      assert (evs + [e])[1..] == evs[1..] + [e];
      ProjectSnoc(Handle(p, evs[0]).state, evs[1..], e);
    }
  }

  /** The IDs of a list of events. */
  function EventIds(evs: seq<Event>): (ids: set<Uuid>)
    ensures forall k :: 0 <= k < |evs| ==> evs[k].eventId in ids
  {
    set k | 0 <= k < |evs| :: evs[k].eventId
  }

  /** The view a list's history produces. */
  function ViewOf(evs: seq<Event>): View
    requires |evs| > 0 && evs[0].TodoListCreated?
  {
    View(evs[0].aggregateId, evs[0].userId, AddedTexts(evs), evs[|evs| - 1].version, evs[|evs| - 1].timestamp)
  }

  /** Projecting every event of a list's history, none of them seen before,
      yields the view of that history: the owner from the creation event,
      one item per add event in log order, the last version and time. */
  lemma {:induction false} ProjectionOfHistory(p: Projector, id: Uuid, evs: seq<Event>, n: nat)
    requires ListHistory(id, evs)
    requires forall k :: 0 <= k < |evs| ==> evs[k].eventId !in p.seen
    requires 1 <= n <= |evs|
    ensures GetList(Project(p, evs[..n]), id) == Some(ViewOf(evs[..n]))
    ensures Project(p, evs[..n]).seen == p.seen + EventIds(evs[..n])
    decreases n
  {
    if n == 1 {
      assert evs[..1] == [evs[0]];
      assert AddedTexts([evs[0]]) == [];
    } else {
      ProjectionOfHistory(p, id, evs, n - 1);
      var before := evs[..n - 1];
      var e := evs[n - 1];
      assert evs[..n] == before + [e];
      ProjectSnoc(p, before, e);
      NotSeenBefore(evs, n - 1);
      EventIdsSnoc(before, e);
      ExtendView(ViewOf(before), before, e);
    }
  }

  /** A history's next event has an ID none of the earlier ones has. */
  lemma NotSeenBefore(evs: seq<Event>, n: nat)
    requires n < |evs|
    requires forall k, l :: 0 <= k < l < |evs| ==> evs[k].eventId != evs[l].eventId
    ensures evs[n].eventId !in EventIds(evs[..n])
  {
    forall k | 0 <= k < n ensures evs[..n][k].eventId != evs[n].eventId {
      assert evs[..n][k] == evs[k];
    }
  }

  lemma EventIdsSnoc(evs: seq<Event>, e: Event)
    ensures EventIds(evs + [e]) == EventIds(evs) + {e.eventId}
  {
    var all := evs + [e];
    forall x | x in EventIds(all) ensures x in EventIds(evs) + {e.eventId} {
      var k :| 0 <= k < |all| && all[k].eventId == x;
      if k < |evs| {
        assert all[k] == evs[k];
      }
    }
    forall x | x in EventIds(evs) ensures x in EventIds(all) {
      var k :| 0 <= k < |evs| && evs[k].eventId == x;
      assert all[k] == evs[k];
    }
    assert all[|evs|] == e;
  }

  /** One more add event, newer than the view, extends the history's view. */
  lemma ExtendView(v: View, before: seq<Event>, e: Event)
    requires |before| > 0 && before[0].TodoListCreated? && v == ViewOf(before)
    requires e.TodoAdded? && e.version > v.version
    ensures ApplyToView(Some(v), e) == Some(ViewOf(before + [e]))
  {
    AddedTextsAppend(before, [e]);
    assert AddedTexts([e]) == [e.todoText];
    assert (before + [e])[0] == before[0];
  }

  /** The projection agrees with replaying the same history on the
      aggregate: same items, same version. */
  lemma {:induction false} ProjectionMatchesReplay(p: Projector, id: Uuid, evs: seq<Event>)
    requires ListHistory(id, evs)
    requires forall k :: 0 <= k < |evs| ==> evs[k].eventId !in p.seen
    ensures var view := GetList(Project(p, evs), id);
      var agg := TodoListAggregate.Hydrate(TodoListAggregate.New(), evs);
      && agg.failure.None?
      && view.Some?
      && view.value.items == agg.state.items
      && view.value.version == agg.state.version
      && view.value.userId == evs[0].userId
  {
    ProjectionOfHistory(p, id, evs, |evs|);
    assert evs[..|evs|] == evs;
    KnownOnlyPrefix(evs);
    TodoListAggregate.HydrateMeaning(TodoListAggregate.New(), evs);
  }

  /** The subscriber `Start` registers on the bus. */
  datatype Subscriber = ProjectorHandler

  /** What calling the subscribed handler does: the projector is the state
      the handler changes. */
  function Deliver(p: Projector, h: Subscriber, e: Event): (r: Step<Projector>)
    ensures r == Handle(p, e)
  {
    Handle(p, e)
  }

  /** `Start`: subscribe the handler; the bus's answer is returned. */
  function Start(b: EventBus.Bus<Subscriber>): (r: (EventBus.Bus<Subscriber>, Option<Error>))
    ensures r.1.None?
    ensures r.0.handlers == b.handlers + [ProjectorHandler]
  {
    EventBus.Subscribe(b, ProjectorHandler)
  }

  /** Publishing on a bus the projector is subscribed to, however many
      times, projects the events in order and never fails. */
  lemma {:induction false} PublishProjects(p: Projector, b: EventBus.Bus<Subscriber>, events: seq<Event>)
    requires |b.handlers| > 0
    ensures var d := EventBus.Publish(p, b, events, Deliver);
      d.err.None? && d.world == Project(p, events)
  {
    PublishFromProjects(p, b.handlers, events, 0);
    assert events[0..] == events;
  }

  lemma {:induction false} PublishFromProjects(p: Projector, handlers: seq<Subscriber>, events: seq<Event>, i: nat)
    requires |handlers| > 0 && i <= |events|
    ensures var d := EventBus.PublishFrom(p, handlers, events, i, Deliver);
      d.err.None? && d.world == Project(p, events[i..])
    decreases |events| - i
  {
    if i < |events| {
      var e := events[i];
      OfferHandlesOnce(p, handlers, e, i, 0);
      var q := Handle(p, e).state;
      PublishFromProjects(q, handlers, events, i + 1);
      assert events[i..][1..] == events[i + 1..];
    }
  }

  /** Offering one event to several copies of the handler handles it once:
      the later copies see an event already seen. */
  lemma {:induction false} OfferHandlesOnce(p: Projector, handlers: seq<Subscriber>, e: Event, i: nat, j: nat)
    requires j < |handlers|
    ensures var d := EventBus.Offer(p, handlers, e, i, j, Deliver);
      d.err.None? && d.world == Handle(p, e).state
    decreases |handlers| - j
  {
    var q := Handle(p, e).state;
    if j + 1 < |handlers| {
      OfferHandlesOnce(q, handlers, e, i, j + 1);
      HandleIdempotent(p, e);
    }
  }
}
