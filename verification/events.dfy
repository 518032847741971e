/** internal/domain/event: the two event records behind the `event.Event`
    interface, and what the rest of the core reads off a list of them. */
module Events {
  import opened Wrappers
  import opened Errors
  import opened Uuids

  /** One value per event. The getters `GetAggregateID`, `GetEventID`,
      `GetTimestamp` and `GetVersion` are the shared destructors below.
      `Foreign` stands for any other Go type implementing `event.Event`
      (a `*TodoAddedEvent`, say): the type switches of the aggregates and
      projectors send it to their default branch. Timestamps are opaque clock
      readings. */
  datatype Event =
    | TodoListCreated(aggregateId: Uuid, userId: string, eventId: Uuid, timestamp: int, version: int)
    | TodoAdded(aggregateId: Uuid, userId: string, todoText: string, eventId: Uuid, timestamp: int, version: int)
    | Foreign(goType: string, eventType: string, aggregateId: Uuid, eventId: Uuid, timestamp: int, version: int)

  const CreatedEventType: string := "TodoListCreatedEvent"
  const AddedEventType: string := "TodoAddedEvent"

  /** `GetEventType`: the discriminator stored with the event. */
  function EventType(e: Event): string {
    match e
    case TodoListCreated(_, _, _, _, _) => CreatedEventType
    case TodoAdded(_, _, _, _, _, _) => AddedEventType
    case Foreign(_, t, _, _, _, _) => t
  }

  /** What `fmt`'s `%T` prints for the event's dynamic type. */
  function GoTypeName(e: Event): string {
    match e
    case TodoListCreated(_, _, _, _, _) => "event.TodoListCreatedEvent"
    case TodoAdded(_, _, _, _, _, _) => "event.TodoAddedEvent"
    case Foreign(t, _, _, _, _, _) => t
  }

  /** The two record types have constant, different discriminators. */
  lemma DiscriminatorsDistinct(e1: Event, e2: Event)
    ensures e1.TodoListCreated? ==> EventType(e1) == "TodoListCreatedEvent"
    ensures e1.TodoAdded? ==> EventType(e1) == "TodoAddedEvent"
    ensures e1.TodoListCreated? && e2.TodoAdded? ==> EventType(e1) != EventType(e2)
  {
  }

  /** The `fmt.Errorf("unknown event type: %T", evt)` of both aggregates. */
  function UnknownEventType(e: Event): Error {
    Message("unknown event type: " + GoTypeName(e))
  }

  /** Fresh values the source draws from `uuid.New()` and `time.Now()`. */
  datatype Fresh = Fresh(aggregateId: Uuid, eventId: Uuid, now: int)

  /** A Go method that mutates its receiver and returns an error: the
      receiver's state afterwards, and the error if there was one. */
  datatype Step<S> = Step(state: S, failure: Option<Error>)

  /** The longest prefix of `evs` holding only the two record types. */
  function KnownPrefix(evs: seq<Event>): (k: seq<Event>)
    ensures |k| <= |evs| && k == evs[..|k|]
    ensures forall i :: 0 <= i < |k| ==> !k[i].Foreign?
    ensures |k| < |evs| ==> evs[|k|].Foreign?
  {
    if |evs| == 0 || evs[0].Foreign? then [] else [evs[0]] + KnownPrefix(evs[1..])
  }

  /** The texts of the add events, in log order. */
  function AddedTexts(evs: seq<Event>): (texts: seq<string>)
    ensures |texts| <= |evs|
  {
    if |evs| == 0 then []
    else (if evs[0].TodoAdded? then [evs[0].todoText] else []) + AddedTexts(evs[1..])
  }

  lemma {:induction false} AddedTextsAppend(x: seq<Event>, y: seq<Event>)
    ensures AddedTexts(x + y) == AddedTexts(x) + AddedTexts(y)
    decreases |x|
  {
    if |x| == 0 {
      assert x + y == y;
    } else {
      var xy := x + y;
      assert xy[0] == x[0];
      assert xy[1..] == x[1..] + y;
      AddedTextsAppend(x[1..], y);
      var head := if x[0].TodoAdded? then [x[0].todoText] else [];
      assert AddedTexts(xy) == head + AddedTexts(x[1..] + y);
      assert AddedTexts(x) == head + AddedTexts(x[1..]);
      assert head + (AddedTexts(x[1..]) + AddedTexts(y)) == (head + AddedTexts(x[1..])) + AddedTexts(y);
    }
  }

  /** The version of the last event, or `v0` when there is none. */
  function LastVersion(v0: int, evs: seq<Event>): int {
    if |evs| == 0 then v0 else evs[|evs| - 1].version
  }

  /** The events of one list as the store hands them out: the creation
      event at version 1, then add events at versions 2, 3, …, all with
      distinct IDs. */
  predicate ListHistory(id: Uuid, evs: seq<Event>) {
    && |evs| > 0
    && evs[0].TodoListCreated?
    && (forall k :: 1 <= k < |evs| ==> evs[k].TodoAdded?)
    && (forall k :: 0 <= k < |evs| ==> evs[k].aggregateId == id && evs[k].version == k + 1)
    && (forall k, l :: 0 <= k < l < |evs| ==> evs[k].eventId != evs[l].eventId)
  }

  /** A log of known events is its own known prefix. */
  lemma {:induction false} KnownOnlyPrefix(evs: seq<Event>)
    requires forall k :: 0 <= k < |evs| ==> !evs[k].Foreign?
    ensures KnownPrefix(evs) == evs
    decreases |evs|
  {
    if |evs| > 0 {
      KnownOnlyPrefix(evs[1..]);
    }
  }

  /** Every event after a history's first is an add, so its texts are one
      fewer than its events. */
  lemma {:induction false} HistoryTexts(id: Uuid, evs: seq<Event>)
    requires ListHistory(id, evs)
    ensures |AddedTexts(evs)| == |evs| - 1
  {
    AllAddsTexts(evs[1..]);
  }

  lemma {:induction false} AllAddsTexts(evs: seq<Event>)
    requires forall k :: 0 <= k < |evs| ==> evs[k].TodoAdded?
    ensures |AddedTexts(evs)| == |evs|
    decreases |evs|
  {
    if |evs| > 0 {
      AllAddsTexts(evs[1..]);
    }
  }

  /** The next add event of a list, one version up and with a new ID,
      extends its history. */
  lemma HistoryExtends(id: Uuid, evs: seq<Event>, e: Event)
    requires ListHistory(id, evs)
    requires e.TodoAdded? && e.aggregateId == id && e.version == |evs| + 1
    requires forall k :: 0 <= k < |evs| ==> evs[k].eventId != e.eventId
    ensures ListHistory(id, evs + [e])
  {
    var all := evs + [e];
    forall k | 0 <= k < |all| ensures all[k].aggregateId == id && all[k].version == k + 1 {
      if k < |evs| {
        assert all[k] == evs[k];
      }
    }
    forall k | 1 <= k < |all| ensures all[k].TodoAdded? {
      if k < |evs| {
        assert all[k] == evs[k];
      }
    }
    forall k, l | 0 <= k < l < |all| ensures all[k].eventId != all[l].eventId {
      assert all[k] == evs[k];
      if l < |evs| {
        assert all[l] == evs[l];
      }
    }
  }
}
