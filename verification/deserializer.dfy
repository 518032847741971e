/** The stored form of events and the registry that turns a stored row back
    into an event (internal/infrastructure/database/eventstore/deserializer).
    JSON is abstracted to a flat document holding every field either record
    type has; a field the encoded record lacks is the zero value, which is
    also what decoding into a record with that field would leave in place. */
module Deserializer {
  import opened Wrappers
  import opened Errors
  import opened Uuids
  import opened Events

  /** `event_data`: an encoded record, or bytes the decoder rejects with the
      given message. */
  datatype Payload =
    | Document(aggregateId: Uuid, eventId: Uuid, userId: string, todoText: string, timestamp: int, version: int)
    | Corrupt(reason: string)

  /** `json.Marshal(evt)`. For a foreign type only the fields every event
      exposes through its getters are kept. */
  function Marshal(e: Event): (p: Payload)
    ensures p.Document?
    ensures p.aggregateId == e.aggregateId && p.eventId == e.eventId
    ensures p.timestamp == e.timestamp && p.version == e.version
  {
    match e
    case TodoListCreated(id, user, eid, ts, v) => Document(id, eid, user, "", ts, v)
    case TodoAdded(id, user, text, eid, ts, v) => Document(id, eid, user, text, ts, v)
    case Foreign(_, _, id, eid, ts, v) => Document(id, eid, "", "", ts, v)
  }

  /** The two leaf deserializers. */
  datatype Decoder = CreatedDecoder | AddedDecoder

  /** A leaf deserializer's `EventType`. */
  function DecoderType(d: Decoder): string {
    match d
    case CreatedDecoder => CreatedEventType
    case AddedDecoder => AddedEventType
  }

  /** A leaf deserializer's `Deserialize`: `json.Unmarshal` into its record. */
  function Decode(d: Decoder, p: Payload): (r: Result<Event, Error>)
    ensures p.Corrupt? <==> r.Err?
    ensures p.Corrupt? ==> r == Err(Message(p.reason))
    ensures r.Ok? ==> EventType(r.value) == DecoderType(d)
    ensures r.Ok? ==> !r.value.Foreign? && r.value.aggregateId == p.aggregateId && r.value.eventId == p.eventId
    ensures r.Ok? ==> r.value.version == p.version && r.value.timestamp == p.timestamp && r.value.userId == p.userId
  {
    match p
    case Corrupt(reason) => Err(Message(reason))
    case Document(id, eid, user, text, ts, v) =>
      match d
      case CreatedDecoder => Ok(TodoListCreated(id, user, eid, ts, v))
      case AddedDecoder => Ok(TodoAdded(id, user, text, eid, ts, v))
  }

  /** `eventRegistry`: discriminator to deserializer. */
  type Registry = map<string, Decoder>

  /** `register`: keyed by the deserializer's own type, replacing any
      earlier entry for that key. */
  function Register(reg: Registry, d: Decoder): (r: Registry)
    ensures r.Keys == reg.Keys + {DecoderType(d)}
    ensures r[DecoderType(d)] == d
    ensures forall k :: k in reg && k != DecoderType(d) ==> r[k] == reg[k]
  {
    reg[DecoderType(d) := d]
  }

  /** `NewEventDeserializer`. */
  function NewRegistry(): (r: Registry)
    ensures r.Keys == {"TodoListCreatedEvent", "TodoAddedEvent"}
    ensures r["TodoListCreatedEvent"] == CreatedDecoder && r["TodoAddedEvent"] == AddedDecoder
  {
    Register(Register(map[], CreatedDecoder), AddedDecoder)
  }

  /** `Deserialize`: dispatch on the discriminator. */
  function Deserialize(reg: Registry, eventType: string, data: Payload): (r: Result<Event, Error>)
    ensures eventType !in reg ==> r == Err(Message("unknown event type: " + eventType))
    ensures eventType in reg ==> r == Decode(reg[eventType], data)
  {
    if eventType !in reg then Err(Message("unknown event type: " + eventType))
    else Decode(reg[eventType], data)
  }

  /** Each record type's discriminator is the key its deserializer is
      registered under. */
  lemma DiscriminatorsMatchRegistry(e: Event)
    requires !e.Foreign?
    ensures EventType(e) in NewRegistry()
    ensures DecoderType(NewRegistry()[EventType(e)]) == EventType(e)
  {
  }

  /** Storing a record and reading it back under its discriminator gives
      the same record. */
  lemma RoundTrip(e: Event)
    requires !e.Foreign?
    ensures Deserialize(NewRegistry(), EventType(e), Marshal(e)) == Ok(e)
  {
  }

  /** Registering a decoder twice under one key keeps only the later one. */
  lemma RegisterOverwrites(reg: Registry, d1: Decoder, d2: Decoder)
    requires DecoderType(d1) == DecoderType(d2)
    ensures Register(Register(reg, d1), d2) == Register(reg, d2)
  {
  }
}
