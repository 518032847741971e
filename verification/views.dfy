/** The read-model record both projectors build: `TodoListView` of
    internal/infrastructure/projector and of its `todo` package, and
    `dto.TodoListViewDTO`, which have the same fields. An item view holds
    only its text, so the items are kept as texts. Go stores these behind
    pointers and copies them on every read and write; as values the copies
    are the values themselves. */
module Views {
  import opened Events

  datatype View = View(aggregateId: string, userId: string, items: seq<string>, version: int, updatedAt: int)

  /** The view a creation event starts: no items, the event's version and
      time, its user and aggregate. */
  function Started(e: Event): (v: View)
    requires e.TodoListCreated?
    ensures v.aggregateId == e.aggregateId && v.userId == e.userId
    ensures v.items == [] && v.version == e.version && v.updatedAt == e.timestamp
  {
    View(e.aggregateId, e.userId, [], e.version, e.timestamp)
  }

  /** An add event applied to a view: one more item at the end, the event's
      version and time; owner fields kept. */
  function Appended(v: View, e: Event): (r: View)
    requires e.TodoAdded?
    ensures r.aggregateId == v.aggregateId && r.userId == v.userId
    ensures |r.items| == |v.items| + 1 && r.items[..|v.items|] == v.items && r.items[|v.items|] == e.todoText
    ensures r.version == e.version && r.updatedAt == e.timestamp
  {
    View(v.aggregateId, v.userId, v.items + [e.todoText], e.version, e.timestamp)
  }
}
