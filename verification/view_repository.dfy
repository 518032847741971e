/** internal/infrastructure/projector/todo/inmemory_repository.go: views by
    aggregate ID in a map. `Get` and `Save` copy, so no caller can alter a
    stored view through a pointer it holds; as values that isolation is
    automatic, and what remains is a map whose entries may be nil (`Save`
    of a nil view stores nil). None of the operations fails. */
module ViewRepository {
  import opened Wrappers
  import opened Errors
  import opened Views

  /** `InMemoryTodoListViewRepository`: `None` is a stored nil. */
  datatype Repository = Repository(data: map<string, Option<View>>)

  /** `NewInMemoryTodoListViewRepository`. */
  function New(): (r: Repository)
    ensures r.data == map[]
  {
    Repository(map[])
  }

  /** `Get`: a copy of the stored view; nil for a missing key and for a
      stored nil alike. */
  function Get(r: Repository, aggregateId: string): (v: Option<View>)
    ensures v.Some? <==> aggregateId in r.data && r.data[aggregateId].Some?
  {
    if aggregateId in r.data then r.data[aggregateId] else None
  }

  /** `Save`: store a copy, replacing whatever was there; always nil. */
  function Save(r: Repository, aggregateId: string, view: Option<View>): (res: (Repository, Option<Error>))
    ensures res.1.None?
    ensures res.0.data.Keys == r.data.Keys + {aggregateId}
  {
    (Repository(r.data[aggregateId := view]), None)
  }

  /** `Delete`: remove the entry, present or not; always nil. */
  function Delete(r: Repository, aggregateId: string): (res: (Repository, Option<Error>))
    ensures res.1.None?
    ensures res.0.data.Keys == r.data.Keys - {aggregateId}
  {
    (Repository(r.data - {aggregateId}), None)
  }

  /** A saved view reads back as saved; no other key changes. */
  lemma SaveThenGet(r: Repository, id: string, view: Option<View>, other: string)
    ensures Get(Save(r, id, view).0, id) == view
    ensures other != id ==> Get(Save(r, id, view).0, other) == Get(r, other)
  {
  }

  /** A deleted view reads as nil; no other key changes. */
  lemma DeleteThenGet(r: Repository, id: string, other: string)
    ensures Get(Delete(r, id).0, id).None?
    ensures other != id ==> Get(Delete(r, id).0, other) == Get(r, other)
  {
  }

  /** Saving nil and deleting are indistinguishable through `Get`. */
  lemma SaveNilIsDelete(r: Repository, id: string, other: string)
    ensures Get(Save(r, id, None).0, other) == Get(Delete(r, id).0, other)
  {
  }

  /** The last save to a key wins. */
  lemma SaveOverwrites(r: Repository, id: string, v1: Option<View>, v2: Option<View>)
    ensures Save(Save(r, id, v1).0, id, v2) == Save(r, id, v2)
  {
    assert r.data[id := v1][id := v2] == r.data[id := v2];
  }
}
