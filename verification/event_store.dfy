/** internal/infrastructure/database/eventstore/event_store_impl.go over an
    abstract `events` table: rows are appended per aggregate, the pair
    (aggregate_id, version) is unique, and loads read an aggregate's rows in
    ascending version order. Driver failures are parameters. */
module EventStore {
  import opened Wrappers
  import opened Strings
  import opened Errors
  import opened Uuids
  import opened Events
  import opened Deserializer
  import opened Transaction

  /** One row of `events` for a given aggregate. `created_at` is written and
      scanned but never reaches an event, so it is left out. */
  datatype Row = Row(eventId: Uuid, eventType: string, data: Payload, version: int)

  /** Each aggregate's rows in insertion order. */
  type Table = map<Uuid, seq<Row>>

  function Rows(t: Table, id: Uuid): seq<Row> {
    if id in t then t[id] else []
  }

  /** No row has version `v`. */
  predicate Absent(rows: seq<Row>, v: int) {
    forall i :: 0 <= i < |rows| ==> rows[i].version != v
  }

  predicate AllBelow(rows: seq<Row>, v: int) {
    forall i :: 0 <= i < |rows| ==> rows[i].version < v
  }

  predicate AllAbove(rows: seq<Row>, v: int) {
    forall i :: 0 <= i < |rows| ==> rows[i].version > v
  }

  /** No two rows share a version: the unique key. */
  predicate DistinctVersions(rows: seq<Row>) {
    forall i, j :: 0 <= i < j < |rows| ==> rows[i].version != rows[j].version
  }

  predicate Ascending(rows: seq<Row>) {
    forall i, j :: 0 <= i < j < |rows| ==> rows[i].version < rows[j].version
  }

  /** A decodable row's payload agrees with its version column. */
  predicate Consistent(row: Row) {
    row.data.Document? ==> row.data.version == row.version
  }

  /** Every table `SaveEvents` can produce. */
  predicate ValidTable(t: Table) {
    forall id :: id in t ==> DistinctVersions(t[id]) && forall i :: 0 <= i < |t[id]| ==> Consistent(t[id][i])
  }

  // ---------------------------------------------------------------- saving

  /** The row `SaveEvents` writes for an event. */
  function RowOf(e: Event): (r: Row)
    ensures r.eventId == e.eventId && r.eventType == EventType(e) && r.version == e.version
    ensures r.data == Marshal(e) && Consistent(r)
  {
    Row(e.eventId, EventType(e), Marshal(e), e.version)
  }

  function RowsOf(evs: seq<Event>): (rows: seq<Row>)
    ensures |rows| == |evs|
    ensures forall i :: 0 <= i < |evs| ==> rows[i] == RowOf(evs[i])
  {
    if |evs| == 0 then [] else [RowOf(evs[0])] + RowsOf(evs[1..])
  }

  lemma RowsOfConcat(x: seq<Event>, y: seq<Event>)
    ensures RowsOf(x + y) == RowsOf(x) + RowsOf(y)
  {
    assert |RowsOf(x + y)| == |RowsOf(x) + RowsOf(y)|;
    forall k | 0 <= k < |x| + |y|
      ensures RowsOf(x + y)[k] == (RowsOf(x) + RowsOf(y))[k]
    {
      if k < |x| {
        assert (x + y)[k] == x[k];
      } else {
        assert (x + y)[k] == y[k - |x|];
      }
    }
  }

  /** MySQL's answer to a second row with the same (aggregate_id, version). */
  function DuplicateEntry(id: Uuid, v: int): (e: Error)
    ensures IsDuplicateEntry(e)
  {
    Driver(1062, "Duplicate entry '" + id + "-" + Decimal(v) + "' for key 'events.PRIMARY'")
  }

  /** One `INSERT` into the rows of aggregate `id`: a driver failure, a
      unique-key violation, or the row appended. */
  function Insert(rows: seq<Row>, id: Uuid, row: Row, fault: Option<Error>): (r: Result<seq<Row>, Error>)
    ensures fault.Some? ==> r == Err(fault.value)
    ensures fault.None? && !Absent(rows, row.version) ==> r == Err(DuplicateEntry(id, row.version))
    ensures r.Ok? <==> fault.None? && Absent(rows, row.version)
    ensures r.Ok? ==> r.value == rows + [row]
  {
    if fault.Some? then Err(fault.value)
    else if !Absent(rows, row.version) then Err(DuplicateEntry(id, row.version))
    else Ok(rows + [row])
  }

  /** `isDuplicateKeyError`: MySQL's duplicate-entry error anywhere on the
      chain counts, and so does any error whose lower-cased text contains
      "duplicate" or "constraint failed"; nothing else counts, so a text
      shorter than "duplicate" counts only through the driver error. */
  function IsDuplicateKey(err: Error): (b: bool)
    ensures IsDuplicateEntry(err) ==> b
    ensures Contains(ToLower(ErrorString(err)), "duplicate") || Contains(ToLower(ErrorString(err)), "constraint failed") ==> b
    ensures b ==> IsDuplicateEntry(err) || |ErrorString(err)| >= |"duplicate"|
  {
    var text := ToLower(ErrorString(err));
    ContainsLength(text, "duplicate");
    ContainsLength(text, "constraint failed");
    IsDuplicateEntry(err)
      || Contains(ToLower(ErrorString(err)), "duplicate")
      || Contains(ToLower(ErrorString(err)), "constraint failed")
  }

  /** The message of the conflict error. */
  function ConflictText(id: Uuid, v: int): string {
    "version conflict for aggregate " + id + " version " + Decimal(v)
  }

  /** How an insert failure is reported for the event at version `v`: a
      duplicate key becomes an optimistic-lock conflict whose text names
      the aggregate and version, anything else a repository error; the
      driver's error is what the result unwraps to. */
  function SaveError(id: Uuid, v: int, err: Error): (r: Error)
    ensures HasCode(r, OptimisticLock) <==> IsDuplicateKey(err)
    ensures HasCode(r, RepositoryError) <==> !IsDuplicateKey(err)
    ensures ErrorString(r) == if IsDuplicateKey(err) then ConflictText(id, v) else "failed to save event"
    ensures Unwrap(r) == Some(err)
  {
    if IsDuplicateKey(err) then Wrap(OptimisticLock, err, ConflictText(id, v))
    else Wrap(RepositoryError, err, "failed to save event")
  }

  /** A unique-key violation is reported as an optimistic-lock conflict
      naming the aggregate and version, anything else as a repository
      error; either way the driver's error stays reachable. */
  lemma SaveErrorClassifies(id: Uuid, v: int, err: Error)
    ensures var e := SaveError(id, v, err);
      && (IsDuplicateKey(err) ==> HasCode(e, OptimisticLock) && ErrorString(e) == ConflictText(id, v))
      && (!IsDuplicateKey(err) ==> HasCode(e, RepositoryError) && ErrorString(e) == "failed to save event")
      && Unwrap(e) == Some(err)
  {
  }

  /** The insert of `e`, the event at position `k` of the batch, into
      `rows` failed with the driver error `err`. */
  predicate StoppedAt(rows: seq<Row>, id: Uuid, e: Event, k: nat, faults: nat -> Option<Error>, err: Error) {
    Insert(rows, id, RowOf(e), faults(k)) == Err(err)
  }

  /** The insert loop over the batch `evs`, whose first event sits at
      position `base` of the whole batch: stop at the first failure with the
      driver's error, leaving the rows already inserted in place (the
      caller's transaction decides their fate). */
  function SaveRows(rows: seq<Row>, id: Uuid, evs: seq<Event>, base: nat, faults: nat -> Option<Error>): (r: Step<seq<Row>>)
    ensures |rows| <= |r.state| <= |rows| + |evs|
    ensures r.state[..|rows|] == rows
    ensures forall k :: |rows| <= k < |r.state| ==> r.state[k] == RowOf(evs[k - |rows|])
    ensures r.failure.None? <==> |r.state| == |rows| + |evs|
    decreases |evs|
  {
    if |evs| == 0 then Step(rows, None)
    else
      var ins := Insert(rows, id, RowOf(evs[0]), faults(base));
      if ins.Err? then Step(rows, Some(ins.error))
      else
        var rows' := rows + [RowOf(evs[0])];
        var r := SaveRows(rows', id, evs[1..], base + 1, faults);
        assert r.state[..|rows|] == rows' [..|rows|];
        r
  }

  /** The loop stops exactly at the first insert that fails, and reports
      that insert's failure. */
  lemma {:induction false} SaveRowsStops(rows: seq<Row>, id: Uuid, evs: seq<Event>, base: nat, faults: nat -> Option<Error>)
    ensures var r := SaveRows(rows, id, evs, base, faults); var n := |r.state| - |rows|;
      r.failure.Some? ==> n < |evs| && StoppedAt(r.state, id, evs[n], base + n, faults, r.failure.value)
    decreases |evs|
  {
    if |evs| > 0 {
      var r := SaveRows(rows, id, evs, base, faults);
      var ins := Insert(rows, id, RowOf(evs[0]), faults(base));
      if ins.Ok? {
        var rows' := rows + [RowOf(evs[0])];
        var r' := SaveRows(rows', id, evs[1..], base + 1, faults);
        assert r == r';
        SaveRowsStops(rows', id, evs[1..], base + 1, faults);
        if r.failure.Some? {
          var n' := |r'.state| - |rows'|;
          assert evs[1..][n'] == evs[n' + 1];
        }
      } else {
        assert r == Step(rows, Some(ins.error));
      }
    }
  }

  /** `SaveEvents`: every row is keyed by the `aggregateID` argument, not by
      the event's own aggregate ID. */
  function SaveEvents(ctx: Context, t: Table, id: Uuid, evs: seq<Event>, faults: nat -> Option<Error>): (r: Step<Table>)
    ensures ctx.tx.None? ==> r == Step(t, Some(ErrNoTx))
    ensures ctx.tx.Some? ==> var s := SaveRows(Rows(t, id), id, evs, 0, faults); var n := |s.state| - |Rows(t, id)|;
      && Rows(r.state, id) == s.state
      && (s.failure.None? ==> r.failure.None?)
      && (s.failure.Some? ==> n < |evs| && r.failure == Some(SaveError(id, evs[n].version, s.failure.value)))
    ensures forall other :: other != id ==> Rows(r.state, other) == Rows(t, other)
  {
    match GetTx(ctx)
    case Err(err) => Step(t, Some(err))
    case Ok(_) =>
      var s := SaveRows(Rows(t, id), id, evs, 0, faults);
      var n := |s.state| - |Rows(t, id)|;
      if s.failure.None? then Step(t[id := s.state], None)
      else Step(t[id := s.state], Some(SaveError(id, evs[n].version, s.failure.value)))
  }

  /** A save that succeeds appends one row per event, in order, after the
      aggregate's stored rows. */
  lemma SaveAppendsAll(ctx: Context, t: Table, id: Uuid, evs: seq<Event>, faults: nat -> Option<Error>)
    ensures var r := SaveEvents(ctx, t, id, evs, faults);
      r.failure.None? ==> Rows(r.state, id) == Rows(t, id) + RowsOf(evs)
  {
    var r := SaveEvents(ctx, t, id, evs, faults);
    if r.failure.None? {
      var s := SaveRows(Rows(t, id), id, evs, 0, faults);
      assert s.state == Rows(t, id) + RowsOf(evs);
    }
  }

  /** No driver failures. */
  function NoWriteFaults(): nat -> Option<Error> {
    _ => None
  }

  /** Appending versions above every stored one, in strictly ascending
      order and without driver failures, always succeeds. */
  lemma {:induction false} SaveFreshSucceeds(rows: seq<Row>, id: Uuid, evs: seq<Event>, base: nat)
    requires forall k :: 0 <= k < |evs| ==> AllBelow(rows, evs[k].version)
    requires forall k, l :: 0 <= k < l < |evs| ==> evs[k].version < evs[l].version
    ensures SaveRows(rows, id, evs, base, NoWriteFaults()).failure.None?
    decreases |evs|
  {
    if |evs| > 0 {
      assert AllBelow(rows, evs[0].version);
      var rows' := rows + [RowOf(evs[0])];
      var rest := evs[1..];
      forall k | 0 <= k < |rest| ensures AllBelow(rows', rest[k].version) {
        assert rest[k] == evs[k + 1];
        assert AllBelow(rows, evs[k + 1].version);
        forall a | 0 <= a < |rows'| ensures rows'[a].version < evs[k + 1].version {
          if a < |rows| {
            assert rows'[a] == rows[a];
          }
        }
      }
      forall k, l | 0 <= k < l < |rest| ensures rest[k].version < rest[l].version {
        assert rest[k] == evs[k + 1] && rest[l] == evs[l + 1];
      }
      SaveFreshSucceeds(rows', id, rest, base + 1);
    }
  }

  /** Whatever happens, the insert loop keeps the unique key and payloads
      that agree with their version column. */
  lemma {:induction false} SaveRowsKeepsValidity(rows: seq<Row>, id: Uuid, evs: seq<Event>, base: nat, faults: nat -> Option<Error>)
    requires DistinctVersions(rows) && forall a :: 0 <= a < |rows| ==> Consistent(rows[a])
    ensures var r := SaveRows(rows, id, evs, base, faults).state;
      DistinctVersions(r) && forall a :: 0 <= a < |r| ==> Consistent(r[a])
    decreases |evs|
  {
    if |evs| > 0 {
      var row := RowOf(evs[0]);
      if Insert(rows, id, row, faults(base)).Ok? {
        var rows' := rows + [row];
        forall a, b | 0 <= a < b < |rows'| ensures rows'[a].version != rows'[b].version {
          if b == |rows| {
            assert rows'[a] == rows[a];
          }
        }
        SaveRowsKeepsValidity(rows', id, evs[1..], base + 1, faults);
      }
    }
  }

  /** A save, successful or not, keeps the table valid. */
  lemma SavePreservesValidity(ctx: Context, t: Table, id: Uuid, evs: seq<Event>, faults: nat -> Option<Error>)
    requires ValidTable(t)
    ensures ValidTable(SaveEvents(ctx, t, id, evs, faults).state)
  {
    if ctx.tx.Some? {
      SaveRowsKeepsValidity(Rows(t, id), id, evs, 0, faults);
    }
  }

  // --------------------------------------------------------------- loading

  /** Stable insertion of one row into rows kept in version order. */
  function InsertSorted(rows: seq<Row>, r: Row): (out: seq<Row>)
    ensures |out| == |rows| + 1
    decreases |rows|
  {
    if |rows| == 0 then [r]
    else if r.version < rows[0].version then [r] + rows
    else [rows[0]] + InsertSorted(rows[1..], r)
  }

  lemma {:induction false} InsertSortedPermutes(rows: seq<Row>, r: Row)
    ensures multiset(InsertSorted(rows, r)) == multiset(rows) + multiset{r}
    decreases |rows|
  {
    if |rows| > 0 && r.version >= rows[0].version {
      InsertSortedPermutes(rows[1..], r);
      assert rows == [rows[0]] + rows[1..];
    }
  }

  /** Bounds on versions survive the insertion of a row within them. */
  lemma {:induction false} InsertSortedBounds(rows: seq<Row>, r: Row, v: int)
    ensures Absent(rows, v) && r.version != v ==> Absent(InsertSorted(rows, r), v)
    ensures AllBelow(rows, v) && r.version < v ==> AllBelow(InsertSorted(rows, r), v)
    ensures AllAbove(rows, v) && r.version > v ==> AllAbove(InsertSorted(rows, r), v)
    decreases |rows|
  {
    if |rows| > 0 && r.version >= rows[0].version {
      InsertSortedBounds(rows[1..], r, v);
      var rest := InsertSorted(rows[1..], r);
      assert InsertSorted(rows, r) == [rows[0]] + rest;
      assert forall k :: 1 <= k < |rows| ==> rows[1..][k - 1] == rows[k];
    }
  }

  lemma {:induction false} InsertSortedAscending(rows: seq<Row>, r: Row)
    requires Ascending(rows) && Absent(rows, r.version)
    ensures Ascending(InsertSorted(rows, r))
    decreases |rows|
  {
    if |rows| > 0 && r.version >= rows[0].version {
      assert r.version > rows[0].version;
      var rest := InsertSorted(rows[1..], r);
      InsertSortedAscending(rows[1..], r);
      assert AllAbove(rows[1..], rows[0].version);
      InsertSortedBounds(rows[1..], r, rows[0].version);
      assert InsertSorted(rows, r) == [rows[0]] + rest;
    }
  }

  lemma {:induction false} InsertSortedAppends(rows: seq<Row>, r: Row)
    requires AllBelow(rows, r.version)
    ensures InsertSorted(rows, r) == rows + [r]
    decreases |rows|
  {
    if |rows| > 0 {
      InsertSortedAppends(rows[1..], r);
      assert rows == [rows[0]] + rows[1..];
    }
  }

  /** `ORDER BY version ASC`, as an insertion sort: a permutation of the
      aggregate's rows. */
  function SortRows(rows: seq<Row>): (out: seq<Row>)
    ensures |out| == |rows|
    decreases |rows|
  {
    if |rows| == 0 then []
    else InsertSorted(SortRows(rows[..|rows| - 1]), rows[|rows| - 1])
  }

  /** The sort is a permutation of the aggregate's rows. */
  lemma {:induction false} SortRowsPermutes(rows: seq<Row>)
    ensures multiset(SortRows(rows)) == multiset(rows)
    decreases |rows|
  {
    if |rows| > 0 {
      var init := rows[..|rows| - 1];
      var last := rows[|rows| - 1];
      SortRowsPermutes(init);
      InsertSortedPermutes(SortRows(init), last);
      assert rows == init + [last];
      assert multiset(rows) == multiset(init) + multiset{last};
    }
  }

  /** Sorting a sequence with one more row inserts that row into the sorted
      rest. */
  lemma SortRowsSnoc(rows: seq<Row>, r: Row)
    ensures SortRows(rows + [r]) == InsertSorted(SortRows(rows), r)
  {
    assert (rows + [r])[..|rows|] == rows;
  }

  lemma {:induction false} SortRowsBounds(rows: seq<Row>, v: int)
    ensures Absent(rows, v) ==> Absent(SortRows(rows), v)
    ensures AllBelow(rows, v) ==> AllBelow(SortRows(rows), v)
    decreases |rows|
  {
    if |rows| > 0 {
      var init := rows[..|rows| - 1];
      SortRowsBounds(init, v);
      InsertSortedBounds(SortRows(init), rows[|rows| - 1], v);
    }
  }

  /** With the unique key in place, the sort yields strictly ascending
      versions. */
  lemma {:induction false} SortRowsAscending(rows: seq<Row>)
    requires DistinctVersions(rows)
    ensures Ascending(SortRows(rows))
    decreases |rows|
  {
    if |rows| > 0 {
      var init := rows[..|rows| - 1];
      var last := rows[|rows| - 1];
      assert DistinctVersions(init);
      SortRowsAscending(init);
      assert Absent(init, last.version);
      SortRowsBounds(init, last.version);
      InsertSortedAscending(SortRows(init), last);
    }
  }

  /** Rows appended above every stored version come out last, in order. */
  lemma {:induction false} SortAppendFresh(rows: seq<Row>, extra: seq<Row>)
    requires forall k :: 0 <= k < |extra| ==> AllBelow(rows, extra[k].version)
    requires Ascending(extra)
    ensures SortRows(rows + extra) == SortRows(rows) + extra
    decreases |extra|
  {
    if |extra| == 0 {
      assert rows + extra == rows;
    } else {
      var init := extra[..|extra| - 1];
      var last := extra[|extra| - 1];
      assert rows + extra == (rows + init) + [last];
      SortRowsSnoc(rows + init, last);
      assert forall k :: 0 <= k < |init| ==> init[k] == extra[k];
      SortAppendFresh(rows, init);
      assert AllBelow(rows, last.version);
      assert AllBelow(init, last.version);
      var sorted := SortRows(rows) + init;
      AppendBelow(rows, init, last.version);
      InsertSortedAppends(sorted, last);
      assert sorted + [last] == SortRows(rows) + extra;
    }
  }

  /** The sorted stored rows followed by the earlier fresh rows are all
      below a later fresh row. */
  lemma AppendBelow(rows: seq<Row>, init: seq<Row>, v: int)
    requires AllBelow(rows, v) && AllBelow(init, v)
    ensures AllBelow(SortRows(rows) + init, v)
  {
    SortRowsBounds(rows, v);
    var sorted := SortRows(rows) + init;
    forall a | 0 <= a < |sorted| ensures sorted[a].version < v {
      if a >= |SortRows(rows)| {
        assert sorted[a] == init[a - |SortRows(rows)|];
      }
    }
  }

  /** Rows already in version order are left as they are. */
  lemma AscendingSortsToItself(rows: seq<Row>)
    requires Ascending(rows)
    ensures SortRows(rows) == rows
  {
    SortAppendFresh([], rows);
    assert [] + rows == rows;
  }

  /** Driver failures while reading: the query itself, `Scan` of the i-th
      row, and `rows.Next` giving up after `stop.0` rows with `stop.1`. */
  datatype ReadFaults = ReadFaults(query: Option<Error>, scan: nat -> Option<Error>, stop: Option<(nat, Error)>)

  function NoReadFaults(): ReadFaults {
    ReadFaults(None, _ => None, None)
  }

  /** How many rows the cursor yields. */
  function Visible(f: ReadFaults, n: nat): (k: nat)
    ensures k <= n
    ensures f.stop.None? ==> k == n
  {
    if f.stop.Some? && f.stop.value.0 < n then f.stop.value.0 else n
  }

  function DecodeRow(reg: Registry, row: Row): Result<Event, Error> {
    Deserialize(reg, row.eventType, row.data)
  }

  /** The scan-and-decode loop from row `i` on. */
  function ScanRows(rows: seq<Row>, i: nat, reg: Registry, scan: nat -> Option<Error>): (r: Result<seq<Event>, Error>)
    requires i <= |rows|
    ensures r.Ok? ==> |r.value| == |rows| - i
    ensures r.Ok? ==> forall k :: 0 <= k < |r.value| ==> DecodeRow(reg, rows[i + k]) == Ok(r.value[k])
    ensures r.Err? ==> HasCode(r.error, QueryError)
    decreases |rows| - i
  {
    if i == |rows| then Ok([])
    else if scan(i).Some? then Err(Wrap(QueryError, scan(i).value, "failed to scan event row"))
    else
      match DecodeRow(reg, rows[i])
      case Err(err) => Err(Wrap(QueryError, err, "failed to deserialize event " + rows[i].eventType))
      case Ok(e) =>
        match ScanRows(rows, i + 1, reg, scan)
        case Err(err) => Err(err)
        case Ok(rest) => Ok([e] + rest)
  }

  /** The scan succeeds exactly when every remaining row scans and
      decodes. */
  lemma {:induction false} ScanSucceedsIff(rows: seq<Row>, i: nat, reg: Registry, scan: nat -> Option<Error>)
    requires i <= |rows|
    ensures ScanRows(rows, i, reg, scan).Ok? <==> forall k :: i <= k < |rows| ==> scan(k).None? && DecodeRow(reg, rows[k]).Ok?
    decreases |rows| - i
  {
    if i < |rows| {
      ScanSucceedsIff(rows, i + 1, reg, scan);
      var r := ScanRows(rows, i, reg, scan);
      if scan(i).Some? {
        assert r.Err?;
      } else if DecodeRow(reg, rows[i]).Err? {
        assert r.Err?;
      } else {
        assert r.Ok? <==> ScanRows(rows, i + 1, reg, scan).Ok?;
      }
    }
  }

  /** `LoadEvents` with the store's deserializer `reg`. */
  function LoadEvents(ctx: Context, reg: Registry, t: Table, id: Uuid, f: ReadFaults): (r: Result<seq<Event>, Error>)
    ensures ctx.tx.None? ==> r == Err(ErrNoTx)
    ensures ctx.tx.Some? && f.query.Some? ==> r == Err(Wrap(QueryError, f.query.value, "failed to load events"))
    ensures r.Ok? ==> |r.value| > 0
    ensures r.Ok? ==> var rows := SortRows(Rows(t, id));
      |r.value| == |rows| && forall k :: 0 <= k < |rows| ==> DecodeRow(reg, rows[k]) == Ok(r.value[k])
    ensures r.Err? ==> r.error == ErrNoTx || HasCode(r.error, QueryError) || HasCode(r.error, NotFound)
    ensures ctx.tx.Some? && f.query.None? && f.stop.None? && Rows(t, id) == [] ==>
      r == Err(New(NotFound, "todo list not found"))
  {
    match GetTx(ctx)
    case Err(err) => Err(err)
    case Ok(_) =>
      if f.query.Some? then Err(Wrap(QueryError, f.query.value, "failed to load events"))
      else
        var rows := SortRows(Rows(t, id));
        var visible := rows[..Visible(f, |rows|)];
        match ScanRows(visible, 0, reg, f.scan)
        case Err(err) => Err(err)
        case Ok(evs) =>
          if f.stop.Some? && f.stop.value.0 <= |rows| then Err(Wrap(QueryError, f.stop.value.1, "rows iteration error"))
          else if |evs| == 0 then Err(New(NotFound, "todo list not found"))
          else
            assert visible == rows;
            Ok(evs)
  }

  /** On a valid table, a load yields strictly ascending versions. */
  lemma LoadIsOrdered(ctx: Context, reg: Registry, t: Table, id: Uuid, f: ReadFaults)
    requires ValidTable(t)
    requires LoadEvents(ctx, reg, t, id, f).Ok?
    ensures var evs := LoadEvents(ctx, reg, t, id, f).value;
      forall i, j :: 0 <= i < j < |evs| ==> evs[i].version < evs[j].version
  {
    var evs := LoadEvents(ctx, reg, t, id, f).value;
    var stored := Rows(t, id);
    var rows := SortRows(stored);
    SortRowsAscending(stored);
    SortRowsPermutes(stored);
    forall k | 0 <= k < |rows| ensures evs[k].version == rows[k].version {
      assert rows[k] in multiset(stored);
      var j :| 0 <= j < |stored| && stored[j] == rows[k];
      assert Consistent(stored[j]);
      assert DecodeRow(reg, rows[k]) == Ok(evs[k]);
    }
  }

  /** Stored rows of known events decode back to the events. */
  lemma {:induction false} ScanStored(evs: seq<Event>, i: nat)
    requires i <= |evs|
    requires forall k :: 0 <= k < |evs| ==> !evs[k].Foreign?
    ensures ScanRows(RowsOf(evs), i, NewRegistry(), NoReadFaults().scan) == Ok(evs[i..])
    decreases |evs| - i
  {
    if i < |evs| {
      RoundTrip(evs[i]);
      ScanStored(evs, i + 1);
      assert evs[i..] == [evs[i]] + evs[i + 1..];
    }
  }

  /** Strictly ascending versions, as a writer that bumps the version by
      one per event produces them. */
  predicate VersionsAscend(evs: seq<Event>) {
    forall i, j :: 0 <= i < j < |evs| ==> evs[i].version < evs[j].version
  }

  /** A stored history the deserializer can read back: events of the two
      registered types in ascending version order. */
  predicate Readable(evs: seq<Event>) {
    (forall k :: 0 <= k < |evs| ==> !evs[k].Foreign?) && VersionsAscend(evs)
  }

  /** Appending events whose versions continue the stored history in
      ascending order succeeds and stores exactly their rows after it. */
  lemma SaveAscending(ctx: Context, t: Table, id: Uuid, history: seq<Event>, evs: seq<Event>)
    requires ctx.tx.Some?
    requires Rows(t, id) == RowsOf(history)
    requires VersionsAscend(history + evs)
    ensures var r := SaveEvents(ctx, t, id, evs, NoWriteFaults());
      r.failure.None? && Rows(r.state, id) == RowsOf(history + evs)
  {
    var all := history + evs;
    var stored := RowsOf(history);
    forall k | 0 <= k < |evs| ensures AllBelow(stored, evs[k].version) {
      forall a | 0 <= a < |stored| ensures stored[a].version < evs[k].version {
        assert all[a] == history[a] && all[|history| + k] == evs[k];
      }
    }
    forall k, l | 0 <= k < l < |evs| ensures evs[k].version < evs[l].version {
      assert all[|history| + k] == evs[k] && all[|history| + l] == evs[l];
    }
    SaveFreshSucceeds(stored, id, evs, 0);
    SaveAppendsAll(ctx, t, id, evs, NoWriteFaults());
    RowsOfConcat(history, evs);
    var r := SaveEvents(ctx, t, id, evs, NoWriteFaults());
    assert Rows(r.state, id) == stored + RowsOf(evs);
  }

  /** A load without read faults returns whatever scanning the sorted rows
      yields, when that is not empty. */
  lemma LoadClean(ctx: Context, reg: Registry, t: Table, id: Uuid, all: seq<Event>)
    requires ctx.tx.Some?
    requires Rows(t, id) == RowsOf(all)
    requires ScanRows(SortRows(RowsOf(all)), 0, reg, NoReadFaults().scan) == Ok(all)
    requires |all| > 0
    ensures LoadEvents(ctx, reg, t, id, NoReadFaults()) == Ok(all)
  {
    TakeAll(SortRows(Rows(t, id)));
  }

  /** Loading an aggregate whose stored rows are those of known events in
      ascending version order gives the events back. */
  lemma LoadStored(ctx: Context, t: Table, id: Uuid, all: seq<Event>)
    requires ctx.tx.Some?
    requires Rows(t, id) == RowsOf(all)
    requires Readable(all) && |all| > 0
    ensures LoadEvents(ctx, NewRegistry(), t, id, NoReadFaults()) == Ok(all)
  {
    ScanSortedStored(all);
    LoadClean(ctx, NewRegistry(), t, id, all);
  }

  lemma ScanSortedStored(all: seq<Event>)
    requires Readable(all)
    ensures ScanRows(SortRows(RowsOf(all)), 0, NewRegistry(), NoReadFaults().scan) == Ok(all)
  {
    SortStored(all);
    ScanStored(all, 0);
    DropNone(all);
  }

  /** Rows of events in ascending version order are already sorted. */
  lemma SortStored(all: seq<Event>)
    requires VersionsAscend(all)
    ensures SortRows(RowsOf(all)) == RowsOf(all)
  {
    assert Ascending(RowsOf(all));
    AscendingSortsToItself(RowsOf(all));
  }

  lemma DropNone<T>(s: seq<T>)
    ensures s[0..] == s
  {
  }

  lemma TakeAll<T>(s: seq<T>)
    ensures s[..|s|] == s
  {
  }

  /** Round trip: appending known events with ascending versions above the
      stored history and loading the aggregate back yields the history
      followed by the new events, in order. */
  lemma SaveThenLoad(ctx: Context, t: Table, id: Uuid, history: seq<Event>, evs: seq<Event>)
    requires ctx.tx.Some?
    requires Rows(t, id) == RowsOf(history)
    requires Readable(history + evs)
    requires |history| + |evs| > 0
    ensures SaveEvents(ctx, t, id, evs, NoWriteFaults()).failure.None?
    ensures LoadEvents(ctx, NewRegistry(), SaveEvents(ctx, t, id, evs, NoWriteFaults()).state, id, NoReadFaults()) == Ok(history + evs)
  {
    SaveAscending(ctx, t, id, history, evs);
    LoadStored(ctx, SaveEvents(ctx, t, id, evs, NoWriteFaults()).state, id, history + evs);
  }

  /** Two writers that loaded the same history both try to append the next
      version; the second insert hits the unique key and comes back as an
      optimistic-lock conflict, leaving the first writer's row in place. */
  lemma ConcurrentAppendConflicts(ctx: Context, t: Table, id: Uuid, e1: Event, e2: Event)
    requires ctx.tx.Some?
    requires Absent(Rows(t, id), e1.version)
    requires e2.version == e1.version
    ensures var t1 := SaveEvents(ctx, t, id, [e1], NoWriteFaults());
      var t2 := SaveEvents(ctx, t1.state, id, [e2], NoWriteFaults());
      && t1.failure.None?
      && Rows(t2.state, id) == Rows(t1.state, id)
      && t2.failure == Some(Wrap(OptimisticLock, DuplicateEntry(id, e1.version), ConflictText(id, e1.version)))
  {
    var t1 := SaveEvents(ctx, t, id, [e1], NoWriteFaults());
    var rows := Rows(t, id);
    assert [e1][0..1] == [e1];
    assert Rows(t1.state, id) == rows + [RowOf(e1)];
    assert Rows(t1.state, id)[|rows|].version == e2.version;
    assert !Absent(Rows(t1.state, id), e2.version);
  }

  /** A list's history is readable back from the store: known types,
      ascending versions. */
  lemma HistoryReadable(id: Uuid, evs: seq<Event>)
    requires ListHistory(id, evs)
    ensures Readable(evs)
  {
  }
}
