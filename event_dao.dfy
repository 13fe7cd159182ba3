/** The event store of the Android app (schema version 4 on): the `Event`
    entity, its table, and the DAO with its selections, the flag update, the
    delete by primary key and the transactional batch insert. */
module EventStore {
  import opened Wrappers
  import opened Schema

  /** A row of the `event` table. An `id` of 0 means "not assigned yet": Room
      lets SQLite choose the id when it inserts such an event. */
  datatype Event = Event(
    deviceID: int,
    eventID: int,
    timestamp: string,
    eventType: string,
    details: string,
    id: int,
    uploaded: bool)

  /** The entity constructor: the five given fields, id 0, not uploaded. */
  function NewEvent(deviceID: int, eventID: int, timestamp: string, eventType: string, details: string): (e: Event)
    ensures e.deviceID == deviceID && e.eventID == eventID && e.timestamp == timestamp
    ensures e.eventType == eventType && e.details == details
    ensures e.id == 0 && !e.uploaded
  {
    Event(deviceID, eventID, timestamp, eventType, details, 0, false)
  }

  /** The table Room derives from the entity: every column NOT NULL, `id` the
      primary key, the flag stored as an integer. */
  const EventTable := Table(
    map[
      "id" := ColumnInfo(Integer, true, 1),
      "device_id" := ColumnInfo(Integer, true, 0),
      "event_id" := ColumnInfo(Integer, true, 0),
      "timestamp" := ColumnInfo(Text, true, 0),
      "type" := ColumnInfo(Text, true, 0),
      "details" := ColumnInfo(Text, true, 0),
      "uploaded" := ColumnInfo(Integer, true, 0)],
    {})

  /** How an event is written to its row. */
  function ToRow(e: Event): (row: Row)
    ensures Conforms(row, EventTable)
  {
    map[
      "id" := IntValue(e.id),
      "device_id" := IntValue(e.deviceID),
      "event_id" := IntValue(e.eventID),
      "timestamp" := TextValue(e.timestamp),
      "type" := TextValue(e.eventType),
      "details" := TextValue(e.details),
      "uploaded" := IntValue(if e.uploaded then 1 else 0)]
  }

  predicate RowShaped(row: Row)
  {
    Conforms(row, EventTable) &&
    row["id"].IntValue? && row["device_id"].IntValue? && row["event_id"].IntValue? &&
    row["timestamp"].TextValue? && row["type"].TextValue? && row["details"].TextValue? &&
    row["uploaded"].IntValue?
  }

  /** How a row is read back; `None` for a row without the entity's shape. */
  function FromRow(row: Row): (e: Option<Event>)
  {
    if RowShaped(row) then
      Some(Event(row["device_id"].i, row["event_id"].i, row["timestamp"].t, row["type"].t,
                 row["details"].t, row["id"].i, row["uploaded"].i != 0))
    else None
  }

  /** Reading back what was written gives the event again. */
  lemma RowRoundTrip(e: Event)
    ensures FromRow(ToRow(e)) == Some(e)
  {
    var row := ToRow(e);
    assert RowShaped(row);
  }

  function IdOf(e: Event): int { e.id }

  datatype InsertError = PrimaryKeyViolation

  /** The table invariant: no row has id 0, every id lies below the
      AUTOINCREMENT counter, and ids are distinct. */
  predicate ValidTable(rows: seq<Event>, nextId: int)
  {
    1 <= nextId &&
    (forall i :: 0 <= i < |rows| ==> rows[i].id != 0 && rows[i].id < nextId) &&
    Injective(rows, IdOf)
  }

  predicate HasId(rows: seq<Event>, id: int)
  {
    exists i :: 0 <= i < |rows| && rows[i].id == id
  }

  /** One row of an `@Insert`: an id of 0 takes the counter's value; an
      explicit id already present violates the primary key. The result is the
      new table and counter. */
  function InsertOne(rows: seq<Event>, nextId: int, e: Event): (r: Result<(seq<Event>, int), InsertError>)
    ensures r.Err? <==> e.id != 0 && HasId(rows, e.id)
    ensures r.Ok? ==> r.value.0 == rows + [e.(id := if e.id == 0 then nextId else e.id)]
    ensures r.Ok? ==> r.value.1 >= nextId
  {
    if e.id != 0 && HasId(rows, e.id) then Err(PrimaryKeyViolation)
    else
      var id := if e.id == 0 then nextId else e.id;
      Ok((rows + [e.(id := id)], if id >= nextId then id + 1 else nextId))
  }

  /** The rows of `insertAll(events)` inserted one after the other; the first
      failure is the result of the whole batch. */
  function InsertMany(rows: seq<Event>, nextId: int, events: seq<Event>): (r: Result<(seq<Event>, int), InsertError>)
    ensures r.Ok? ==> |r.value.0| == |rows| + |events| && r.value.1 >= nextId
    decreases |events|
  {
    if events == [] then Ok((rows, nextId))
    else
      match InsertMany(rows, nextId, events[..|events| - 1])
      case Err(e) => Err(e)
      case Ok(st) => InsertOne(st.0, st.1, events[|events| - 1])
  }

  /** A single insert keeps the table invariant. */
  lemma InsertOneValid(rows: seq<Event>, nextId: int, e: Event)
    requires ValidTable(rows, nextId)
    requires InsertOne(rows, nextId, e).Ok?
    ensures ValidTable(InsertOne(rows, nextId, e).value.0, InsertOne(rows, nextId, e).value.1)
  {
    var id := if e.id == 0 then nextId else e.id;
    var r := rows + [e.(id := id)];
    forall i, j | 0 <= i < j < |r| ensures IdOf(r[i]) != IdOf(r[j]) {
      if j == |rows| {
        assert r[i] == rows[i];
        if e.id != 0 {
          assert !HasId(rows, e.id);
        }
      }
    }
  }

  /** A batch keeps the table invariant. */
  lemma {:induction false} InsertManyValid(rows: seq<Event>, nextId: int, events: seq<Event>)
    requires ValidTable(rows, nextId)
    requires InsertMany(rows, nextId, events).Ok?
    ensures ValidTable(InsertMany(rows, nextId, events).value.0, InsertMany(rows, nextId, events).value.1)
    decreases |events|
  {
    if events != [] {
      var prefix := events[..|events| - 1];
      InsertManyValid(rows, nextId, prefix);
      var st := InsertMany(rows, nextId, prefix).value;
      InsertOneValid(st.0, st.1, events[|events| - 1]);
    }
  }

  /** A successful batch appends one row per event, in order, keeping the old
      rows in front; each new row is its event with the id filled in (an
      explicit id is kept) and the event's own flag. */
  lemma {:induction false} InsertManyAppends(rows: seq<Event>, nextId: int, events: seq<Event>)
    requires InsertMany(rows, nextId, events).Ok?
    ensures var out := InsertMany(rows, nextId, events).value.0;
      |out| == |rows| + |events| && out[..|rows|] == rows &&
      forall k :: 0 <= k < |events| ==>
        out[|rows| + k] == events[k].(id := out[|rows| + k].id) &&
        (events[k].id != 0 ==> out[|rows| + k].id == events[k].id)
    decreases |events|
  {
    if events != [] {
      var prefix := events[..|events| - 1];
      InsertManyAppends(rows, nextId, prefix);
      var st := InsertMany(rows, nextId, prefix).value;
      var out := InsertMany(rows, nextId, events).value.0;
      assert out == st.0 + [out[|out| - 1]];
      forall k | 0 <= k < |events|
        ensures out[|rows| + k] == events[k].(id := out[|rows| + k].id)
        ensures events[k].id != 0 ==> out[|rows| + k].id == events[k].id
      {
        if k < |prefix| {
          assert out[|rows| + k] == st.0[|rows| + k];
          assert events[k] == prefix[k];
        }
      }
      assert out[..|rows|] == st.0[..|rows|];
    }
  }

  /** Inserting the same event with an explicit id twice in one batch fails. */
  lemma DuplicateInBatchFails(rows: seq<Event>, nextId: int, e: Event)
    requires e.id != 0
    ensures InsertMany(rows, nextId, [e, e]).Err?
  {
    assert [e, e][..1] == [e];
    assert [e][..0] == [];
    assert InsertMany(rows, nextId, []) == Ok((rows, nextId));
    var one := InsertMany(rows, nextId, [e]);
    assert one == InsertOne(rows, nextId, e);
    if one.Ok? {
      assert one.value.0[|rows|] == e;
      assert HasId(one.value.0, e.id);
    }
  }

  /** `UPDATE event SET uploaded = 1 WHERE id = :id` on a table: only the
      flag of a row can change, and afterwards a row is uploaded exactly when
      it was before or its id is that one. */
  function MarkUploaded(rows: seq<Event>, id: int): (r: seq<Event>)
    ensures |r| == |rows|
    ensures forall i :: 0 <= i < |rows| ==> r[i] == rows[i].(uploaded := r[i].uploaded)
    ensures forall i :: 0 <= i < |rows| ==> (r[i].uploaded <==> rows[i].uploaded || rows[i].id == id)
  {
    seq(|rows|, i requires 0 <= i < |rows| =>
      if rows[i].id == id then rows[i].(uploaded := true) else rows[i])
  }

  /** Marking changes only the flag, only of the row with that id, and only
      towards true; an unknown id changes nothing. */
  lemma MarkUploadedOnlyThatEvent(rows: seq<Event>, id: int)
    ensures forall i :: 0 <= i < |rows| ==>
      MarkUploaded(rows, id)[i].(uploaded := rows[i].uploaded) == rows[i] &&
      (MarkUploaded(rows, id)[i].uploaded <==> rows[i].uploaded || rows[i].id == id)
    ensures !HasId(rows, id) ==> MarkUploaded(rows, id) == rows
  {
  }

  /** `DELETE FROM event WHERE id = ?` on a table: the rows with another id,
      in their order. Deleting keeps ids distinct. */
  function DeleteById(rows: seq<Event>, id: int): (r: seq<Event>)
    ensures forall x :: x in r <==> x in rows && x.id != id
    ensures Injective(rows, IdOf) ==> Injective(r, IdOf)
    ensures !HasId(rows, id) ==> r == rows
  {
    var p := (x: Event) => x.id != id;
    assert Injective(rows, IdOf) ==> Injective(Filter(rows, p), IdOf) by {
      if Injective(rows, IdOf) {
        FilterInjective(rows, p, IdOf);
      }
    }
    assert !HasId(rows, id) ==> Filter(rows, p) == rows by {
      if !HasId(rows, id) {
        FilterAll(rows, p);
      }
    }
    Filter(rows, p)
  }

  /** The event ids of some rows, in order. */
  function EventIds(s: seq<Event>): (r: seq<int>)
    ensures |r| == |s|
    ensures forall i :: 0 <= i < |s| ==> r[i] == s[i].eventID
  {
    if s == [] then [] else [s[0].eventID] + EventIds(s[1..])
  }

  /** Narrowing a device's rows to the ones not uploaded keeps each event id
      at most as often as the device's rows hold it. */
  lemma {:induction false} NarrowedIds(s: seq<Event>, deviceID: int)
    ensures multiset(EventIds(Filter(s, (x: Event) => x.deviceID == deviceID && !x.uploaded)))
         <= multiset(EventIds(Filter(s, (x: Event) => x.deviceID == deviceID)))
  {
    if s != [] {
      NarrowedIds(s[1..], deviceID);
    }
  }

  /** Every row a selection takes contributes its event id. */
  lemma EventIdsCover(rows: seq<Event>, p: Event -> bool)
    ensures forall x :: x in rows && p(x) ==> x.eventID in EventIds(Filter(rows, p))
  {
    var c := Filter(rows, p);
    forall x | x in rows && p(x) ensures x.eventID in EventIds(c) {
      var k :| 0 <= k < |rows| && rows[k] == x;
      var i :| 0 <= i < |c| && c[i] == x;
      assert EventIds(c)[i] == x.eventID;
    }
  }

  /** Narrowing a device's rows to the uploaded ones keeps each event id at
      most as often as the device's rows hold it. */
  lemma {:induction false} UploadedIds(s: seq<Event>, deviceID: int)
    ensures multiset(EventIds(Filter(s, (x: Event) => x.uploaded && x.deviceID == deviceID)))
         <= multiset(EventIds(Filter(s, (x: Event) => x.deviceID == deviceID)))
  {
    if s != [] {
      UploadedIds(s[1..], deviceID);
    }
  }

  /** The DAO together with the table it owns, in storage order, and the
      AUTOINCREMENT counter of the table as Room creates it for the entity
      (a table made by `MIGRATION_3_4` has none; ids there follow the largest
      id present). */
  class EventDao {
    var rows: seq<Event>
    var nextId: int

    ghost predicate Valid()
      reads this
    {
      ValidTable(rows, nextId)
    }

    constructor ()
      ensures Valid() && rows == [] && nextId == 1
    {
      rows := [];
      nextId := 1;
    }

    /** The DAO over the rows read from an opened file, with the counter
        restored. */
    constructor Load(rows: seq<Event>, nextId: int)
      requires ValidTable(rows, nextId)
      ensures Valid() && this.rows == rows && this.nextId == nextId
    {
      this.rows := rows;
      this.nextId := nextId;
    }

    /** `getAllForDevice`: the rows of one device. */
    function GetAllForDevice(deviceID: int): (r: seq<Event>)
      reads this
      ensures forall x :: x in r <==> x in rows && x.deviceID == deviceID
    {
      Filter(rows, (x: Event) => x.deviceID == deviceID)
    }

    /** `getDeviceEvents` runs the same selection as `getAllForDevice`. */
    function GetDeviceEvents(deviceID: int): (r: seq<Event>)
      reads this
      ensures r == GetAllForDevice(deviceID)
    {
      Filter(rows, (x: Event) => x.deviceID == deviceID)
    }

    /** `getOneNotUploaded`: a row not uploaded whose id is not excluded, or
        `None` when there is no such row. `LIMIT 1` without `ORDER BY` takes
        the first such row in storage order. */
    function GetOneNotUploaded(excludeIDs: seq<int>): (r: Option<Event>)
      reads this
      ensures r.Some? ==> r.value in rows && !r.value.uploaded && r.value.id !in excludeIDs
      ensures r.None? <==> forall x :: x in rows ==> x.uploaded || x.id in excludeIDs
    {
      var c := Filter(rows, (x: Event) => !x.uploaded && x.id !in excludeIDs);
      if c == [] then None else Some(c[0])
    }

    /** `getSimilarToUpload`: the rows not uploaded with that device, type and
        details. */
    function GetSimilarToUpload(deviceID: int, eventType: string, details: string): (r: seq<Event>)
      reads this
      ensures forall x :: x in r <==>
        x in rows && x.deviceID == deviceID && x.eventType == eventType && x.details == details && !x.uploaded
    {
      Filter(rows, (x: Event) => x.deviceID == deviceID && x.eventType == eventType && x.details == details && !x.uploaded)
    }

    /** `getDeviceEvent`: one row with that device and event id, or `None`
        when there is none. */
    function GetDeviceEvent(deviceID: int, eventID: int): (r: Option<Event>)
      reads this
      ensures r.Some? ==> r.value in rows && r.value.deviceID == deviceID && r.value.eventID == eventID
      ensures r.None? <==> forall x :: x in rows ==> !(x.deviceID == deviceID && x.eventID == eventID)
    {
      var c := Filter(rows, (x: Event) => x.deviceID == deviceID && x.eventID == eventID);
      if c == [] then None else Some(c[0])
    }

    /** `getDeviceEventIDs`: the event id of every row of one device. */
    function GetDeviceEventIDs(deviceID: int): (r: seq<int>)
      reads this
      ensures forall n :: n in r <==> exists x :: x in rows && x.deviceID == deviceID && x.eventID == n
    {
      EventIdsCover(rows, (x: Event) => x.deviceID == deviceID);
      EventIds(Filter(rows, (x: Event) => x.deviceID == deviceID))
    }

    /** `getDeviceEventIDsNotUploaded`: the event ids of one device's rows not
        yet uploaded; a sub-multiset of the device's event ids. */
    function GetDeviceEventIDsNotUploaded(deviceID: int): (r: seq<int>)
      reads this
      ensures forall n :: n in r ==> exists x :: x in rows && x.deviceID == deviceID && !x.uploaded && x.eventID == n
      ensures forall x :: x in rows && x.deviceID == deviceID && !x.uploaded ==> x.eventID in r
      ensures multiset(r) <= multiset(GetDeviceEventIDs(deviceID))
    {
      NarrowedIds(rows, deviceID);
      EventIdsCover(rows, (x: Event) => x.deviceID == deviceID && !x.uploaded);
      EventIds(Filter(rows, (x: Event) => x.deviceID == deviceID && !x.uploaded))
    }

    /** `getEventsToUpload`: exactly the rows not yet uploaded. */
    function GetEventsToUpload(): (r: seq<Event>)
      reads this
      ensures forall x :: x in r <==> x in rows && !x.uploaded
    {
      Filter(rows, (x: Event) => !x.uploaded)
    }

    /** `getUploadedFromDevice`: the event ids of one device's uploaded rows. */
    function GetUploadedFromDevice(deviceID: int): (r: seq<int>)
      reads this
      ensures forall n :: n in r ==> exists x :: x in rows && x.deviceID == deviceID && x.uploaded && x.eventID == n
      ensures forall x :: x in rows && x.deviceID == deviceID && x.uploaded ==> x.eventID in r
      ensures multiset(r) <= multiset(GetDeviceEventIDs(deviceID))
    {
      UploadedIds(rows, deviceID);
      EventIdsCover(rows, (x: Event) => x.uploaded && x.deviceID == deviceID);
      EventIds(Filter(rows, (x: Event) => x.uploaded && x.deviceID == deviceID))
    }

    /** `getAllEvents` (and the observed `getEventLiveData`): every row. */
    function GetAllEvents(): (r: seq<Event>)
      reads this
      ensures r == rows
    {
      rows
    }

    /** `setAsUploaded`: the row with that id becomes uploaded; nothing else
        changes. */
    method SetAsUploaded(id: int)
      requires Valid()
      modifies this
      ensures Valid() && nextId == old(nextId)
      ensures rows == MarkUploaded(old(rows), id)
    {
      var r := MarkUploaded(rows, id);
      assert forall i :: 0 <= i < |rows| ==> IdOf(r[i]) == IdOf(rows[i]);
      rows := r;
    }

    /** `delete(event)`: removes the row whose primary key equals the event's
        id; the other fields of the argument play no part. */
    method Delete(event: Event)
      requires Valid()
      modifies this
      ensures Valid() && nextId == old(nextId)
      ensures rows == DeleteById(old(rows), event.id)
    {
      rows := DeleteById(rows, event.id);
    }

    /** `insertAll(events)`: inside one transaction, the events are inserted in
        order; if any of them violates the primary key, the transaction rolls
        back and the table and counter are as before. */
    method InsertAll(events: seq<Event>) returns (result: Result<(), InsertError>)
      requires Valid()
      modifies this
      ensures Valid()
      ensures match InsertMany(old(rows), old(nextId), events)
        case Ok(st) => result.Ok? && rows == st.0 && nextId == st.1
        case Err(e) => result == Err(e) && rows == old(rows) && nextId == old(nextId)
    {
      var work := rows;
      var counter := nextId;
      var i := 0;
      while i < |events|
        invariant 0 <= i <= |events|
        invariant rows == old(rows) && nextId == old(nextId)
        invariant InsertMany(rows, nextId, events[..i]) == Ok((work, counter))
        invariant ValidTable(work, counter)
      {
        assert events[..i + 1][..i] == events[..i];
        var e := events[i];
        if e.id != 0 && HasId(work, e.id) {
          InsertManyFailureSticks(rows, nextId, events, i + 1);
          return Err(PrimaryKeyViolation);
        }
        InsertOneValid(work, counter, e);
        var id := if e.id == 0 then counter else e.id;
        work := work + [e.(id := id)];
        if id >= counter {
          counter := id + 1;
        }
        i := i + 1;
      }
      assert events[..i] == events;
      rows, nextId := work, counter;
      result := Ok(());
    }
  }

  /** Once a prefix of the batch fails, the whole batch fails the same way. */
  lemma {:induction false} InsertManyFailureSticks(rows: seq<Event>, nextId: int, events: seq<Event>, n: nat)
    requires n <= |events|
    requires InsertMany(rows, nextId, events[..n]).Err?
    ensures InsertMany(rows, nextId, events) == InsertMany(rows, nextId, events[..n])
    decreases |events| - n
  {
    if n < |events| {
      assert events[..n + 1][..n] == events[..n];
      InsertManyFailureSticks(rows, nextId, events, n + 1);
    } else {
      assert events[..n] == events;
    }
  }

  /** Deleting the primary key of the first row of a table whose ids are
      distinct removes just that row. */
  lemma {:induction false} DeleteFirst(rows: seq<Event>)
    requires rows != [] && Injective(rows, IdOf)
    ensures DeleteById(rows, rows[0].id) == rows[1..]
  {
    var p := (x: Event) => x.id != rows[0].id;
    assert forall i :: 0 <= i < |rows[1..]| ==> p(rows[1..][i]) by {
      forall i | 0 <= i < |rows[1..]| ensures p(rows[1..][i]) {
        assert rows[1..][i] == rows[i + 1];
        assert IdOf(rows[0]) != IdOf(rows[i + 1]);
      }
    }
    FilterAll(rows[1..], p);
  }
}
