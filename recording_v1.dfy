/** Version 1 of the Android recording store: the `Recording` entity without
    group name or device id, its table, and the DAO that inserts, deletes and
    selects rows. */
module RecordingV1 {
  import opened Wrappers
  import opened Schema

  /** A row of the version-1 `recording` table. `id` is absent until the
      store assigns one; `size` is absent until someone sets it. */
  datatype Recording = Recording(
    id: Option<int>,
    deviceName: string,
    recordingPath: string,
    uploaded: bool,
    size: Option<int>,
    name: string)

  /** The entity constructor: the three given fields, nothing uploaded yet,
      no id and no size. */
  function NewRecording(deviceName: string, recordingPath: string, name: string): (r: Recording)
    ensures r.deviceName == deviceName && r.recordingPath == recordingPath && r.name == name
    ensures !r.uploaded && r.id.None? && r.size.None?
  {
    Recording(None, deviceName, recordingPath, false, None, name)
  }

  /** `getRecording` hands back the entity itself. */
  function GetRecording(r: Recording): (s: Recording)
    ensures s == r
  {
    r
  }

  /** The table Room derives from the version-1 entity. */
  const RecordingTable := Table(
    map[
      "id" := ColumnInfo(Integer, false, 1),
      "device_name" := ColumnInfo(Text, true, 0),
      "recording_path" := ColumnInfo(Text, true, 0),
      "uploaded" := ColumnInfo(Integer, true, 0),
      "size" := ColumnInfo(Integer, false, 0),
      "name" := ColumnInfo(Text, true, 0)],
    {"recording_path"})

  function OptInt(v: Option<int>): Value
  {
    if v.Some? then IntValue(v.value) else Null
  }

  /** How an entity is written to its row; booleans are stored as 0 or 1. */
  function ToRow(r: Recording): (row: Row)
    ensures Conforms(row, RecordingTable)
  {
    map[
      "id" := OptInt(r.id),
      "device_name" := TextValue(r.deviceName),
      "recording_path" := TextValue(r.recordingPath),
      "uploaded" := IntValue(if r.uploaded then 1 else 0),
      "size" := OptInt(r.size),
      "name" := TextValue(r.name)]
  }

  /** How a row is read back into an entity; `None` for a row that does not
      have the entity's shape. */
  function FromRow(row: Row): (r: Option<Recording>)
  {
    if RowShaped(row) then
      Some(Recording(
        if row["id"].IntValue? then Some(row["id"].i) else None,
        row["device_name"].t,
        row["recording_path"].t,
        row["uploaded"].i != 0,
        if row["size"].IntValue? then Some(row["size"].i) else None,
        row["name"].t))
    else None
  }

  predicate RowShaped(row: Row)
  {
    Conforms(row, RecordingTable) &&
    row["device_name"].TextValue? && row["recording_path"].TextValue? &&
    row["uploaded"].IntValue? && row["name"].TextValue?
  }

  /** Reading back what was written gives the entity again. */
  lemma RowRoundTrip(r: Recording)
    ensures FromRow(ToRow(r)) == Some(r)
  {
    var row := ToRow(r);
    assert RowShaped(row);
  }

  /** The version-1 table has neither of the columns version 3 added. */
  lemma NoGroupOrDeviceColumns()
    ensures "group_name" !in RecordingTable.columns && "device_id" !in RecordingTable.columns
    ensures RecordingTable.uniqueColumns == {"recording_path"}
  {
  }

  function IdOf(r: Recording): Option<int> { r.id }

  function PathOf(r: Recording): string { r.recordingPath }

  /** The id as a number for the counter; a row without an id counts as 0. */
  function IdNumber(r: Recording): int { if r.id.Some? then r.id.value else 0 }

  /** The table invariant: every row has an id below the counter, ids are
      distinct, and `recording_path` is unique. */
  predicate ValidTable(rows: seq<Recording>, nextId: int)
  {
    1 <= nextId &&
    (forall i :: 0 <= i < |rows| ==> rows[i].id.Some? && rows[i].id.value < nextId) &&
    Injective(rows, IdOf) && Injective(rows, PathOf)
  }

  datatype InsertError = PrimaryKeyViolation | UniqueConstraintViolation

  /** The rows whose id equals `id` under SQL equality: a null id matches no row. */
  predicate IdMatches(r: Recording, id: Option<int>)
  {
    id.Some? && r.id == id
  }

  /** `DELETE FROM recording WHERE id = :id` on a table: the rows with
      another id, in their order. Deleting keeps ids and paths distinct. */
  function DeleteById(rows: seq<Recording>, id: Option<int>): (r: seq<Recording>)
    ensures forall x :: x in r <==> x in rows && !IdMatches(x, id)
    ensures Injective(rows, IdOf) ==> Injective(r, IdOf)
    ensures Injective(rows, PathOf) ==> Injective(r, PathOf)
  {
    var p := (x: Recording) => !IdMatches(x, id);
    assert Injective(rows, IdOf) ==> Injective(Filter(rows, p), IdOf) by {
      if Injective(rows, IdOf) {
        FilterInjective(rows, p, IdOf);
      }
    }
    assert Injective(rows, PathOf) ==> Injective(Filter(rows, p), PathOf) by {
      if Injective(rows, PathOf) {
        FilterInjective(rows, p, PathOf);
      }
    }
    Filter(rows, p)
  }

  /** The DAO together with the table it owns. `rows` is the table in storage
      order; `nextId` is SQLite's AUTOINCREMENT counter, above every id it has
      handed out or seen. */
  class RecordingDao {
    var rows: seq<Recording>
    var nextId: int

    ghost predicate Valid()
      reads this
    {
      ValidTable(rows, nextId)
    }

    constructor ()
      ensures Valid() && rows == [] && nextId == 1
    {
      rows := [];
      nextId := 1;
    }

    /** The DAO over the rows read from an opened file, with the counter
        restored. */
    constructor Load(rows: seq<Recording>, nextId: int)
      requires ValidTable(rows, nextId)
      ensures Valid() && this.rows == rows && this.nextId == nextId
    {
      this.rows := rows;
      this.nextId := nextId;
    }

    predicate HasId(id: int)
      reads this
    {
      exists i :: 0 <= i < |rows| && rows[i].id == Some(id)
    }

    predicate HasPath(path: string)
      reads this
    {
      exists i :: 0 <= i < |rows| && rows[i].recordingPath == path
    }

    /** `getAll`: every row. */
    function GetAll(): (r: seq<Recording>)
      reads this
      ensures r == rows
    {
      rows
    }

    /** `getUploadedFromDevice`: the uploaded rows of one device. */
    function GetUploadedFromDevice(deviceName: string): (r: seq<Recording>)
      reads this
      ensures forall x :: x in r <==> x in rows && x.uploaded && x.deviceName == deviceName
    {
      Filter(rows, (x: Recording) => x.uploaded && x.deviceName == deviceName)
    }

    /** `getRecordingNamesFromDevice`: the name of every row of one device,
        uploaded or not, one entry per row. */
    function GetRecordingNamesFromDevice(deviceName: string): (r: seq<string>)
      reads this
      ensures |r| == |Filter(rows, (x: Recording) => x.deviceName == deviceName)|
      ensures forall n :: n in r <==> exists x :: x in rows && x.deviceName == deviceName && x.name == n
    {
      var matching := Filter(rows, (x: Recording) => x.deviceName == deviceName);
      var r := seq(|matching|, i requires 0 <= i < |matching| => matching[i].name);
      assert forall x :: x in rows && x.deviceName == deviceName ==> x.name in r by {
        forall x | x in rows && x.deviceName == deviceName ensures x.name in r {
          var k :| 0 <= k < |rows| && rows[k] == x;
          var i :| 0 <= i < |matching| && matching[i] == x;
          assert r[i] == x.name;
        }
      }
      r
    }

    /** `insert`: a row whose id or recording path is already present is
        refused and nothing is written; otherwise the row is appended with the
        id it carries, or with the next AUTOINCREMENT id when it has none. */
    method Insert(recording: Recording) returns (result: Result<int, InsertError>)
      requires Valid()
      modifies this
      ensures Valid()
      ensures recording.id.Some? && old(HasId(recording.id.value)) ==>
        result == Err(PrimaryKeyViolation)
      ensures !(recording.id.Some? && old(HasId(recording.id.value))) && old(HasPath(recording.recordingPath)) ==>
        result == Err(UniqueConstraintViolation)
      ensures result.Err? ==> rows == old(rows) && nextId == old(nextId)
      ensures result.Ok? ==>
        result.value == (if recording.id.Some? then recording.id.value else old(nextId)) &&
        rows == old(rows) + [recording.(id := Some(result.value))]
      ensures result.Ok? <==>
        !(recording.id.Some? && old(HasId(recording.id.value))) && !old(HasPath(recording.recordingPath))
    {
      if recording.id.Some? && HasId(recording.id.value) {
        return Err(PrimaryKeyViolation);
      }
      if HasPath(recording.recordingPath) {
        return Err(UniqueConstraintViolation);
      }
      var id := if recording.id.Some? then recording.id.value else nextId;
      rows := rows + [recording.(id := Some(id))];
      if id >= nextId {
        nextId := id + 1;
      }
      result := Ok(id);
    }

    /** `deleteRecording`: removes the row with that id; a null or unknown id
        removes nothing. */
    method DeleteRecording(id: Option<int>)
      requires Valid()
      modifies this
      ensures Valid() && nextId == old(nextId)
      ensures rows == DeleteById(old(rows), id)
    {
      rows := DeleteById(rows, id);
    }

    /** `deleteAll`: the table is emptied; the AUTOINCREMENT counter is kept. */
    method DeleteAll()
      requires Valid()
      modifies this
      ensures rows == [] && nextId == old(nextId)
      ensures Valid()
    {
      rows := [];
    }
  }
}
