/** The recording store of the Android app from schema version 3 on: the
    `Recording` entity with a group name and a device id, its table, and the
    DAO that inserts, deletes, selects and marks rows as uploaded. */
module RecordingStore {
  import opened Wrappers
  import opened Schema

  /** A row of the `recording` table. `id` is absent until the store assigns
      one; `groupName` may be absent; `size` is absent until someone sets it. */
  datatype Recording = Recording(
    id: Option<int>,
    deviceName: string,
    groupName: Option<string>,
    deviceID: int,
    recordingPath: string,
    uploaded: bool,
    size: Option<int>,
    name: string)

  /** The entity constructor: exactly the five given fields, nothing uploaded
      yet, no id and no size. */
  function NewRecording(deviceName: string, recordingPath: string, name: string,
                        groupName: Option<string>, deviceID: int): (r: Recording)
    ensures r.deviceName == deviceName && r.recordingPath == recordingPath && r.name == name
    ensures r.groupName == groupName && r.deviceID == deviceID
    ensures !r.uploaded && r.id.None? && r.size.None?
  {
    Recording(None, deviceName, groupName, deviceID, recordingPath, false, None, name)
  }

  /** `getRecording` hands back the entity itself. */
  function GetRecording(r: Recording): (s: Recording)
    ensures s == r
  {
    r
  }

  /** The table Room derives from the entity; `recording_path` carries a
      unique index. */
  const RecordingTable := Table(
    map[
      "id" := ColumnInfo(Integer, false, 1),
      "device_name" := ColumnInfo(Text, true, 0),
      "group_name" := ColumnInfo(Text, false, 0),
      "device_id" := ColumnInfo(Integer, true, 0),
      "recording_path" := ColumnInfo(Text, true, 0),
      "uploaded" := ColumnInfo(Integer, true, 0),
      "size" := ColumnInfo(Integer, false, 0),
      "name" := ColumnInfo(Text, true, 0)],
    {"recording_path"})

  function OptInt(v: Option<int>): Value
  {
    if v.Some? then IntValue(v.value) else Null
  }

  function OptText(v: Option<string>): Value
  {
    if v.Some? then TextValue(v.value) else Null
  }

  /** How an entity is written to its row; booleans are stored as 0 or 1. */
  function ToRow(r: Recording): (row: Row)
    ensures Conforms(row, RecordingTable)
  {
    map[
      "id" := OptInt(r.id),
      "device_name" := TextValue(r.deviceName),
      "group_name" := OptText(r.groupName),
      "device_id" := IntValue(r.deviceID),
      "recording_path" := TextValue(r.recordingPath),
      "uploaded" := IntValue(if r.uploaded then 1 else 0),
      "size" := OptInt(r.size),
      "name" := TextValue(r.name)]
  }

  predicate RowShaped(row: Row)
  {
    Conforms(row, RecordingTable) &&
    row["device_name"].TextValue? && row["device_id"].IntValue? &&
    row["recording_path"].TextValue? && row["uploaded"].IntValue? &&
    row["name"].TextValue?
  }

  /** How a row is read back into an entity; `None` for a row that does not
      have the entity's shape. */
  function FromRow(row: Row): (r: Option<Recording>)
  {
    if RowShaped(row) then
      Some(Recording(
        if row["id"].IntValue? then Some(row["id"].i) else None,
        row["device_name"].t,
        if row["group_name"].TextValue? then Some(row["group_name"].t) else None,
        row["device_id"].i,
        row["recording_path"].t,
        row["uploaded"].i != 0,
        if row["size"].IntValue? then Some(row["size"].i) else None,
        row["name"].t))
    else None
  }

  /** Reading back what was written gives the entity again. */
  lemma RowRoundTrip(r: Recording)
    ensures FromRow(ToRow(r)) == Some(r)
  {
    var row := ToRow(r);
    assert RowShaped(row);
  }

  /** `group_name` is the only text column that admits NULL. */
  lemma GroupNameOnlyNullableText(c: string)
    requires c in RecordingTable.columns
    ensures (RecordingTable.columns[c].affinity == Text && !RecordingTable.columns[c].notNull)
            <==> c == "group_name"
  {
  }

  /** The columns version 3 added to the version-1 table. */
  lemma AddedColumns()
    ensures "group_name" in RecordingTable.columns && "device_id" in RecordingTable.columns
    ensures RecordingTable.uniqueColumns == {"recording_path"}
  {
  }

  function IdOf(r: Recording): Option<int> { r.id }

  function PathOf(r: Recording): string { r.recordingPath }

  /** The id as a number for the counter; a row without an id counts as 0. */
  function IdNumber(r: Recording): int { if r.id.Some? then r.id.value else 0 }

  /** The table invariant: every row has an id below the counter, ids are
      distinct, and `recording_path` is unique. */
  predicate ValidTable(rows: seq<Recording>, nextId: int)
  {
    1 <= nextId &&
    (forall i :: 0 <= i < |rows| ==> rows[i].id.Some? && rows[i].id.value < nextId) &&
    Injective(rows, IdOf) && Injective(rows, PathOf)
  }

  datatype InsertError = PrimaryKeyViolation | UniqueConstraintViolation

  /** `WHERE id = :id` under SQL equality: a null id matches no row. */
  predicate IdMatches(r: Recording, id: Option<int>)
  {
    id.Some? && r.id == id
  }

  /** `WHERE device_name = :deviceName AND group_name = :groupname` under SQL
      equality: a null group matches no row, not even one whose group is null. */
  predicate FromDevice(r: Recording, deviceName: string, groupName: Option<string>)
  {
    r.deviceName == deviceName && groupName.Some? && r.groupName == groupName
  }

  /** `UPDATE recording SET uploaded = 1 WHERE id = :id` on a table: only
      the flag of a row can change, and afterwards a row is uploaded exactly
      when it was before or its id matches. */
  function MarkUploaded(rows: seq<Recording>, id: Option<int>): (r: seq<Recording>)
    ensures |r| == |rows|
    ensures forall i :: 0 <= i < |rows| ==> r[i] == rows[i].(uploaded := r[i].uploaded)
    ensures forall i :: 0 <= i < |rows| ==> (r[i].uploaded <==> rows[i].uploaded || IdMatches(rows[i], id))
  {
    seq(|rows|, i requires 0 <= i < |rows| =>
      if IdMatches(rows[i], id) then rows[i].(uploaded := true) else rows[i])
  }

  /** A later table keeps every uploaded flag an earlier one had set: each row
      of `before` that is still present by id is still uploaded. */
  predicate NoFlagCleared(before: seq<Recording>, after: seq<Recording>)
  {
    forall i, j ::
      (0 <= i < |before| && 0 <= j < |after| &&
       before[i].uploaded && after[j].id.Some? && after[j].id == before[i].id) ==> after[j].uploaded
  }

  /** `DELETE FROM recording WHERE id = :id` on a table: the rows with
      another id, in their order. Deleting keeps ids and paths distinct. */
  function DeleteById(rows: seq<Recording>, id: Option<int>): (r: seq<Recording>)
    ensures forall x :: x in r <==> x in rows && !IdMatches(x, id)
    ensures Injective(rows, IdOf) ==> Injective(r, IdOf)
    ensures Injective(rows, PathOf) ==> Injective(r, PathOf)
  {
    var p := (x: Recording) => !IdMatches(x, id);
    assert Injective(rows, IdOf) ==> Injective(Filter(rows, p), IdOf) by {
      if Injective(rows, IdOf) {
        FilterInjective(rows, p, IdOf);
      }
    }
    assert Injective(rows, PathOf) ==> Injective(Filter(rows, p), PathOf) by {
      if Injective(rows, PathOf) {
        FilterInjective(rows, p, PathOf);
      }
    }
    Filter(rows, p)
  }

  /** The DAO together with the table it owns. `rows` is the table in storage
      order; `nextId` is SQLite's AUTOINCREMENT counter, above every id it has
      handed out or seen. */
  class RecordingDao {
    var rows: seq<Recording>
    var nextId: int

    ghost predicate Valid()
      reads this
    {
      ValidTable(rows, nextId)
    }

    constructor ()
      ensures Valid() && rows == [] && nextId == 1
    {
      rows := [];
      nextId := 1;
    }

    /** The DAO over the rows read from an opened file, with the counter
        restored. */
    constructor Load(rows: seq<Recording>, nextId: int)
      requires ValidTable(rows, nextId)
      ensures Valid() && this.rows == rows && this.nextId == nextId
    {
      this.rows := rows;
      this.nextId := nextId;
    }

    predicate HasId(id: int)
      reads this
    {
      exists i :: 0 <= i < |rows| && rows[i].id == Some(id)
    }

    predicate HasPath(path: string)
      reads this
    {
      exists i :: 0 <= i < |rows| && rows[i].recordingPath == path
    }

    /** `insert`: a row whose id or recording path is already present is
        refused and nothing is written; otherwise the row is appended with the
        id it carries, or with the next AUTOINCREMENT id when it has none. */
    method Insert(recording: Recording) returns (result: Result<int, InsertError>)
      requires Valid()
      modifies this
      ensures Valid() && NoFlagCleared(old(rows), rows)
      ensures recording.id.Some? && old(HasId(recording.id.value)) ==>
        result == Err(PrimaryKeyViolation)
      ensures !(recording.id.Some? && old(HasId(recording.id.value))) && old(HasPath(recording.recordingPath)) ==>
        result == Err(UniqueConstraintViolation)
      ensures result.Err? ==> rows == old(rows) && nextId == old(nextId)
      ensures result.Ok? ==>
        result.value == (if recording.id.Some? then recording.id.value else old(nextId)) &&
        rows == old(rows) + [recording.(id := Some(result.value))]
      ensures result.Ok? <==>
        !(recording.id.Some? && old(HasId(recording.id.value))) && !old(HasPath(recording.recordingPath))
    {
      if recording.id.Some? && HasId(recording.id.value) {
        return Err(PrimaryKeyViolation);
      }
      if HasPath(recording.recordingPath) {
        return Err(UniqueConstraintViolation);
      }
      var id := if recording.id.Some? then recording.id.value else nextId;
      rows := rows + [recording.(id := Some(id))];
      if id >= nextId {
        nextId := id + 1;
      }
      result := Ok(id);
    }

    /** `deleteRecording`: removes the row with that id; a null or unknown id
        removes nothing. */
    method DeleteRecording(id: Option<int>)
      requires Valid()
      modifies this
      ensures Valid() && nextId == old(nextId) && NoFlagCleared(old(rows), rows)
      ensures rows == DeleteById(old(rows), id)
    {
      rows := DeleteById(rows, id);
    }

    /** `getUploadedFromDevice`: the uploaded rows whose device and group both
        match; a null group selects nothing. */
    function GetUploadedFromDevice(deviceName: string, groupName: Option<string>): (r: seq<Recording>)
      reads this
      ensures forall x :: x in r <==> x in rows && x.uploaded && x.deviceName == deviceName &&
                                      groupName.Some? && x.groupName == groupName
      ensures groupName.None? ==> r == []
    {
      var r := Filter(rows, (x: Recording) => x.uploaded && FromDevice(x, deviceName, groupName));
      assert r != [] ==> FromDevice(r[0], deviceName, groupName);
      r
    }

    /** `getRecordingNamesForDevice`: the name of every row whose device and
        group match, uploaded or not, one entry per row. */
    function GetRecordingNamesForDevice(deviceName: string, groupName: Option<string>): (r: seq<string>)
      reads this
      ensures |r| == |Filter(rows, (x: Recording) => FromDevice(x, deviceName, groupName))|
      ensures forall n :: n in r <==> exists x :: x in rows && FromDevice(x, deviceName, groupName) && x.name == n
      ensures groupName.None? ==> r == []
    {
      var matching := Filter(rows, (x: Recording) => FromDevice(x, deviceName, groupName));
      var r := seq(|matching|, i requires 0 <= i < |matching| => matching[i].name);
      assert forall x :: x in rows && FromDevice(x, deviceName, groupName) ==> x.name in r by {
        forall x | x in rows && FromDevice(x, deviceName, groupName) ensures x.name in r {
          var k :| 0 <= k < |rows| && rows[k] == x;
          var i :| 0 <= i < |matching| && matching[i] == x;
          assert r[i] == x.name;
        }
      }
      assert matching != [] ==> FromDevice(matching[0], deviceName, groupName);
      r
    }

    /** `getRecordingsToUpload`: exactly the rows not yet uploaded. */
    function GetRecordingsToUpload(): (r: seq<Recording>)
      reads this
      ensures forall x :: x in r <==> x in rows && !x.uploaded
      ensures multiset(r) <= multiset(rows)
    {
      FilterSubMultiset(rows, (x: Recording) => !x.uploaded);
      Filter(rows, (x: Recording) => !x.uploaded)
    }

    /** `getAllRecordings` (and the observed `getRecordingLiveData`): every row. */
    function GetAllRecordings(): (r: seq<Recording>)
      reads this
      ensures r == rows
    {
      rows
    }

    /** `setAsUploaded`: the row with that id becomes uploaded and every other
        row stays as it was; a null or unknown id changes nothing. */
    method SetAsUploaded(id: Option<int>)
      requires Valid()
      modifies this
      ensures Valid() && nextId == old(nextId) && NoFlagCleared(old(rows), rows)
      ensures rows == MarkUploaded(old(rows), id)
    {
      var r := MarkUploaded(rows, id);
      assert forall i :: 0 <= i < |rows| ==> IdOf(r[i]) == IdOf(rows[i]) && PathOf(r[i]) == PathOf(rows[i]);
      rows := r;
    }
  }

  /** Marking a row never clears any flag, and sets the flag of the matching
      row. */
  lemma {:induction false} MarkUploadedSetsOnlyThatRow(rows: seq<Recording>, id: Option<int>)
    requires Injective(rows, IdOf)
    ensures NoFlagCleared(rows, MarkUploaded(rows, id))
    ensures forall i :: 0 <= i < |rows| ==>
      (MarkUploaded(rows, id)[i].uploaded <==> rows[i].uploaded || IdMatches(rows[i], id))
  {
  }

  /** An id that no row carries leaves the table as it was. */
  lemma MarkUnknownIdNoop(rows: seq<Recording>, id: Option<int>)
    requires forall i :: 0 <= i < |rows| ==> !IdMatches(rows[i], id)
    ensures MarkUploaded(rows, id) == rows
  {
  }

  /** An id that no row carries removes nothing. */
  lemma DeleteUnknownIdNoop(rows: seq<Recording>, id: Option<int>)
    requires forall i :: 0 <= i < |rows| ==> !IdMatches(rows[i], id)
    ensures DeleteById(rows, id) == rows
  {
    FilterAll(rows, (x: Recording) => !IdMatches(x, id));
  }

  /** Deleting the id of the first row of a table whose ids are distinct
      removes just that row. */
  lemma {:induction false} DeleteFirst(rows: seq<Recording>)
    requires rows != [] && rows[0].id.Some? && Injective(rows, IdOf)
    ensures DeleteById(rows, rows[0].id) == rows[1..]
  {
    var p := (x: Recording) => !IdMatches(x, rows[0].id);
    assert forall i :: 0 <= i < |rows[1..]| ==> p(rows[1..][i]) by {
      forall i | 0 <= i < |rows[1..]| ensures p(rows[1..][i]) {
        assert rows[1..][i] == rows[i + 1];
        assert IdOf(rows[0]) != IdOf(rows[i + 1]);
      }
    }
    FilterAll(rows[1..], p);
  }
}
