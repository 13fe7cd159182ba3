/** The older `recordings` table of the web app, keyed by the recording name:
    inserts leave the upload flag at its default, updates write the flag and
    upload id of one name, and queries skip falsy options. Statement values
    are bound to `?` placeholders; an `undefined` value is bound as NULL. */
module LegacyRecording {
  import opened Wrappers
  import opened TextKeyTable

  /** The `Recording` type the module is called with: the flag and the upload
      id are optional (`None` is `undefined`; for `uploadId` also `null`). */
  datatype Recording = Recording(
    name: string,
    path: string,
    groupName: string,
    device: string,
    isUploaded: Option<bool>,
    uploadId: Option<string>,
    size: string,
    isProd: bool)

  /** A stored row: every column is present, `uploadId` may be NULL. */
  datatype Row = Row(
    name: string,
    path: string,
    groupName: string,
    device: string,
    isUploaded: bool,
    uploadId: Option<string>,
    size: string,
    isProd: bool)

  function NameOf(r: Row): string
  {
    r.name
  }

  /** The row `insertRecording` writes: the six bound columns, with the flag
      at its default 0 and no upload id, whatever the argument carries. */
  function Inserted(rec: Recording): (r: Row)
    ensures r.name == rec.name && r.path == rec.path && r.groupName == rec.groupName
    ensures r.device == rec.device && r.size == rec.size && r.isProd == rec.isProd
    ensures !r.isUploaded && r.uploadId.None?
  {
    Row(rec.name, rec.path, rec.groupName, rec.device, false, None, rec.size, rec.isProd)
  }

  /** The options of `getRecordings`. */
  datatype Query = Query(name: Option<string>, uploaded: Option<bool>, device: Option<string>)

  predicate Truthy(o: Option<string>)
  {
    o.Some? && o.value != ""
  }

  /** The conditions added for truthy options, joined with AND. */
  predicate Matches(r: Row, q: Query)
  {
    (Truthy(q.name) ==> r.name == q.name.value) &&
    (q.uploaded == Some(true) ==> r.isUploaded) &&
    (Truthy(q.device) ==> r.device == q.device.value)
  }

  function MatchesFn(q: Query): Row -> bool
  {
    x => Matches(x, q)
  }

  /** The rows the query selects, in storage order. */
  function Select(rows: seq<Row>, q: Query): (r: seq<Row>)
    ensures forall i :: 0 <= i < |r| ==> r[i] in rows && Matches(r[i], q)
    ensures forall i :: 0 <= i < |rows| && Matches(rows[i], q) ==> rows[i] in r
    ensures multiset(r) <= multiset(rows)
  {
    FilterSubMultiset(rows, MatchesFn(q));
    Filter(rows, MatchesFn(q))
  }

  /** `uploaded: false` selects as if no flag option were given: it cannot
      ask for the rows not yet uploaded. */
  lemma UploadedFalseIgnored(rows: seq<Row>, q: Query)
    ensures Select(rows, q.(uploaded := Some(false))) == Select(rows, q.(uploaded := None))
  {
    FilterCongruent(rows, MatchesFn(q.(uploaded := Some(false))), MatchesFn(q.(uploaded := None)));
  }

  /** The table after `UPDATE recordings SET isUploaded = ?, uploadId = ?
      WHERE name = ?` with the flag present: the row of that name takes both
      values, which may clear the flag; nothing else changes. */
  function WriteUpload(rows: seq<Row>, name: string, flag: bool, uploadId: Option<string>): (r: seq<Row>)
    ensures |r| == |rows|
    ensures forall i :: 0 <= i < |rows| ==>
      r[i] == rows[i].(isUploaded := r[i].isUploaded, uploadId := r[i].uploadId)
    ensures forall i :: 0 <= i < |rows| && rows[i].name == name ==>
      r[i].isUploaded == flag && r[i].uploadId == uploadId
    ensures forall i :: 0 <= i < |rows| && rows[i].name != name ==> r[i] == rows[i]
  {
    seq(|rows|, i requires 0 <= i < |rows| =>
      if rows[i].name == name then rows[i].(isUploaded := flag, uploadId := uploadId) else rows[i])
  }

  /** The write keeps every name, so the primary key stays unique. */
  lemma WriteUploadKeepsNames(rows: seq<Row>, name: string, flag: bool, uploadId: Option<string>)
    requires Injective(rows, NameOf)
    ensures Injective(WriteUpload(rows, name, flag, uploadId), NameOf)
  {
    var r := WriteUpload(rows, name, flag, uploadId);
    forall i, j | 0 <= i < j < |r| ensures NameOf(r[i]) != NameOf(r[j]) {
      assert NameOf(r[i]) == NameOf(rows[i]) && NameOf(r[j]) == NameOf(rows[j]);
    }
  }

  /** The table, in storage order, with at most one row per name. */
  class RecordingTable {
    var rows: seq<Row>

    ghost predicate Valid()
      reads this
    {
      Injective(rows, NameOf)
    }

    constructor ()
      ensures Valid() && rows == []
    {
      rows := [];
    }

    /** `getRecordings`. */
    function GetRecordings(q: Query): (r: seq<Row>)
      reads this
      ensures forall i :: 0 <= i < |r| ==> r[i] in rows && Matches(r[i], q)
      ensures forall i :: 0 <= i < |rows| && Matches(rows[i], q) ==> rows[i] in r
    {
      Select(rows, q)
    }

    /** `insertRecording`: refused with the table unchanged when the name is
        taken. */
    method InsertRecording(rec: Recording) returns (res: Result<(), SqlError>)
      requires Valid()
      modifies this
      ensures Valid()
      ensures res.Err? <==> HasKey(old(rows), NameOf, rec.name)
      ensures res.Err? ==> rows == old(rows) && res.error == UniqueViolation(rec.name)
      ensures res.Ok? ==> rows == old(rows) + [Inserted(rec)]
    {
      var ins := InsertRow(rows, NameOf, Inserted(rec));
      if ins.Ok? {
        rows := ins.value;
        res := Ok(());
      } else {
        res := Err(ins.error);
      }
    }

    /** `updateRecording`: an absent flag is bound as NULL, which the NOT
        NULL column refuses as soon as a row of that name exists. */
    method UpdateRecording(rec: Recording) returns (res: Result<(), SqlError>)
      requires Valid()
      modifies this
      ensures Valid()
      ensures rec.isUploaded.None? && HasKey(old(rows), NameOf, rec.name) ==>
        res == Err(NotNullViolation("isUploaded")) && rows == old(rows)
      ensures rec.isUploaded.None? && !HasKey(old(rows), NameOf, rec.name) ==>
        res.Ok? && rows == old(rows)
      ensures rec.isUploaded.Some? ==>
        res.Ok? && rows == WriteUpload(old(rows), rec.name, rec.isUploaded.value, rec.uploadId)
    {
      if rec.isUploaded.None? {
        if HasKey(rows, NameOf, rec.name) {
          return Err(NotNullViolation("isUploaded"));
        }
        return Ok(());
      }
      WriteUploadKeepsNames(rows, rec.name, rec.isUploaded.value, rec.uploadId);
      rows := WriteUpload(rows, rec.name, rec.isUploaded.value, rec.uploadId);
      res := Ok(());
    }

    /** `deleteRecording`. */
    method DeleteRecording(rec: Recording)
      requires Valid()
      modifies this
      ensures Valid() && rows == DeleteKeys(old(rows), NameOf, {rec.name})
    {
      rows := DeleteKeys(rows, NameOf, {rec.name});
    }

    /** `deleteRecordings`: one placeholder is bound to all the names, so only
        a single recording is deleted. With no names the placeholder is bound
        to NULL, which no name equals; two or more are a binding error. */
    method DeleteRecordings(recs: seq<Recording>) returns (res: Result<(), SqlError>)
      requires Valid()
      modifies this
      ensures Valid()
      ensures |recs| == 0 ==> res.Ok? && rows == old(rows)
      ensures |recs| == 1 ==> res.Ok? && rows == DeleteKeys(old(rows), NameOf, {recs[0].name})
      ensures |recs| > 1 ==> res == Err(BindingMismatch(1, |recs|)) && rows == old(rows)
    {
      if |recs| == 0 {
        return Ok(());
      }
      if |recs| != 1 {
        return Err(BindingMismatch(1, |recs|));
      }
      rows := DeleteKeys(rows, NameOf, {recs[0].name});
      res := Ok(());
    }
  }
}
