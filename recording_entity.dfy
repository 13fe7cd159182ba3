/** The recordings table of the newer app, `RecordingTableV1`: each row is
    keyed by a text id made of the device and the recording name; queries
    combine their filters with AND, skipping any filter whose value is falsy;
    the upload flag is only ever written to true. */
module RecordingEntity {
  import opened Wrappers
  import opened TextKeyTable

  /** A row of `RecordingTableV1`. `uploadId` is NULL until the upload. */
  datatype Recording = Recording(
    id: string,
    name: string,
    path: string,
    groupName: string,
    device: string,
    deviceName: string,
    isUploaded: bool,
    uploadId: Option<string>,
    size: string,
    isProd: bool)

  /** What `insertRecording` is given: a downloaded recording without its id,
      flag and upload id. */
  datatype NewRecording = NewRecording(
    name: string,
    path: string,
    groupName: string,
    device: string,
    deviceName: string,
    size: string,
    isProd: bool)

  function IdOf(r: Recording): string
  {
    r.id
  }

  /** The id `insertRecording` gives a row: device, a dash, then the name. */
  function RecordingId(device: string, name: string): (id: string)
    ensures |id| == |device| + 1 + |name| && id[|device|] == '-'
    ensures id[..|device|] == device && id[|device| + 1..] == name
  {
    device + "-" + name
  }

  /** For devices without a dash, the id determines device and name. */
  lemma IdInjectiveForPlainDevices(d1: string, n1: string, d2: string, n2: string)
    requires '-' !in d1 && '-' !in d2
    requires RecordingId(d1, n1) == RecordingId(d2, n2)
    ensures d1 == d2 && n1 == n2
  {
  }

  /** A dash in the device makes two different recordings share an id, so
      the second insert is refused: device "a-b" with name "c" and device
      "a" with name "b-c" both get "a-b-c". */
  lemma IdCollision(d1: string, n1: string, d2: string, n2: string)
    requires d1 == "a-b" && n1 == "c" && d2 == "a" && n2 == "b-c"
    ensures RecordingId(d1, n1) == RecordingId(d2, n2) && d1 != d2
  {
    assert RecordingId(d1, n1) == "a-b-c";
    assert RecordingId(d2, n2) == "a-b-c";
  }

  /** The row `insertRecording` writes: the computed id, the given columns,
      the flag at its default 0 and no upload id. */
  function Inserted(n: NewRecording): (r: Recording)
    ensures r.id == RecordingId(n.device, n.name) && !r.isUploaded && r.uploadId.None?
    ensures r.name == n.name && r.path == n.path && r.groupName == n.groupName
    ensures r.device == n.device && r.deviceName == n.deviceName && r.size == n.size && r.isProd == n.isProd
  {
    Recording(RecordingId(n.device, n.name), n.name, n.path, n.groupName, n.device, n.deviceName,
      false, None, n.size, n.isProd)
  }

  /** The options of `getRecordings`; `None` is an absent option. */
  datatype Query = Query(id: Option<string>, name: Option<string>, uploaded: Option<bool>, device: Option<string>)

  /** A JavaScript string option that is set and not empty. */
  predicate Truthy(o: Option<string>)
  {
    o.Some? && o.value != ""
  }

  /** The WHERE clause built from the truthy options. `uploaded` only adds a
      condition when it is true, and that condition is `isUploaded = 1`. */
  predicate Matches(r: Recording, q: Query)
  {
    (Truthy(q.id) ==> r.id == q.id.value) &&
    (Truthy(q.name) ==> r.name == q.name.value) &&
    (q.uploaded == Some(true) ==> r.isUploaded) &&
    (Truthy(q.device) ==> r.device == q.device.value)
  }

  function MatchesFn(q: Query): Recording -> bool
  {
    x => Matches(x, q)
  }

  /** The rows the query selects, in storage order. */
  function Select(rows: seq<Recording>, q: Query): (r: seq<Recording>)
    ensures forall i :: 0 <= i < |r| ==> r[i] in rows && Matches(r[i], q)
    ensures forall i :: 0 <= i < |rows| && Matches(rows[i], q) ==> rows[i] in r
    ensures multiset(r) <= multiset(rows)
  {
    FilterSubMultiset(rows, MatchesFn(q));
    Filter(rows, MatchesFn(q))
  }

  /** `uploaded: false` and empty strings select as if the option were
      absent. */
  lemma FalsyOptionsIgnored(rows: seq<Recording>, q: Query)
    ensures Select(rows, q.(uploaded := Some(false))) == Select(rows, q.(uploaded := None))
    ensures Select(rows, q.(id := Some(""))) == Select(rows, q.(id := None))
    ensures Select(rows, q.(name := Some(""))) == Select(rows, q.(name := None))
    ensures Select(rows, q.(device := Some(""))) == Select(rows, q.(device := None))
  {
    FilterCongruent(rows, MatchesFn(q.(uploaded := Some(false))), MatchesFn(q.(uploaded := None)));
    FilterCongruent(rows, MatchesFn(q.(id := Some(""))), MatchesFn(q.(id := None)));
    FilterCongruent(rows, MatchesFn(q.(name := Some(""))), MatchesFn(q.(name := None)));
    FilterCongruent(rows, MatchesFn(q.(device := Some(""))), MatchesFn(q.(device := None)));
  }

  /** With no options every row comes back, in storage order. */
  lemma NoOptionsSelectsAll(rows: seq<Recording>)
    ensures Select(rows, Query(None, None, None, None)) == rows
  {
    FilterAll(rows, MatchesFn(Query(None, None, None, None)));
  }

  /** The table after `updateRecording(rec)`: nothing changes unless the
      recording is marked uploaded and has a non-empty upload id; then the
      row with its id is marked uploaded with that upload id. */
  function UploadUpdate(rows: seq<Recording>, rec: Recording): (r: seq<Recording>)
    ensures |r| == |rows|
    ensures forall i :: 0 <= i < |rows| ==>
      r[i] == rows[i].(isUploaded := r[i].isUploaded, uploadId := r[i].uploadId)
    ensures forall i :: 0 <= i < |rows| && r[i] != rows[i] ==>
      rows[i].id == rec.id && rec.isUploaded && Truthy(rec.uploadId)
    ensures forall i :: 0 <= i < |rows| && rows[i].id == rec.id && rec.isUploaded && Truthy(rec.uploadId) ==>
      r[i].isUploaded && r[i].uploadId == rec.uploadId
  {
    if !rec.isUploaded || !Truthy(rec.uploadId) then rows
    else
      seq(|rows|, i requires 0 <= i < |rows| =>
        if rows[i].id == rec.id then rows[i].(isUploaded := true, uploadId := rec.uploadId) else rows[i])
  }

  /** `updateRecording` never clears a flag, and never changes an id. */
  lemma UpdateNeverClears(rows: seq<Recording>, rec: Recording)
    ensures forall i :: 0 <= i < |rows| ==>
      UploadUpdate(rows, rec)[i].id == rows[i].id &&
      (rows[i].isUploaded ==> UploadUpdate(rows, rec)[i].isUploaded)
  {
  }

  /** The ids listed in a `deleteRecordings` call. */
  function IdsOf(recs: seq<Recording>): (ids: set<string>)
    ensures forall i :: 0 <= i < |recs| ==> recs[i].id in ids
    ensures forall k :: k in ids ==> exists i :: 0 <= i < |recs| && recs[i].id == k
  {
    set r | r in recs :: r.id
  }

  /** `deleteRecordings([])` deletes nothing: `IN ()` matches no row. */
  lemma DeleteNoneIsNoop(rows: seq<Recording>)
    ensures DeleteKeys(rows, IdOf, IdsOf([])) == rows
  {
    DeleteAbsentKeys(rows, IdOf, IdsOf([]));
  }

  /** The table, in storage order, with its ids unique (the primary key). */
  class RecordingTable {
    var rows: seq<Recording>

    ghost predicate Valid()
      reads this
    {
      Injective(rows, IdOf)
    }

    constructor ()
      ensures Valid() && rows == []
    {
      rows := [];
    }

    /** `getRecordings`: the matching rows; `failed` stands for a failing
        query or a row the schema parse refuses, both of which are caught and
        answered with an empty list. */
    function GetRecordings(q: Query, failed: bool): (r: seq<Recording>)
      reads this
      ensures failed ==> r == []
      ensures !failed ==> r == Select(rows, q)
      ensures multiset(r) <= multiset(rows)
    {
      if failed then [] else Select(rows, q)
    }

    /** `insertRecording`: writes `Inserted(n)`; refused with the table
        unchanged when a row already has that id. */
    method InsertRecording(n: NewRecording) returns (res: Result<(), SqlError>)
      requires Valid()
      modifies this
      ensures Valid()
      ensures res.Err? <==> HasKey(old(rows), IdOf, RecordingId(n.device, n.name))
      ensures res.Err? ==> rows == old(rows) && res.error == UniqueViolation(RecordingId(n.device, n.name))
      ensures res.Ok? ==> rows == old(rows) + [Inserted(n)]
    {
      var ins := InsertRow(rows, IdOf, Inserted(n));
      if ins.Ok? {
        rows := ins.value;
        res := Ok(());
      } else {
        res := Err(ins.error);
      }
    }

    /** `updateRecording`. */
    method UpdateRecording(rec: Recording)
      requires Valid()
      modifies this
      ensures Valid() && rows == UploadUpdate(old(rows), rec)
    {
      if !rec.isUploaded || !Truthy(rec.uploadId) {
        return;
      }
      rows := UploadUpdate(rows, rec);
    }

    /** `deleteRecording`: removes the row with the recording's id, if any. */
    method DeleteRecording(rec: Recording)
      requires Valid()
      modifies this
      ensures Valid() && rows == DeleteKeys(old(rows), IdOf, {rec.id})
    {
      rows := DeleteKeys(rows, IdOf, {rec.id});
    }

    /** `deleteRecordings`: removes exactly the rows whose id is listed. */
    method DeleteRecordings(recs: seq<Recording>)
      requires Valid()
      modifies this
      ensures Valid() && rows == DeleteKeys(old(rows), IdOf, IdsOf(recs))
    {
      rows := DeleteKeys(rows, IdOf, IdsOf(recs));
    }
  }
}
