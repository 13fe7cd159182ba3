/** The Room databases of the Android app and their process-wide holders:
    the version-1 recording database with its destructive fallback, and the
    recording-and-event database declared at version 4 (with `MIGRATION_3_4`)
    and later at version 5 (with `MIGRATION_3_4` and `MIGRATION_4_5`). */
module Database {
  import opened Wrappers
  import opened Schema
  import Migrations
  import RecordingV1
  import RecordingStore
  import EventStore

  /** What the version-1 builder is told: one entity, no migrations, and
      `fallbackToDestructiveMigration()`. */
  const V1Config := DbConfig(1, map["recording" := RecordingV1.RecordingTable], [], true)

  /** The entity tables of versions 4 and 5. */
  const Entities := map["recording" := RecordingStore.RecordingTable, "event" := EventStore.EventTable]

  /** What the version-4 builder is told: `MIGRATION_3_4` and no fallback. */
  const V4Config := DbConfig(4, Entities, [Migrations.Migration3To4], false)

  /** What the version-5 builder is told, given the `MIGRATION_4_5` object it
      registers after `MIGRATION_3_4`; no fallback. */
  function V5Config(migration4To5: Migration): (cfg: DbConfig)
    ensures cfg.version == 5 && cfg.entities == Entities && !cfg.destructiveFallback
    ensures cfg.migrations == [Migrations.Migration3To4, migration4To5]
  {
    DbConfig(5, Entities, [Migrations.Migration3To4, migration4To5], false)
  }

  /** Opening any existing file of another version (older or newer) under the
      version-1 configuration discards the recordings: the file comes back at
      version 1 with an empty `recording` table, and every other table (the
      `event` table of a later version, say) left as it was. */
  lemma V1OtherVersionWipes(f: DbFile)
    requires f.version != 0 && f.version != 1
    ensures Open(V1Config, f) ==
      Ok(DbFile(1, f.tables["recording" := StoredTable(RecordingV1.RecordingTable, [])]))
  {
    assert FindPath(V1Config.migrations, f.version, 1).None?;
    assert Recreated(V1Config, f).tables == f.tables["recording" := StoredTable(RecordingV1.RecordingTable, [])];
  }

  /** A version-3 file holding a recording table of the version-3 shape and no
      event table opens at version 4 with its recording table untouched and an
      empty event table. */
  lemma V4OpensVersion3(f: DbFile)
    requires f.version == 3 && "event" !in f.tables
    requires "recording" in f.tables && f.tables["recording"].schema == RecordingStore.RecordingTable
    ensures Open(V4Config, f) ==
      Ok(DbFile(4, f.tables["event" := StoredTable(EventStore.EventTable, [])]))
  {
    var m := Migrations.Migration3To4;
    assert BestStep(V4Config.migrations, 3, 4) == Some(m) by {
      assert V4Config.migrations[..0] == [];
    }
    assert FindPath(V4Config.migrations, 4, 4) == Some([]);
    assert [m] + [] == [m];
    assert FindPath(V4Config.migrations, 3, 4) == Some([m]);
    Migrations.Migration3To4OnlyAddsEvent(f);
    Migrations.Migration3To4Shape();
    var g := DbFile(4, f.tables["event" := StoredTable(EventStore.EventTable, [])]);
    assert ApplyPath(f, [m], 4) == ApplyPath(g, [], 4);
  }

  /** With only `MIGRATION_3_4` registered and no fallback, a file of
      version 1 or 2, or of a version above 4, cannot be opened. */
  lemma V4RejectsOtherVersions(f: DbFile)
    requires f.version == 1 || f.version == 2 || f.version > 4
    ensures Open(V4Config, f) == Err(MigrationRequired(f.version, 4))
  {
    if f.version < 4 {
      assert BestStep(V4Config.migrations, f.version, 4).None? by {
        assert V4Config.migrations[..0] == [];
      }
    }
  }

  /** With `MIGRATION_4_5` a step from 4 to 5, a version-3 file migrates along
      3 to 4 to 5 and a version-4 file along 4 to 5. */
  lemma V5Chain(migration4To5: Migration)
    requires migration4To5.startVersion == 4 && migration4To5.endVersion == 5
    ensures FindPath(V5Config(migration4To5).migrations, 3, 5) ==
      Some([Migrations.Migration3To4, migration4To5])
    ensures FindPath(V5Config(migration4To5).migrations, 4, 5) == Some([migration4To5])
  {
    var ms := V5Config(migration4To5).migrations;
    assert ms[..1] == [Migrations.Migration3To4];
    assert ms[..1][..0] == [];
    assert BestStep(ms, 3, 5) == Some(Migrations.Migration3To4);
    assert BestStep(ms, 4, 5) == Some(migration4To5);
    assert FindPath(ms, 5, 5) == Some([]);
    assert [migration4To5] + [] == [migration4To5];
    assert FindPath(ms, 4, 5) == Some([migration4To5]);
    assert [Migrations.Migration3To4] + [migration4To5] == [Migrations.Migration3To4, migration4To5];
  }

  /** Without a fallback, a version-1 or version-2 file is refused at
      version 5 whatever `MIGRATION_4_5` is, as long as it starts at 4. */
  lemma V5RejectsOldVersions(migration4To5: Migration, f: DbFile)
    requires migration4To5.startVersion == 4
    requires f.version == 1 || f.version == 2
    ensures Open(V5Config(migration4To5), f) == Err(MigrationRequired(f.version, 5))
  {
    var ms := V5Config(migration4To5).migrations;
    assert ms[..1] == [Migrations.Migration3To4];
    assert ms[..1][..0] == [];
    assert BestStep(ms, f.version, 5).None?;
  }

  /** Why the first `getDatabase` call yields no usable database: opening the
      file failed, a stored row does not read back as its entity, or the
      stored rows break the table's keys (which SQLite itself never lets
      happen). */
  datatype LoadError = OpenFailed(error: OpenError) | UnreadableRow(table: string) | BrokenKeys(table: string)

  /** What the DAOs of the recording-and-event database hold once the file
      `recording_database` is open: the rows of both tables in storage order
      and the counters the next inserts draw from. */
  datatype Contents = Contents(
    recordings: seq<RecordingStore.Recording>, recordingNext: int,
    events: seq<EventStore.Event>, eventNext: int)

  /** Opens `f` under a configuration with both entities and reads both
      tables. The counters resume one above the largest stored id. */
  function LoadV4(cfg: DbConfig, f: DbFile): (r: Result<Contents, LoadError>)
    requires cfg.entities == Entities
    ensures Open(cfg, f).Err? ==> r == Err(OpenFailed(Open(cfg, f).error))
    ensures r.Ok? ==> Open(cfg, f).Ok?
    ensures r.Ok? ==>
      DecodeRows(Open(cfg, f).value.tables["recording"].rows, RecordingStore.FromRow) == Some(r.value.recordings)
    ensures r.Ok? ==>
      DecodeRows(Open(cfg, f).value.tables["event"].rows, EventStore.FromRow) == Some(r.value.events)
    ensures r.Ok? ==> RecordingStore.ValidTable(r.value.recordings, r.value.recordingNext)
    ensures r.Ok? ==> EventStore.ValidTable(r.value.events, r.value.eventNext)
  {
    match Open(cfg, f)
    case Err(e) => Err(OpenFailed(e))
    case Ok(g) =>
      assert "recording" in g.tables && "event" in g.tables;
      match DecodeRows(g.tables["recording"].rows, RecordingStore.FromRow)
      case None => Err(UnreadableRow("recording"))
      case Some(recs) =>
        match DecodeRows(g.tables["event"].rows, EventStore.FromRow)
        case None => Err(UnreadableRow("event"))
        case Some(evs) =>
          var rn := NextAbove(recs, RecordingStore.IdNumber);
          var en := NextAbove(evs, EventStore.IdOf);
          if !RecordingStore.ValidTable(recs, rn) then Err(BrokenKeys("recording"))
          else if !EventStore.ValidTable(evs, en) then Err(BrokenKeys("event"))
          else Ok(Contents(recs, rn, evs, en))
  }

  /** The file as the recording-and-event database leaves it at `version`:
      both tables, each row written from its entity. */
  function SavedV4(c: Contents, version: nat): (f: DbFile)
    ensures f.version == version && f.tables.Keys == Entities.Keys
    ensures MatchesEntities(f.tables, Entities)
  {
    DbFile(version, map[
      "recording" := StoredTable(RecordingStore.RecordingTable, EncodeRows(c.recordings, RecordingStore.ToRow)),
      "event" := StoredTable(EventStore.EventTable, EncodeRows(c.events, EventStore.ToRow))])
  }

  /** A valid table keeps its invariant when the counter resumes one above
      its largest id. */
  lemma RecordingsResume(recs: seq<RecordingStore.Recording>, next: int)
    requires RecordingStore.ValidTable(recs, next)
    ensures RecordingStore.ValidTable(recs, NextAbove(recs, RecordingStore.IdNumber))
  {
    var n := NextAbove(recs, RecordingStore.IdNumber);
    forall i | 0 <= i < |recs| ensures recs[i].id.value < n {
      assert RecordingStore.IdNumber(recs[i]) < n;
    }
  }

  /** The rows survive a restart: reopening the file the database left at
      its own version hands the DAOs exactly the rows they held, and the
      counters never resume above where they were. */
  lemma ReopenV4KeepsRows(cfg: DbConfig, c: Contents)
    requires cfg.entities == Entities && cfg.version != 0
    requires RecordingStore.ValidTable(c.recordings, c.recordingNext)
    requires EventStore.ValidTable(c.events, c.eventNext)
    ensures LoadV4(cfg, SavedV4(c, cfg.version)).Ok?
    ensures LoadV4(cfg, SavedV4(c, cfg.version)).value.recordings == c.recordings
    ensures LoadV4(cfg, SavedV4(c, cfg.version)).value.events == c.events
    ensures LoadV4(cfg, SavedV4(c, cfg.version)).value.recordingNext <= c.recordingNext
    ensures LoadV4(cfg, SavedV4(c, cfg.version)).value.eventNext <= c.eventNext
  {
    var f := SavedV4(c, cfg.version);
    assert Open(cfg, f) == Ok(f);
    assert f.tables["recording"].rows == EncodeRows(c.recordings, RecordingStore.ToRow);
    assert f.tables["event"].rows == EncodeRows(c.events, EventStore.ToRow);
    RecordingsReadBack(c.recordings);
    EventsReadBack(c.events);
    RecordingsResume(c.recordings, c.recordingNext);
  }

  /** Recording rows written from entities read back as those entities. */
  lemma RecordingsReadBack(recs: seq<RecordingStore.Recording>)
    ensures DecodeRows(EncodeRows(recs, RecordingStore.ToRow), RecordingStore.FromRow) == Some(recs)
  {
    forall i | 0 <= i < |recs|
      ensures RecordingStore.FromRow(RecordingStore.ToRow(recs[i])) == Some(recs[i])
    {
      RecordingStore.RowRoundTrip(recs[i]);
    }
    DecodeEncoded(recs, RecordingStore.ToRow, RecordingStore.FromRow);
  }

  /** Event rows written from entities read back as those entities. */
  lemma EventsReadBack(evs: seq<EventStore.Event>)
    ensures DecodeRows(EncodeRows(evs, EventStore.ToRow), EventStore.FromRow) == Some(evs)
  {
    forall i | 0 <= i < |evs|
      ensures EventStore.FromRow(EventStore.ToRow(evs[i])) == Some(evs[i])
    {
      EventStore.RowRoundTrip(evs[i]);
    }
    DecodeEncoded(evs, EventStore.ToRow, EventStore.FromRow);
  }

  /** A file that has never been opened loads as two empty tables with both
      counters at 1. */
  lemma FirstStartLoadsEmpty(cfg: DbConfig, f: DbFile)
    requires cfg.entities == Entities && f.version == 0
    ensures LoadV4(cfg, f) == Ok(Contents([], 1, [], 1))
  {
    assert Open(cfg, f) == Ok(Created(cfg));
  }

  /** A version-3 file opens at version 4 with its recording rows as they
      were stored and no events. */
  lemma Version3LoadsItsRecordings(f: DbFile)
    requires f.version == 3 && "event" !in f.tables
    requires "recording" in f.tables && f.tables["recording"].schema == RecordingStore.RecordingTable
    ensures LoadV4(V4Config, f).Ok? ==>
      DecodeRows(f.tables["recording"].rows, RecordingStore.FromRow) == Some(LoadV4(V4Config, f).value.recordings) &&
      LoadV4(V4Config, f).value.events == []
  {
    V4OpensVersion3(f);
  }

  /** Opens `f` under the version-1 configuration and reads its one table. */
  function LoadV1(f: DbFile): (r: Result<(seq<RecordingV1.Recording>, int), LoadError>)
    ensures Open(V1Config, f).Err? ==> r == Err(OpenFailed(Open(V1Config, f).error))
    ensures r.Ok? ==> Open(V1Config, f).Ok?
    ensures r.Ok? ==>
      DecodeRows(Open(V1Config, f).value.tables["recording"].rows, RecordingV1.FromRow) == Some(r.value.0)
    ensures r.Ok? ==> RecordingV1.ValidTable(r.value.0, r.value.1)
  {
    match Open(V1Config, f)
    case Err(e) => Err(OpenFailed(e))
    case Ok(g) =>
      assert "recording" in g.tables;
      match DecodeRows(g.tables["recording"].rows, RecordingV1.FromRow)
      case None => Err(UnreadableRow("recording"))
      case Some(recs) =>
        var n := NextAbove(recs, RecordingV1.IdNumber);
        if !RecordingV1.ValidTable(recs, n) then Err(BrokenKeys("recording")) else Ok((recs, n))
  }

  /** The version-1 rows survive a restart as well. */
  lemma ReopenV1KeepsRows(recs: seq<RecordingV1.Recording>, next: int)
    requires RecordingV1.ValidTable(recs, next)
    ensures LoadV1(DbFile(1, map["recording" := StoredTable(RecordingV1.RecordingTable,
                                 EncodeRows(recs, RecordingV1.ToRow))])).Ok?
    ensures LoadV1(DbFile(1, map["recording" := StoredTable(RecordingV1.RecordingTable,
                                 EncodeRows(recs, RecordingV1.ToRow))])).value.0 == recs
    ensures LoadV1(DbFile(1, map["recording" := StoredTable(RecordingV1.RecordingTable,
                                 EncodeRows(recs, RecordingV1.ToRow))])).value.1 <= next
  {
    var f := DbFile(1, map["recording" := StoredTable(RecordingV1.RecordingTable, EncodeRows(recs, RecordingV1.ToRow))]);
    assert Open(V1Config, f) == Ok(f);
    forall i | 0 <= i < |recs| ensures RecordingV1.FromRow(RecordingV1.ToRow(recs[i])) == Some(recs[i]) {
      RecordingV1.RowRoundTrip(recs[i]);
    }
    DecodeEncoded(recs, RecordingV1.ToRow, RecordingV1.FromRow);
    var n := NextAbove(recs, RecordingV1.IdNumber);
    forall i | 0 <= i < |recs| ensures recs[i].id.value < n {
      assert RecordingV1.IdNumber(recs[i]) < n;
    }
  }

  /** One step of `clearData` as the outside world sees it. */
  datatype Action = DeleteFile(path: string) | DeleteRecordingRow(id: Option<int>)

  /** The actions `clearData` performs for some recordings, in order: for each,
      its file is deleted, then its row. */
  function ClearTrace(recordings: seq<RecordingStore.Recording>): (t: seq<Action>)
    ensures |t| == 2 * |recordings|
  {
    if recordings == [] then []
    else
      var last := recordings[|recordings| - 1];
      ClearTrace(recordings[..|recordings| - 1]) + [DeleteFile(last.recordingPath), DeleteRecordingRow(last.id)]
  }

  /** In the trace, the file of the i-th recording is deleted at step 2i and
      its row right after it, at step 2i+1. */
  lemma {:induction false} FileDeletedBeforeRow(recordings: seq<RecordingStore.Recording>)
    ensures forall i :: 0 <= i < |recordings| ==>
      ClearTrace(recordings)[2 * i] == DeleteFile(recordings[i].recordingPath) &&
      ClearTrace(recordings)[2 * i + 1] == DeleteRecordingRow(recordings[i].id)
  {
    if recordings != [] {
      var prefix := recordings[..|recordings| - 1];
      FileDeletedBeforeRow(prefix);
      forall i | 0 <= i < |recordings|
        ensures ClearTrace(recordings)[2 * i] == DeleteFile(recordings[i].recordingPath)
        ensures ClearTrace(recordings)[2 * i + 1] == DeleteRecordingRow(recordings[i].id)
      {
        if i < |prefix| {
          assert recordings[i] == prefix[i];
        }
      }
    }
  }

  /** The trace of one more recording extends the trace by its two actions. */
  lemma ClearTraceStep(recordings: seq<RecordingStore.Recording>, i: nat)
    requires i < |recordings|
    ensures ClearTrace(recordings[..i + 1]) ==
      ClearTrace(recordings[..i]) + [DeleteFile(recordings[i].recordingPath), DeleteRecordingRow(recordings[i].id)]
  {
    assert recordings[..i + 1][..i] == recordings[..i];
  }

  /** The recording-and-event database (`RoomDatabase`): the two DAOs it
      exposes and the file actions `clearData` has performed. */
  class AppDatabase {
    const config: DbConfig
    const recordingDao: RecordingStore.RecordingDao
    const eventDao: EventStore.EventDao
    var actions: seq<Action>

    ghost predicate Valid()
      reads this, recordingDao, eventDao
    {
      recordingDao.Valid() && eventDao.Valid()
    }

    /** The database over the contents read from its opened file. */
    constructor (config: DbConfig, c: Contents)
      requires RecordingStore.ValidTable(c.recordings, c.recordingNext)
      requires EventStore.ValidTable(c.events, c.eventNext)
      ensures this.config == config && Valid() && actions == []
      ensures recordingDao.rows == c.recordings && recordingDao.nextId == c.recordingNext
      ensures eventDao.rows == c.events && eventDao.nextId == c.eventNext
      ensures fresh(recordingDao) && fresh(eventDao)
    {
      this.config := config;
      recordingDao := new RecordingStore.RecordingDao.Load(c.recordings, c.recordingNext);
      eventDao := new EventStore.EventDao.Load(c.events, c.eventNext);
      actions := [];
    }

    /** `clearData`: for each recording, its file is deleted and then its row;
        then every event row is deleted. Both tables end empty. The rows go
        one by one, so both AUTOINCREMENT counters stay where they were and
        no id is handed out again. */
    method ClearData()
      requires Valid()
      modifies this, recordingDao, eventDao
      ensures Valid() && recordingDao.rows == [] && eventDao.rows == []
      ensures recordingDao.nextId == old(recordingDao.nextId) && eventDao.nextId == old(eventDao.nextId)
      ensures actions == old(actions) + ClearTrace(old(recordingDao.rows))
    {
      var recordings := recordingDao.GetAllRecordings();
      var i := 0;
      while i < |recordings|
        invariant 0 <= i <= |recordings|
        invariant recordingDao.Valid() && recordingDao.rows == recordings[i..]
        invariant eventDao.Valid() && eventDao.rows == old(eventDao.rows)
        invariant recordingDao.nextId == old(recordingDao.nextId) && eventDao.nextId == old(eventDao.nextId)
        invariant actions == old(actions) + ClearTrace(recordings[..i])
      {
        var rec := recordings[i];
        actions := actions + [DeleteFile(rec.recordingPath)];
        RecordingStore.DeleteFirst(recordingDao.rows);
        recordingDao.DeleteRecording(rec.id);
        actions := actions + [DeleteRecordingRow(rec.id)];
        ClearTraceStep(recordings, i);
        i := i + 1;
      }
      assert recordings[..i] == recordings;
      var events := eventDao.GetAllEvents();
      var j := 0;
      while j < |events|
        invariant 0 <= j <= |events|
        invariant eventDao.Valid() && eventDao.rows == events[j..]
        invariant recordingDao.Valid() && recordingDao.rows == []
        invariant recordingDao.nextId == old(recordingDao.nextId) && eventDao.nextId == old(eventDao.nextId)
        invariant actions == old(actions) + ClearTrace(recordings)
      {
        EventStore.DeleteFirst(eventDao.rows);
        eventDao.Delete(events[j]);
        j := j + 1;
      }
    }

    /** The open callback's task: its only statement is commented out, so it
        writes nothing. */
    method PopulateDbAsync()
      ensures unchanged(recordingDao) && unchanged(eventDao)
    {
    }
  }

  /** The static `INSTANCE` of `RoomDatabase` with the configuration its
      builder is given. */
  class AppDatabaseHolder {
    const config: DbConfig
    var instance: AppDatabase?

    constructor (config: DbConfig)
      ensures this.config == config && instance == null
    {
      this.config := config;
      instance := null;
    }

    /** `getDatabase` over the saved file `f`: the first call opens the file
        and builds the database over its rows, or reports why it cannot;
        every later call returns the database already built, whatever the
        file holds. */
    method GetDatabase(f: DbFile) returns (r: Result<AppDatabase, LoadError>)
      requires config.entities == Entities
      modifies this
      ensures old(instance) != null ==> r == Ok(old(instance)) && instance == old(instance)
      ensures old(instance) == null && LoadV4(config, f).Err? ==>
        r == Err(LoadV4(config, f).error) && instance == null
      ensures old(instance) == null && LoadV4(config, f).Ok? ==>
        r.Ok? && fresh(r.value) && instance == r.value &&
        r.value.config == config && r.value.Valid() && r.value.actions == [] &&
        r.value.recordingDao.rows == LoadV4(config, f).value.recordings &&
        r.value.eventDao.rows == LoadV4(config, f).value.events &&
        r.value.recordingDao.nextId == LoadV4(config, f).value.recordingNext &&
        r.value.eventDao.nextId == LoadV4(config, f).value.eventNext
    {
      if instance == null {
        var loaded := LoadV4(config, f);
        if loaded.Err? {
          return Err(loaded.error);
        }
        instance := new AppDatabase(config, loaded.value);
      }
      r := Ok(instance);
    }
  }

  /** The version-1 database (`RecordingRoomDatabase`) and its one DAO. */
  class RecordingRoomDatabase {
    const recordingDao: RecordingV1.RecordingDao

    /** The database over the rows read from its opened file. */
    constructor (recs: seq<RecordingV1.Recording>, next: int)
      requires RecordingV1.ValidTable(recs, next)
      ensures recordingDao.Valid() && fresh(recordingDao)
      ensures recordingDao.rows == recs && recordingDao.nextId == next
    {
      recordingDao := new RecordingV1.RecordingDao.Load(recs, next);
    }

    /** The open callback's task: its `deleteAll` is commented out, so it
        writes nothing. */
    method PopulateDbAsync()
      ensures unchanged(recordingDao)
    {
    }
  }

  /** The static `INSTANCE` of `RecordingRoomDatabase`, built under
      `V1Config`. */
  class RecordingDatabaseHolder {
    var instance: RecordingRoomDatabase?

    constructor ()
      ensures instance == null
    {
      instance := null;
    }

    /** `getDatabase` over the saved file `f`: the first call opens it under
        `V1Config` and builds the database over its rows, or reports why it
        cannot; every later call returns the database already built. */
    method GetDatabase(f: DbFile) returns (r: Result<RecordingRoomDatabase, LoadError>)
      modifies this
      ensures old(instance) != null ==> r == Ok(old(instance)) && instance == old(instance)
      ensures old(instance) == null && LoadV1(f).Err? ==> r == Err(LoadV1(f).error) && instance == null
      ensures old(instance) == null && LoadV1(f).Ok? ==>
        r.Ok? && fresh(r.value) && instance == r.value && r.value.recordingDao.Valid() &&
        r.value.recordingDao.rows == LoadV1(f).value.0 &&
        r.value.recordingDao.nextId == LoadV1(f).value.1
    {
      if instance == null {
        var loaded := LoadV1(f);
        if loaded.Err? {
          return Err(loaded.error);
        }
        instance := new RecordingRoomDatabase(loaded.value.0, loaded.value.1);
      }
      r := Ok(instance);
    }
  }
}
