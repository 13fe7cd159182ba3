# Sidekick recording store — a Dafny model

Sidekick is the field app that pulls audio and video recordings and event
logs off Cacophony devices over the local network. It stages them on the
phone and uploads them to the Cacophony server later. This project models
the stateful core of that staging store and the small pieces around it:

- the Android Room store. This covers the `recording` table and its DAO in
  versions 1 and 4/5, the `event` table and its DAO, and the table schemas
  as Room checks them. It also covers `MIGRATION_3_4`, Room's open
  procedure (migration path search, destructive fallback, schema check),
  `clearData`, and the double-checked singleton `getDatabase` holders,
  whose DAOs hold the rows of the saved file they open;
- the device connection `StateMachine` and the status logic of `Device`:
  the count of recordings still to download and the status line;
- `DeviceList`, a name-sorted map of devices that notifies on change;
- the resolve queue of `NsdHelper`: one resolve in flight, the other found
  services queued first in, first out;
- the SQLite entity modules of the newer TypeScript app. These are the
  recordings table keyed by `device-name`, the events table with its
  idempotent insert, and the older name-keyed and key-keyed tables;
- the text helpers `removeEscapedQuotes` and `formatLink`.

## Module layout

| file | module | models |
|---|---|---|
| wrappers.dfy | `Wrappers` | `Option`, `Result`, the order-keeping `Filter` and its lemmas, `Injective` keys |
| schema.dfy | `Schema` | column and table descriptions, stored database files, migrations and Room's open procedure |
| recording_v1.dfy | `RecordingV1` | the version-1 `Recording` entity and `RecordingDao` |
| recording.dfy | `RecordingStore` | the version-4/5 `Recording` entity and `RecordingDao` |
| event_dao.dfy | `EventStore` | the `Event` entity and `EventDao` |
| migrations.dfy | `Migrations` | `MIGRATION_3_4` |
| database.dfy | `Database` | the three builders' configurations, reading the DAO contents from the opened file, `clearData`, the open callbacks and the singleton holders |
| singleton.dfy | `Singleton` | threads interleaving inside `getDatabase`, with and without the re-check under the lock |
| device.dfy | `DeviceModel` | `DeviceState`, `StateMachine`, and the counting and status logic of `Device` |
| device_list.dfy | `DeviceListModel` | `DeviceList` over a name-sorted sequence of entries |
| nsd.dfy | `Nsd` | the resolve queue of `NsdHelper` as a state function, and a class whose methods follow it |
| text.dfy | `Text` | `removeEscapedQuotes` and `formatLink` |
| text_key_table.dfy | `TextKeyTable` | a SQLite table with a TEXT primary key: insert and delete by keys |
| recording_entity.dfy | `RecordingEntity` | `src/database/Entities/Recording.ts` |
| event_entity.dfy | `EventEntity` | `src/database/Entities/Event.ts` |
| legacy_recording.dfy | `LegacyRecording` | `src/database/Recording.ts` |
| legacy_event.dfy | `LegacyEvent` | `src/database/Event.ts` |

**Tables with an integer id.** These are modelled as a class holding:
- the rows in storage order;
- the AUTOINCREMENT counter, which is how a table Room creates for an
  auto-generated key hands out ids (the `event` table created by
  `MIGRATION_3_4` differs; see "Left out").

**Queries.** A query is a function of that state:
- it returns the matching rows in storage order;
- `LIMIT 1` returns the first match.

**NULL comparisons** follow SQL: a NULL id or group name equals nothing.

**Mutations.** A mutating DAO call is a method. Its `ensures` gives the new
rows as a function of the old ones. That function's own properties are
proved as lemmas:
- the flag only moves from false to true;
- an unknown id is a no-op;
- deleting the first row leaves the rest.

## Model

| member | source | states |
|---|---|---|
| RecordingV1.NewRecording | app/src/main/java/nz/org/cacophony/sidekick/Recording.java:41-45 | the constructor sets device name, path and name; not uploaded, no id, no size |
| RecordingV1.GetRecording | app/src/main/java/nz/org/cacophony/sidekick/Recording.java:47-50 | returns the same recording |
| RecordingV1.RowRoundTrip | app/src/main/java/nz/org/cacophony/sidekick/Recording.java:18-39 | a recording stored as a row of the version-1 table reads back as the same recording |
| RecordingV1.ToRow | app/src/main/java/nz/org/cacophony/sidekick/Recording.java:18-39 | every stored row fits the column types and NOT NULL constraints of the v1 table |
| RecordingV1.NoGroupOrDeviceColumns | app/src/main/java/nz/org/cacophony/sidekick/Recording.java:9-39 | the v1 table has no `group_name` or `device_id` column, and `recording_path` is its only unique column |
| RecordingV1.DeleteById | app/src/main/java/nz/org/cacophony/sidekick/RecordingDao.java:30-31 | exactly the rows whose id equals the argument go (none for NULL); unique ids and paths stay unique |
| RecordingV1.RecordingDao.GetAll | app/src/main/java/nz/org/cacophony/sidekick/RecordingDao.java:21-22 | every row, in storage order |
| RecordingV1.RecordingDao.Insert | app/src/main/java/nz/org/cacophony/sidekick/RecordingDao.java:27-28 | a taken id or path fails with the table and counter unchanged; otherwise the row is appended with its given or next id, and insertion succeeds exactly when neither is taken |
| RecordingV1.RecordingDao.DeleteRecording | app/src/main/java/nz/org/cacophony/sidekick/RecordingDao.java:30-31 | the new rows are `DeleteById` of the old ones; invariants kept |
| RecordingV1.RecordingDao.DeleteAll | app/src/main/java/nz/org/cacophony/sidekick/RecordingDao.java:33-34 | the table is empty; the counter is kept |
| RecordingV1.RecordingDao.GetUploadedFromDevice | app/src/main/java/nz/org/cacophony/sidekick/RecordingDao.java:36-37 | exactly the uploaded rows of that device |
| RecordingV1.RecordingDao.GetRecordingNamesFromDevice | app/src/main/java/nz/org/cacophony/sidekick/RecordingDao.java:40-41 | one name per row of that device, and exactly the names of that device's rows |
| RecordingStore.NewRecording | app/src/main/java/nz/org/cacophony/sidekick/db/Recording.java:50-56 | the constructor sets exactly device name, path, name, group name and device id; not uploaded, no id, no size |
| RecordingStore.GetRecording | app/src/main/java/nz/org/cacophony/sidekick/db/Recording.java:58-61 | returns the same recording |
| RecordingStore.RowRoundTrip | app/src/main/java/nz/org/cacophony/sidekick/db/Recording.java:19-48 | a recording stored as a row reads back as the same recording |
| RecordingStore.ToRow | app/src/main/java/nz/org/cacophony/sidekick/db/Recording.java:19-48 | every stored row fits the column types and NOT NULL constraints |
| RecordingStore.GroupNameOnlyNullableText | app/src/main/java/nz/org/cacophony/sidekick/db/Recording.java:27-29 | `group_name` is the one nullable text column |
| RecordingStore.AddedColumns | app/src/main/java/nz/org/cacophony/sidekick/db/Recording.java:10-33 | the table has `group_name` and `device_id`, and `recording_path` is its only unique column |
| RecordingStore.MarkUploaded | app/src/main/java/nz/org/cacophony/sidekick/db/Recording.kt:71-72 | only the flag of a row can change, and afterwards a row is uploaded exactly when it was before or its id equals the argument |
| RecordingStore.DeleteById | app/src/main/java/nz/org/cacophony/sidekick/db/Recording.kt:52-53 | exactly the rows whose id equals the argument go (none for NULL); unique ids and paths stay unique |
| RecordingStore.RecordingDao.Insert | app/src/main/java/nz/org/cacophony/sidekick/db/Recording.kt:14-30 | a taken id fails as a primary-key violation and a taken path as a unique violation, with the table unchanged; otherwise the row is appended with its given or next id; no flag is cleared |
| RecordingStore.RecordingDao.DeleteRecording | app/src/main/java/nz/org/cacophony/sidekick/db/Recording.kt:52-53 | the new rows are `DeleteById` of the old ones; invariants kept; no flag cleared |
| RecordingStore.RecordingDao.GetUploadedFromDevice | app/src/main/java/nz/org/cacophony/sidekick/db/Recording.kt:55-56 | exactly the uploaded rows whose device and group both match; a NULL group matches nothing |
| RecordingStore.RecordingDao.GetRecordingNamesForDevice | app/src/main/java/nz/org/cacophony/sidekick/db/Recording.kt:59-60 | one name per matching row, uploaded or not, and exactly those names; a NULL group gives none |
| RecordingStore.RecordingDao.GetRecordingsToUpload | app/src/main/java/nz/org/cacophony/sidekick/db/Recording.kt:62-63 | exactly the rows not uploaded, each at most as often as stored |
| RecordingStore.RecordingDao.GetAllRecordings | app/src/main/java/nz/org/cacophony/sidekick/db/Recording.kt:68-69 | every row, in storage order |
| RecordingStore.RecordingDao.SetAsUploaded | app/src/main/java/nz/org/cacophony/sidekick/db/Recording.kt:71-72 | the new rows are `MarkUploaded` of the old ones; invariants kept; no flag cleared |
| RecordingStore.MarkUploadedSetsOnlyThatRow | app/src/main/java/nz/org/cacophony/sidekick/db/Recording.kt:71-72 | after `setAsUploaded` a row is uploaded exactly when it was before or has that id; no flag is cleared |
| RecordingStore.MarkUnknownIdNoop | app/src/main/java/nz/org/cacophony/sidekick/db/Recording.kt:71-72 | an id no row carries changes nothing |
| RecordingStore.DeleteUnknownIdNoop | app/src/main/java/nz/org/cacophony/sidekick/db/Recording.kt:52-53 | deleting an id no row carries changes nothing |
| RecordingStore.DeleteFirst | app/src/main/java/nz/org/cacophony/sidekick/db/Recording.kt:52-53 | with unique ids, deleting the first row's id leaves exactly the other rows in order |
| EventStore.NewEvent | app/src/main/java/nz/org/cacophony/sidekick/db/Event.kt:6-17 | the constructor sets the five given fields; id 0, not uploaded |
| EventStore.RowRoundTrip | app/src/main/java/nz/org/cacophony/sidekick/db/Event.kt:6-17 | an event stored as a row reads back as the same event |
| EventStore.ToRow | app/src/main/java/nz/org/cacophony/sidekick/db/Event.kt:6-17 | every stored row fits the column types and NOT NULL constraints |
| EventStore.InsertOne | app/src/main/java/nz/org/cacophony/sidekick/db/Event.kt:62-63 | an event fails exactly when its non-zero id is taken; otherwise it is appended with id 0 replaced by the counter |
| EventStore.InsertMany | app/src/main/java/nz/org/cacophony/sidekick/db/Event.kt:62-63 | a successful batch adds one row per event and never lowers the counter |
| EventStore.InsertOneValid | app/src/main/java/nz/org/cacophony/sidekick/db/Event.kt:14-15 | a successful insert keeps ids non-zero, distinct and below the counter |
| EventStore.InsertManyValid | app/src/main/java/nz/org/cacophony/sidekick/db/Event.kt:62-63 | a successful batch insert keeps the table invariant |
| EventStore.InsertManyAppends | app/src/main/java/nz/org/cacophony/sidekick/db/Event.kt:62-63 | a successful batch keeps the old rows and appends the events in order, ids assigned where 0 and kept otherwise |
| EventStore.DuplicateInBatchFails | app/src/main/java/nz/org/cacophony/sidekick/db/Event.kt:62-63 | the same event with a set id twice in one batch fails |
| EventStore.InsertManyFailureSticks | app/src/main/java/nz/org/cacophony/sidekick/db/Event.kt:62-63 | once a prefix of the batch fails, the whole batch fails with that error |
| EventStore.MarkUploaded | app/src/main/java/nz/org/cacophony/sidekick/db/Event.kt:53-54 | only the flag of a row can change, and afterwards a row is uploaded exactly when it was before or its id is that one |
| EventStore.MarkUploadedOnlyThatEvent | app/src/main/java/nz/org/cacophony/sidekick/db/Event.kt:53-54 | only the flag changes, it becomes true exactly for that id, and an absent id changes nothing |
| EventStore.DeleteById | app/src/main/java/nz/org/cacophony/sidekick/db/Event.kt:65-66 | exactly the rows with that id go; unique ids stay unique; an absent id changes nothing |
| EventStore.DeleteFirst | app/src/main/java/nz/org/cacophony/sidekick/db/Event.kt:65-66 | with unique ids, deleting the first event leaves exactly the others in order |
| EventStore.NarrowedIds | app/src/main/java/nz/org/cacophony/sidekick/db/Event.kt:38-42 | a device's not-uploaded event ids are a sub-multiset of all its event ids |
| EventStore.EventDao.GetAllForDevice | app/src/main/java/nz/org/cacophony/sidekick/db/Event.kt:26-27 | exactly the events of that device |
| EventStore.EventDao.GetDeviceEvents | app/src/main/java/nz/org/cacophony/sidekick/db/Event.kt:47-48 | the same rows as `getAllForDevice` |
| EventStore.EventDao.GetOneNotUploaded | app/src/main/java/nz/org/cacophony/sidekick/db/Event.kt:29-30 | a stored event, not uploaded, whose id is not excluded; none exactly when no such event exists |
| EventStore.EventDao.GetSimilarToUpload | app/src/main/java/nz/org/cacophony/sidekick/db/Event.kt:32-33 | exactly the not-uploaded events with that device, type and details |
| EventStore.EventDao.GetDeviceEvent | app/src/main/java/nz/org/cacophony/sidekick/db/Event.kt:35-36 | one stored event with that device and event id; none exactly when there is no such event |
| EventStore.EventDao.GetDeviceEventIDs | app/src/main/java/nz/org/cacophony/sidekick/db/Event.kt:38-39 | exactly the event ids of that device |
| EventStore.EventDao.GetDeviceEventIDsNotUploaded | app/src/main/java/nz/org/cacophony/sidekick/db/Event.kt:41-42 | exactly the event ids of the device's not-uploaded rows (each such row contributes its id), and a sub-multiset of the device's ids |
| EventStore.EventDao.GetEventsToUpload | app/src/main/java/nz/org/cacophony/sidekick/db/Event.kt:44-45 | exactly the events not uploaded |
| EventStore.EventDao.GetUploadedFromDevice | app/src/main/java/nz/org/cacophony/sidekick/db/Event.kt:50-51 | exactly the event ids of the device's uploaded rows (each such row contributes its id), and a sub-multiset of the device's ids |
| EventStore.UploadedIds | app/src/main/java/nz/org/cacophony/sidekick/db/Event.kt:50-51 | the device's uploaded rows hold each event id at most as often as all the device's rows |
| EventStore.EventDao.GetAllEvents | app/src/main/java/nz/org/cacophony/sidekick/db/Event.kt:59-60 | every event, in storage order |
| EventStore.EventDao.SetAsUploaded | app/src/main/java/nz/org/cacophony/sidekick/db/Event.kt:53-54 | the new rows are `MarkUploaded` of the old ones; invariant kept |
| EventStore.EventDao.Delete | app/src/main/java/nz/org/cacophony/sidekick/db/Event.kt:65-66 | the new rows are `DeleteById` of the old ones; invariant kept |
| EventStore.EventDao.InsertAll | app/src/main/java/nz/org/cacophony/sidekick/db/Event.kt:62-63 | the batch is all or nothing: on success the rows and counter are those of `InsertMany`, on failure nothing changes; ids come from the AUTOINCREMENT counter (see "Left out") |
| Schema.Created | app/src/main/java/nz/org/cacophony/sidekick/db/RoomDatabase.kt:12 | a new file has the configured version and one empty table per entity |
| Schema.ApplyChanges | app/src/main/java/nz/org/cacophony/sidekick/db/Migrations.kt:11-22 | a migration's statements keep the version and every existing table with its rows |
| Schema.ApplyMigration | app/src/main/java/nz/org/cacophony/sidekick/db/Migrations.kt:10 | a successful migration ends at its end version and keeps every existing table |
| Schema.BestStep | app/src/main/java/nz/org/cacophony/sidekick/db/RoomDatabase.kt:42 | the registered migration from the current version that goes furthest without passing the target; none exactly when no migration qualifies |
| Schema.FindPath | app/src/main/java/nz/org/cacophony/sidekick/db/RoomDatabase.kt:42 | a found path is a chain of registered migrations from the file's version to the target |
| Schema.ApplyPath | app/src/main/java/nz/org/cacophony/sidekick/db/RoomDatabase.kt:42 | running a chain ends at the target version and keeps every existing table |
| Schema.Open | app/src/main/java/nz/org/cacophony/sidekick/db/RoomDatabase.kt:40-43 | a database that opens has the configured version and every entity table with its entity's shape |
| Schema.OpenKeepsExistingTables | app/src/main/java/nz/org/cacophony/sidekick/db/RoomDatabase.kt:42 | opening through a migration path keeps every existing table and its rows |
| Schema.NoPathNoFallbackFails | app/src/main/java/nz/org/cacophony/sidekick/db/RoomDatabase.kt:40-43 | without a path or a fallback, opening fails with "migration required" |
| Schema.NoPathFallbackWipes | app/src/main/java/nz/org/cacophony/sidekick/RecordingRoomDatabase.java:28 | without a path but with the fallback, opening succeeds at the configured version with every entity table empty, every other table of the old file kept with its rows, and no other table added |
| Schema.Recreated | app/src/main/java/nz/org/cacophony/sidekick/RecordingRoomDatabase.java:28 | the destructive fallback: the declared version, every entity table recreated empty with its shape, and every non-entity table left with its rows |
| Migrations.Migration3To4Shape | app/src/main/java/nz/org/cacophony/sidekick/db/Migrations.kt:10-21 | it goes from 3 to 4; the table it creates has the columns, types, NOT NULL flags and primary key of the `Event` entity, which is what the schema check compares; `id` alone is the primary key; `uploaded` is an integer |
| Migrations.Migration3To4OnlyAddsEvent | app/src/main/java/nz/org/cacophony/sidekick/db/Migrations.kt:12-22 | on a file without `event` it only adds an empty `event` table; recording rows are untouched |
| Migrations.Migration3To4NeedsNoEventTable | app/src/main/java/nz/org/cacophony/sidekick/db/Migrations.kt:13 | on a file that already has `event`, the plain `CREATE TABLE` fails |
| Database.V5Config | app/src/main/java/nz/org/cacophony/sidekick/db/RoomDatabase.kt:40-43 | version 5, both entities, migrations 3→4 then 4→5, no destructive fallback |
| Database.V1OtherVersionWipes | app/src/main/java/nz/org/cacophony/sidekick/RecordingRoomDatabase.java:24-30 | any other stored version reopens at version 1 with an empty `recording` table and every other table, such as a later version's `event` table, left as it was |
| Database.V4OpensVersion3 | app/src/main/java/nz/org/cacophony/sidekick/db/RoomDatabase.java:31-35 | a version-3 file opens at version 4 with its rows kept and an empty `event` table |
| Database.V4RejectsOtherVersions | app/src/main/java/nz/org/cacophony/sidekick/db/RoomDatabase.java:31-35 | versions 1, 2 and above 4 fail, since there is no path and no fallback |
| Database.V5Chain | app/src/main/java/nz/org/cacophony/sidekick/db/RoomDatabase.kt:42 | 3 reaches 5 through both migrations, and 4 through the second |
| Database.V5RejectsOldVersions | app/src/main/java/nz/org/cacophony/sidekick/db/RoomDatabase.kt:40-43 | versions 1 and 2 fail to open |
| Database.LoadV4 | app/src/main/java/nz/org/cacophony/sidekick/db/RoomDatabase.kt:40-43 | opening failures are passed on; on success the DAO contents are exactly the decoded rows of the opened file's two tables, and they meet the table invariants |
| Database.ReopenV4KeepsRows | app/src/main/java/nz/org/cacophony/sidekick/db/RoomDatabase.kt:40-43 | rows survive a restart: reopening the file the database left at its version gives back exactly the recordings and events it held, and neither counter resumes above where it was |
| Database.FirstStartLoadsEmpty | app/src/main/java/nz/org/cacophony/sidekick/db/RoomDatabase.kt:40-43 | a file never opened before loads as two empty tables with both counters at 1 |
| Database.Version3LoadsItsRecordings | app/src/main/java/nz/org/cacophony/sidekick/db/RoomDatabase.kt:40-43 | a version-3 file loads with its stored recording rows and no events |
| Database.LoadV1 | app/src/main/java/nz/org/cacophony/sidekick/RecordingRoomDatabase.java:24-30 | opening failures are passed on; on success the DAO holds exactly the decoded rows of the `recording` table, which meet the table invariant |
| Database.ReopenV1KeepsRows | app/src/main/java/nz/org/cacophony/sidekick/RecordingRoomDatabase.java:24-30 | version-1 rows survive a restart as well, and the counter does not resume above where it was |
| Schema.DecodeRows | app/src/main/java/nz/org/cacophony/sidekick/db/RoomDatabase.kt:40-43 | one entity per row in storage order, each the decoding of its row; `None` only when some row does not decode |
| Schema.DecodeEncoded | app/src/main/java/nz/org/cacophony/sidekick/db/RoomDatabase.kt:40-43 | rows written from entities that each read back read back as the same list |
| Wrappers.NextAbove | app/src/main/java/nz/org/cacophony/sidekick/db/Event.kt:14-15 | at least 1, above every key, and either 1 or one more than some key: the id SQLite hands out next |
| Database.ClearTrace | app/src/main/java/nz/org/cacophony/sidekick/db/RoomDatabase.kt:19-24 | two actions per recording |
| Database.FileDeletedBeforeRow | app/src/main/java/nz/org/cacophony/sidekick/db/RoomDatabase.kt:20-23 | each recording's file is deleted just before its row, in storage order |
| Database.ClearTraceStep | app/src/main/java/nz/org/cacophony/sidekick/db/RoomDatabase.kt:20-23 | one more loop iteration adds exactly that recording's two actions |
| Database.AppDatabase.ClearData | app/src/main/java/nz/org/cacophony/sidekick/db/RoomDatabase.kt:18-29 | both tables end up empty, both AUTOINCREMENT counters stay where they were so no id is reused, and the actions are the trace for the old recordings |
| Database.AppDatabase.constructor | app/src/main/java/nz/org/cacophony/sidekick/db/RoomDatabase.kt:15-16 | two fresh DAOs holding exactly the rows and counters read from the opened file |
| Database.RecordingRoomDatabase.constructor | app/src/main/java/nz/org/cacophony/sidekick/RecordingRoomDatabase.java:12-15 | a fresh DAO holding exactly the rows and counter read from the opened file |
| Database.AppDatabase.PopulateDbAsync | app/src/main/java/nz/org/cacophony/sidekick/db/RoomDatabase.java:53-59 | the open-callback task writes nothing |
| Database.AppDatabaseHolder.GetDatabase | app/src/main/java/nz/org/cacophony/sidekick/db/RoomDatabase.kt:36-48 | the first call opens the saved file and stores a database whose DAOs hold that file's rows and the counters the load computed, or reports the failure and stores nothing; every later call returns the stored one |
| Database.RecordingRoomDatabase.PopulateDbAsync | app/src/main/java/nz/org/cacophony/sidekick/RecordingRoomDatabase.java:55-60 | the open-callback task writes nothing |
| Database.RecordingDatabaseHolder.GetDatabase | app/src/main/java/nz/org/cacophony/sidekick/RecordingRoomDatabase.java:20-35 | the first call opens the saved file under the version-1 configuration and stores a database whose DAO holds its rows and the counter the load computed, or reports the failure; every later call returns the stored one |
| Singleton.InitInv | app/src/main/java/nz/org/cacophony/sidekick/db/RoomDatabase.kt:34 | the interleaving invariant holds before any thread has run |
| Singleton.Step | app/src/main/java/nz/org/cacophony/sidekick/db/RoomDatabase.kt:37-45 | only the stepping thread moves; a returned thread keeps its database; at most one build per step; with the re-check an existing instance is never replaced |
| Singleton.Run | app/src/main/java/nz/org/cacophony/sidekick/db/RoomDatabase.kt:36-48 | threads that returned keep their database; builds grow by at most one per step; with the re-check an existing instance is never replaced |
| Singleton.StepInv | app/src/main/java/nz/org/cacophony/sidekick/db/RoomDatabase.kt:37-45 | one step of any thread keeps the invariant |
| Singleton.RunInv | app/src/main/java/nz/org/cacophony/sidekick/db/RoomDatabase.kt:36-48 | every schedule keeps the invariant |
| Singleton.OneInstance | app/src/main/java/nz/org/cacophony/sidekick/db/RoomDatabase.kt:36-48 | under any interleaving the builder runs at most once, and every thread that returned got the same database |
| Singleton.WithoutRecheckTwoBuilds | app/src/main/java/nz/org/cacophony/sidekick/db/RoomDatabase.kt:37-39 | without the re-check inside the lock, two threads can build two databases |
| Singleton.WithRecheckOneBuild | app/src/main/java/nz/org/cacophony/sidekick/db/RoomDatabase.kt:37-39 | with the re-check, the same schedule builds one database and both threads get it |
| DeviceModel.NextState | app/src/main/java/nz/org/cacophony/sidekick/Device.kt:459-512 | the state becomes the target exactly when it is already there or the switch is allowed; otherwise it stays |
| DeviceModel.Apply | app/src/main/java/nz/org/cacophony/sidekick/Device.kt:416-457 | no event clears `hasRecordingList`, `hasDeviceInfo` or `hasConnected` |
| DeviceModel.InvalidSwitchKeepsState | app/src/main/java/nz/org/cacophony/sidekick/Device.kt:507-512 | a rejected switch leaves the state unchanged |
| DeviceModel.FoundAndReconnectAllowAll | app/src/main/java/nz/org/cacophony/sidekick/Device.kt:462-467 | from FOUND and RECONNECT every switch is allowed |
| DeviceModel.ErrorStateTargets | app/src/main/java/nz/org/cacophony/sidekick/Device.kt:492-505 | from an error state exactly CONNECTED, ERROR_CONNECTING_TO_DEVICE and RECONNECT are allowed |
| DeviceModel.ConnectedFromErrorWithInfoStays | app/src/main/java/nz/org/cacophony/sidekick/Device.kt:424-433 | `connected()` in an error state with device info only sets `hasConnected`: the switch to READY is rejected |
| DeviceModel.StopDownloadingOnlyFromDownloading | app/src/main/java/nz/org/cacophony/sidekick/Device.kt:416-422 | `downloadingRecordings(false)` changes the state exactly when it is DOWNLOADING_RECORDINGS, and then to READY |
| DeviceModel.FlagsStaySet | app/src/main/java/nz/org/cacophony/sidekick/Device.kt:424-457 | over any sequence of events the three flags only go from false to true |
| DeviceModel.ApplyAll | app/src/main/java/nz/org/cacophony/sidekick/Device.kt:416-457 | after any sequence of calls each of the three flags that was set is still set |
| DeviceModel.StatusFor | app/src/main/java/nz/org/cacophony/sidekick/Device.kt:163-186 | a disconnected device shows its state's message; the line is empty only for a negative count to download |
| DeviceModel.NoReconnectWithoutConnecting | app/src/main/java/nz/org/cacophony/sidekick/Device.kt:444-448 | RECONNECT is reached only through `connecting()` |
| DeviceModel.StateMachine.constructor | app/src/main/java/nz/org/cacophony/sidekick/Device.kt:411-414 | the machine starts in FOUND with no flag set |
| DeviceModel.StateMachine.UpdateState | app/src/main/java/nz/org/cacophony/sidekick/Device.kt:459-512 | only the state changes, to `NextState` |
| DeviceModel.StateMachine.DownloadingRecordingsCall | app/src/main/java/nz/org/cacophony/sidekick/Device.kt:416-422 | the machine moves as `Apply` prescribes |
| DeviceModel.StateMachine.ConnectedCall | app/src/main/java/nz/org/cacophony/sidekick/Device.kt:424-433 | the machine moves as `Apply` prescribes |
| DeviceModel.StateMachine.ConnectionToDeviceOnly | app/src/main/java/nz/org/cacophony/sidekick/Device.kt:435-438 | the machine moves as `Apply` prescribes |
| DeviceModel.StateMachine.ConnectionFailed | app/src/main/java/nz/org/cacophony/sidekick/Device.kt:440-442 | the machine moves as `Apply` prescribes |
| DeviceModel.StateMachine.Connecting | app/src/main/java/nz/org/cacophony/sidekick/Device.kt:444-448 | the machine moves as `Apply` prescribes |
| DeviceModel.StateMachine.GotDeviceInfo | app/src/main/java/nz/org/cacophony/sidekick/Device.kt:450-453 | the machine moves as `Apply` prescribes |
| DeviceModel.StateMachine.UpdatedRecordingList | app/src/main/java/nz/org/cacophony/sidekick/Device.kt:455-457 | the machine moves as `Apply` prescribes |
| DeviceModel.NumMissing | app/src/main/java/nz/org/cacophony/sidekick/Device.kt:188-198 | the count never exceeds the number of device recordings |
| DeviceModel.NoneMissingIff | app/src/main/java/nz/org/cacophony/sidekick/Device.kt:191-196 | the count is 0 exactly when every device recording has been downloaded |
| DeviceModel.AllMissingIff | app/src/main/java/nz/org/cacophony/sidekick/Device.kt:191-196 | the count is the whole list exactly when none has been downloaded |
| DeviceModel.NatToString | app/src/main/java/nz/org/cacophony/sidekick/Device.kt:173 | a number prints as a non-empty string of digits |
| DeviceModel.ParseNatToString | app/src/main/java/nz/org/cacophony/sidekick/Device.kt:173 | the printed digits read back as the number |
| DeviceModel.StatusWellFormed | app/src/main/java/nz/org/cacophony/sidekick/Device.kt:163-180 | the status is never empty, and while downloading it reads "Downloaded d of n" |
| DeviceModel.DisconnectedShowsMessage | app/src/main/java/nz/org/cacophony/sidekick/Device.kt:166-167 | a disconnected device shows its state's message |
| DeviceModel.Device.constructor | app/src/main/java/nz/org/cacophony/sidekick/Device.kt:24-39 | a new device has no recordings, an empty status and a fresh machine |
| DeviceModel.Device.UpdateNumberOfRecordingsToDownload | app/src/main/java/nz/org/cacophony/sidekick/Device.kt:188-198 | the count is `NumMissing` of the device's recordings and lies between 0 and their number; nothing else changes |
| DeviceModel.Device.UpdateStatusString | app/src/main/java/nz/org/cacophony/sidekick/Device.kt:163-186 | the status is the first matching case; the change callback fires exactly when the status changed |
| DeviceListModel.StrLessIrreflexive | app/src/main/java/nz/org/cacophony/sidekick/DeviceList.kt:22 | the key order of the sorted map is irreflexive |
| DeviceListModel.StrLessTransitive | app/src/main/java/nz/org/cacophony/sidekick/DeviceList.kt:22 | the key order is transitive |
| DeviceListModel.StrLessTotal | app/src/main/java/nz/org/cacophony/sidekick/DeviceList.kt:22 | the key order is total |
| DeviceListModel.StrLessAsymmetric | app/src/main/java/nz/org/cacophony/sidekick/DeviceList.kt:22 | the key order is asymmetric |
| DeviceListModel.Put | app/src/main/java/nz/org/cacophony/sidekick/DeviceList.kt:27 | storing under a name adds only that entry to the old ones |
| DeviceListModel.Erase | app/src/main/java/nz/org/cacophony/sidekick/DeviceList.kt:33 | removing a name keeps only old entries under other names |
| DeviceListModel.ToMap | app/src/main/java/nz/org/cacophony/sidekick/DeviceList.kt:72-74 | the map holds exactly the names the entries hold, each with its device |
| DeviceListModel.HeadSmallest | app/src/main/java/nz/org/cacophony/sidekick/DeviceList.kt:22 | in a sorted list the first name precedes all the others |
| DeviceListModel.LookupFinds | app/src/main/java/nz/org/cacophony/sidekick/DeviceList.kt:68-70 | a name is found exactly when some entry holds it |
| DeviceListModel.SortedDistinct | app/src/main/java/nz/org/cacophony/sidekick/DeviceList.kt:50-53 | in a sorted list the number of keys is the number of entries |
| DeviceListModel.PutSorted | app/src/main/java/nz/org/cacophony/sidekick/DeviceList.kt:25-29 | adding keeps the entries sorted |
| DeviceListModel.PutLookup | app/src/main/java/nz/org/cacophony/sidekick/DeviceList.kt:25-29 | after adding, the name maps to the new device and every other name is unchanged |
| DeviceListModel.EraseSorted | app/src/main/java/nz/org/cacophony/sidekick/DeviceList.kt:31-36 | removing keeps the entries sorted |
| DeviceListModel.EraseLookup | app/src/main/java/nz/org/cacophony/sidekick/DeviceList.kt:31-36 | after removing, the name is absent and every other name is unchanged |
| DeviceListModel.EraseAbsent | app/src/main/java/nz/org/cacophony/sidekick/DeviceList.kt:33 | removing an absent name changes nothing |
| DeviceListModel.AddThenHas | app/src/main/java/nz/org/cacophony/sidekick/DeviceList.kt:25-29 | after `add(d)`, `d.name` maps to `d` and other names are unchanged |
| DeviceListModel.RemoveThenHasNot | app/src/main/java/nz/org/cacophony/sidekick/DeviceList.kt:31-36 | after `remove(name)`, the name is gone and other names are unchanged |
| DeviceListModel.DeviceList.constructor | app/src/main/java/nz/org/cacophony/sidekick/DeviceList.kt:22-23 | empty, with no callback |
| DeviceListModel.DeviceList.NotifyChange | app/src/main/java/nz/org/cacophony/sidekick/DeviceList.kt:64-66 | the callback fires once if one is set; nothing else changes |
| DeviceListModel.DeviceList.Add | app/src/main/java/nz/org/cacophony/sidekick/DeviceList.kt:25-29 | the entries become `Put` of the old ones, they stay sorted, and a set callback fires once |
| DeviceListModel.DeviceList.Remove | app/src/main/java/nz/org/cacophony/sidekick/DeviceList.kt:31-36 | the entries become `Erase` of the old ones; an absent name changes nothing and does not notify; a present one notifies |
| DeviceListModel.DeviceList.Clear | app/src/main/java/nz/org/cacophony/sidekick/DeviceList.kt:38-43 | the list is empty, and the callback fires only if it was not empty before |
| DeviceListModel.DeviceList.ElementAt | app/src/main/java/nz/org/cacophony/sidekick/DeviceList.kt:45-48 | an index in range gives the device with exactly that many smaller names; any other index gives nothing |
| DeviceListModel.DeviceList.Size | app/src/main/java/nz/org/cacophony/sidekick/DeviceList.kt:50-53 | the number of names in the map |
| DeviceListModel.DeviceList.Has | app/src/main/java/nz/org/cacophony/sidekick/DeviceList.kt:68-70 | true exactly when some entry holds the name |
| DeviceListModel.DeviceList.GetMap | app/src/main/java/nz/org/cacophony/sidekick/DeviceList.kt:72-74 | the map of names to devices the entries hold |
| DeviceListModel.DeviceList.GetOnChanged | app/src/main/java/nz/org/cacophony/sidekick/DeviceList.kt:60-62 | whether a callback is set |
| DeviceListModel.DeviceList.SetOnChanged | app/src/main/java/nz/org/cacophony/sidekick/DeviceList.kt:55-58 | only the callback changes |
| Nsd.WithoutName | sidekick/shared/src/androidMain/kotlin/nz/org/cacophony/sidekick/NsdHelper.kt:69-73 | exactly the entries with another name remain, and the list never grows |
| Nsd.RequestResolve | sidekick/shared/src/androidMain/kotlin/nz/org/cacophony/sidekick/NsdHelper.kt:52 | a resolve request is issued only when a manager exists; nothing else changes |
| Nsd.Found | sidekick/shared/src/androidMain/kotlin/nz/org/cacophony/sidekick/NsdHelper.kt:44-63 | a foreign type changes nothing; ours leaves the resolver busy and is queued exactly when the resolver already was; the resolved list and listener are untouched and the log only grows |
| Nsd.Next | sidekick/shared/src/androidMain/kotlin/nz/org/cacophony/sidekick/NsdHelper.kt:155-166 | an empty queue frees the resolver and logs nothing; otherwise the head is removed and, with a manager, sent to be resolved |
| Nsd.Resolved | sidekick/shared/src/androidMain/kotlin/nz/org/cacophony/sidekick/NsdHelper.kt:108-119 | the service is appended to the resolved list, the hook call is logged first, and the queue shrinks by its head |
| Nsd.Lost | sidekick/shared/src/androidMain/kotlin/nz/org/cacophony/sidekick/NsdHelper.kt:65-86 | what remains queued or resolved was there before and has another name; the hook call is logged; busy flag and listener unchanged |
| Nsd.Stop | sidekick/shared/src/androidMain/kotlin/nz/org/cacophony/sidekick/NsdHelper.kt:143-152 | no listener afterwards; without a listener nothing changes; the queue and lists are untouched; at most one call is logged |
| Nsd.Discover | sidekick/shared/src/androidMain/kotlin/nz/org/cacophony/sidekick/NsdHelper.kt:132-140 | a listener is set; the queue and lists are untouched; with a manager the last call logged is the discovery request |
| Nsd.FoundCases | sidekick/shared/src/androidMain/kotlin/nz/org/cacophony/sidekick/NsdHelper.kt:48-62 | a foreign type changes nothing; ours starts the single resolve when idle (busy becomes true) and is queued when busy |
| Nsd.StepsKeepInv | sidekick/shared/src/androidMain/kotlin/nz/org/cacophony/sidekick/NsdHelper.kt:44-166 | every callback keeps the invariant: the queue is empty when idle and holds only our type |
| Nsd.BusyClearedOnlyWhenQueueEmpty | sidekick/shared/src/androidMain/kotlin/nz/org/cacophony/sidekick/NsdHelper.kt:155-165 | moving to the next service leaves the resolver busy exactly when the queue was not empty, and no other callback frees it |
| Nsd.ForeignTypeIgnored | sidekick/shared/src/androidMain/kotlin/nz/org/cacophony/sidekick/NsdHelper.kt:59-62 | a service of another type is neither queued nor resolved |
| Nsd.ResolvedAppends | sidekick/shared/src/androidMain/kotlin/nz/org/cacophony/sidekick/NsdHelper.kt:112 | a successful resolve appends exactly that service to the resolved list |
| Nsd.LostForgetsName | sidekick/shared/src/androidMain/kotlin/nz/org/cacophony/sidekick/NsdHelper.kt:69-82 | after a loss no pending or resolved entry has that name, and entries with other names remain |
| Nsd.StopIdempotent | sidekick/shared/src/androidMain/kotlin/nz/org/cacophony/sidekick/NsdHelper.kt:143-152 | after `stopDiscovery` no listener is set, and stopping again changes nothing |
| Nsd.ResolveCalls | sidekick/shared/src/androidMain/kotlin/nz/org/cacophony/sidekick/NsdHelper.kt:160 | one resolve call per queued service, in queue order |
| Nsd.QueueServedInOrder | sidekick/shared/src/androidMain/kotlin/nz/org/cacophony/sidekick/NsdHelper.kt:155-161 | k completions resolve the first k queued services in FIFO order and leave the rest queued |
| Nsd.FoundWhileBusyQueues | sidekick/shared/src/androidMain/kotlin/nz/org/cacophony/sidekick/NsdHelper.kt:54-57 | services found while busy are queued in arrival order without issuing resolves |
| Nsd.DropName | sidekick/shared/src/androidMain/kotlin/nz/org/cacophony/sidekick/NsdHelper.kt:69-73 | the iterator loop removes exactly the entries of that name |
| Nsd.NsdHelper.constructor | sidekick/shared/src/androidMain/kotlin/nz/org/cacophony/sidekick/NsdHelper.kt:13-18 | idle, empty queue and list, no listener, nothing logged |
| Nsd.NsdHelper.ResolveService | sidekick/shared/src/androidMain/kotlin/nz/org/cacophony/sidekick/NsdHelper.kt:52 | the state moves as `RequestResolve` prescribes |
| Nsd.NsdHelper.OnServiceFound | sidekick/shared/src/androidMain/kotlin/nz/org/cacophony/sidekick/NsdHelper.kt:44-63 | the state moves as `Found` prescribes |
| Nsd.NsdHelper.OnServiceLost | sidekick/shared/src/androidMain/kotlin/nz/org/cacophony/sidekick/NsdHelper.kt:65-86 | the state moves as `Lost` prescribes |
| Nsd.NsdHelper.OnServiceResolved | sidekick/shared/src/androidMain/kotlin/nz/org/cacophony/sidekick/NsdHelper.kt:108-119 | the state moves as `Resolved` prescribes |
| Nsd.NsdHelper.OnResolveFailed | sidekick/shared/src/androidMain/kotlin/nz/org/cacophony/sidekick/NsdHelper.kt:121-127 | the state moves as `Next` prescribes |
| Nsd.NsdHelper.ResolveNextInQueue | sidekick/shared/src/androidMain/kotlin/nz/org/cacophony/sidekick/NsdHelper.kt:155-166 | the state moves as `Next` prescribes |
| Nsd.NsdHelper.StopDiscovery | sidekick/shared/src/androidMain/kotlin/nz/org/cacophony/sidekick/NsdHelper.kt:143-152 | the state moves as `Stop` prescribes |
| Nsd.NsdHelper.DiscoverServices | sidekick/shared/src/androidMain/kotlin/nz/org/cacophony/sidekick/NsdHelper.kt:132-140 | the state moves as `Discover` prescribes |
| Nsd.NsdHelper.OnStartDiscoveryFailed | sidekick/shared/src/androidMain/kotlin/nz/org/cacophony/sidekick/NsdHelper.kt:92-95 | the state moves as `Stop` prescribes |
| Nsd.NsdHelper.OnStopDiscoveryFailed | sidekick/shared/src/androidMain/kotlin/nz/org/cacophony/sidekick/NsdHelper.kt:97-100 | only a stop request is logged, and only when a manager exists |
| Text.UnescapeQuotes | src/database/index.ts:40 | replacing each `\"` never lengthens the text |
| Text.StripOuterQuotes | src/database/index.ts:40 | a text wrapped in quotes on one line is the result with one quote put back at each end; any other text is returned whole; never longer |
| Text.RemoveEscapedQuotes | src/database/index.ts:39-41 | the result is never longer than the input |
| Text.UnescapeIdentity | src/database/index.ts:40 | text without `\"` is unchanged by the first replacement |
| Text.PlainStringUnchanged | src/database/index.ts:39-41 | text without `\"` and not wrapped in quotes is returned unchanged |
| Text.OneOuterPairStripped | src/database/index.ts:40 | wrapping plain one-line text in quotes and removing them gives the text back |
| Text.QuotedAbc | src/database/index.ts:40 | `"abc"` becomes `abc` |
| Text.DoublyQuotedAbc | src/database/index.ts:40 | `""abc""` becomes `"abc"`: only one outer pair is stripped |
| Text.EscapeQuotes | src/database/index.ts:40 | escaping never shortens the text |
| Text.UnescapeEscape | src/database/index.ts:40 | putting a backslash before every quote and then applying the replacement gives the text back, for every text |
| Text.StripDisallowed | src/components/NavButtons.tsx:15 | only ASCII letters, digits and spaces remain |
| Text.DropWhitespace | src/components/NavButtons.tsx:16 | a suffix of the input that does not start with whitespace |
| Text.Lower | src/components/NavButtons.tsx:17 | same length; each character lower-cased |
| Text.CollapseWhitespace | src/components/NavButtons.tsx:16 | the result has no whitespace, is never longer, and is empty only for empty input |
| Text.LowerChar | src/components/NavButtons.tsx:17 | an ASCII capital becomes the letter 32 code points above it, a lower-case letter; any other character is unchanged |
| Text.FormatLink | src/components/NavButtons.tsx:13-17 | the link starts with `/` |
| Text.CollapseHead | src/components/NavButtons.tsx:16 | a non-empty result starts with `-` exactly when the input starts with whitespace |
| Text.CollapseShape | src/components/NavButtons.tsx:15-16 | after stripping, every whitespace run has become a single `-` between letters and digits |
| Text.FormatLinkShape | src/components/NavButtons.tsx:13-17 | after the `/` only lower-case letters, digits and `-` occur, never `--` |
| Text.CollapseNoWhitespace | src/components/NavButtons.tsx:16 | text without whitespace is unchanged |
| Text.PlainCaptionLink | src/components/NavButtons.tsx:13-17 | a caption of letters and digits becomes `/` and its lower-case form |
| Text.StorageLink | src/components/NavButtons.tsx:13-17 | `Storage` becomes `/storage` |
| Text.DropKeepsWords | src/components/NavButtons.tsx:16 | dropping leading whitespace loses no other character |
| Text.CollapseKeepsWords | src/components/NavButtons.tsx:16 | for dash-free text, collapsing keeps every non-whitespace character in order |
| TextKeyTable.InsertRow | src/database/Entities/Event.ts:10 | an insert fails with a unique violation exactly when the key is taken; otherwise it appends the row and keys stay unique |
| TextKeyTable.DeleteKeys | src/database/Entities/Recording.ts:119-125 | exactly the rows with a listed key go, the rest keep their order, and keys stay unique |
| TextKeyTable.DeleteAbsentKeys | src/database/Entities/Recording.ts:119-125 | deleting keys no row carries changes nothing |
| RecordingEntity.RecordingId | src/database/Entities/Recording.ts:91-93 | the id is the device, a dash, then the name |
| RecordingEntity.IdInjectiveForPlainDevices | src/database/Entities/Recording.ts:91-93 | for devices without a dash the id determines device and name, so the same pair cannot be inserted twice |
| RecordingEntity.IdCollision | src/database/Entities/Recording.ts:91-93 | a dash in a device name lets two different recordings share an id |
| RecordingEntity.Inserted | src/database/Entities/Recording.ts:89-103 | the inserted row has the computed id and the given columns; not uploaded, no upload id |
| RecordingEntity.Select | src/database/Entities/Recording.ts:56-72 | exactly the rows matching every supplied truthy filter, each at most as often as the table holds it; storage order is kept (`Wrappers.FilterAppend`) |
| RecordingEntity.FalsyOptionsIgnored | src/database/Entities/Recording.ts:58-69 | `uploaded: false` and empty strings select as if the option were absent |
| RecordingEntity.NoOptionsSelectsAll | src/database/Entities/Recording.ts:47-87 | no options select every row |
| RecordingEntity.UploadUpdate | src/database/Entities/Recording.ts:105-111 | only the flag and upload id of a row can change, and a row changes only when it has the recording's id and the recording is uploaded with a non-empty upload id; such a row ends uploaded with that upload id |
| RecordingEntity.UpdateNeverClears | src/database/Entities/Recording.ts:105-111 | an update never clears a flag or changes an id |
| RecordingEntity.IdsOf | src/database/Entities/Recording.ts:121 | exactly the ids of the listed recordings |
| RecordingEntity.DeleteNoneIsNoop | src/database/Entities/Recording.ts:119-125 | deleting an empty list deletes nothing |
| RecordingEntity.RecordingTable.GetRecordings | src/database/Entities/Recording.ts:47-87 | the selected rows, or an empty list when the query or the parse fails |
| RecordingEntity.RecordingTable.InsertRecording | src/database/Entities/Recording.ts:89-103 | a taken id fails with the table unchanged; otherwise the inserted row is appended |
| RecordingEntity.RecordingTable.UpdateRecording | src/database/Entities/Recording.ts:105-111 | the rows become `UploadUpdate` of the old ones; ids stay unique |
| RecordingEntity.RecordingTable.DeleteRecording | src/database/Entities/Recording.ts:113-117 | exactly the row with that id goes |
| RecordingEntity.RecordingTable.DeleteRecordings | src/database/Entities/Recording.ts:119-125 | exactly the rows with a listed id go |
| EventEntity.FindKey | src/database/Entities/Event.ts:33-36 | the stored row with that key, or none exactly when the key is absent |
| EventEntity.InsertEventRows | src/database/Entities/Event.ts:32-49 | unchanged when the key is stored, otherwise the event appended; keys stay unique and the key is then stored |
| EventEntity.InsertEventIdempotent | src/database/Entities/Event.ts:32-49 | inserting the same event twice equals inserting it once |
| EventEntity.Select | src/database/Entities/Event.ts:57-64 | exactly the rows matching every present option, each at most as often as the table holds it; storage order is kept (`Wrappers.FilterAppend`) |
| Wrappers.FilterAppend | src/database/Entities/Event.ts:57-64 | a selection keeps storage order: the rows taken from a prefix come before those taken from the rest |
| EventEntity.ReadBack | src/database/Entities/Event.ts:71 | only the details change, and they never grow |
| EventEntity.ReadAll | src/database/Entities/Event.ts:70-72 | each row read back, in order |
| EventEntity.FiltersConjunctive | src/database/Entities/Event.ts:57-64 | `uploaded: false` with a device selects exactly the not-uploaded events of that device |
| EventEntity.KeysOf | src/database/Entities/Event.ts:93-95 | exactly the keys of the listed events |
| EventEntity.SetUploaded | src/database/Entities/Event.ts:78-83 | only the flag of a row can change; the row with that key ends with the given flag, true or false; every other row is unchanged |
| EventEntity.SetUploadedKeepsKeys | src/database/Entities/Event.ts:10 | an update keeps keys unique |
| EventEntity.EventTable.InsertEvent | src/database/Entities/Event.ts:32-49 | hands back the stored row and writes nothing when the key is taken; otherwise inserts the row and hands back `None` in place of the driver's change report |
| EventEntity.EventTable.GetEvents | src/database/Entities/Event.ts:53-76 | the selected rows, read back; every matching row appears |
| EventEntity.EventTable.UpdateEvent | src/database/Entities/Event.ts:78-83 | the rows become `SetUploaded` of the old ones |
| EventEntity.EventTable.DeleteEvent | src/database/Entities/Event.ts:85-88 | exactly the row with that key goes |
| EventEntity.EventTable.DeleteEvents | src/database/Entities/Event.ts:90-98 | an empty list changes nothing; otherwise exactly the rows with a listed key go |
| LegacyRecording.Inserted | src/database/Recording.ts:77-90 | the inserted row carries the six given columns, not uploaded, no upload id |
| LegacyRecording.Select | src/database/Recording.ts:48-64 | exactly the rows matching every truthy option, each at most as often as the table holds it; storage order is kept (`Wrappers.FilterAppend`) |
| LegacyRecording.UploadedFalseIgnored | src/database/Recording.ts:55-58 | `uploaded: false` selects as if no flag were given |
| LegacyRecording.WriteUpload | src/database/Recording.ts:92-98 | only the flag and upload id of a row can change; the row of that name ends with the given flag and upload id; every other row is unchanged |
| LegacyRecording.WriteUploadKeepsNames | src/database/Recording.ts:16 | an update keeps names unique |
| LegacyRecording.RecordingTable.GetRecordings | src/database/Recording.ts:41-75 | exactly the matching rows |
| LegacyRecording.RecordingTable.InsertRecording | src/database/Recording.ts:77-90 | a taken name fails with the table unchanged; otherwise the inserted row is appended |
| LegacyRecording.RecordingTable.UpdateRecording | src/database/Recording.ts:92-98 | a missing flag on a stored name fails as NOT NULL; a missing flag on an absent name changes nothing; otherwise the rows become `WriteUpload` of the old ones |
| LegacyRecording.RecordingTable.DeleteRecording | src/database/Recording.ts:100-106 | exactly the row with that name goes |
| LegacyRecording.RecordingTable.DeleteRecordings | src/database/Recording.ts:108-114 | no recordings change nothing and succeed; one recording is deleted by name; two or more are a binding error with nothing changed |
| LegacyEvent.Select | src/database/Event.ts:57-64 | exactly the rows matching every truthy option, each at most as often as the table holds it; storage order is kept (`Wrappers.FilterAppend`) |
| LegacyEvent.UploadedFalseIgnored | src/database/Event.ts:57-60 | `uploaded: false` selects as if no flag were given |
| LegacyEvent.SetUploaded | src/database/Event.ts:74-80 | only the flag of a row can change; the row with that key ends with the given flag; every other row is unchanged |
| LegacyEvent.SetUploadedKeepsKeys | src/database/Event.ts:15 | an update keeps keys unique |
| LegacyEvent.EventTable.InsertEvent | src/database/Event.ts:25-38 | a taken key fails with the table unchanged; otherwise the event is appended |
| LegacyEvent.EventTable.GetEvents | src/database/Event.ts:51-72 | exactly the matching rows |
| LegacyEvent.EventTable.UpdateEvent | src/database/Event.ts:74-80 | the rows become `SetUploaded` of the old ones |
| LegacyEvent.EventTable.DeleteEvent | src/database/Event.ts:82-88 | exactly the row with that key goes |
| LegacyEvent.EventTable.DeleteEvents | src/database/Event.ts:90-96 | no events change nothing and succeed; one event is deleted by key; two or more are a binding error with nothing changed |

## Left out

- `MIGRATION_4_5` is referenced by db/RoomDatabase.kt but not defined anywhere in the repository. `Database.V5Config` therefore takes that migration as a parameter, and the lemmas about version 5 assume only its start and end versions.
- No migration into version 3 exists. A version-3 file is taken as given, with the version-4 `recording` table.
- None of the database holders closes or tears down its instance, so the model has no close either.
- The LiveData queries `getRecordingLiveData` and `getEventLiveData` are left out. They observe a table and return the same rows as `getAllRecordings` and `getAllEvents`.
- File deletion in `clearData` is I/O. It is recorded as an action in a trace, not performed.
- Threads inside `getDatabase` are modelled by `Singleton` as an explicit interleaving of steps. `Database`'s holder classes are sequential.
- Room's open procedure belongs to the Room library, which is not part of this model. `Schema.Open` gives the behaviour the builders configure:
  - path search by the furthest step;
  - destructive fallback;
  - the schema check.
- The nullable parameter of `insert(recording: Recording?)` in db/Recording.kt is not modelled. A null argument is not a row.
- `LIMIT 1` without `ORDER BY` is taken to return the first match in storage order.
- `getOneNotUploaded` and `getDeviceEvent` are modelled on that basis.
- `EventStore.EventDao.InsertAll` (and `EventStore.InsertOne`, `EventStore.InsertMany` under it) gives an event with id 0 the next value of an AUTOINCREMENT counter. That is how the `event` table behaves when Room creates it for the entity on a fresh install. The table that `MIGRATION_3_4` creates (db/Migrations.kt:13-21) declares `PRIMARY KEY(id)` without AUTOINCREMENT. On such a table SQLite gives the largest id present plus one, so after the row with the largest id is deleted that id is handed out again. For example: insert ids 1 and 2, delete 2, insert again; SQLite gives 2, the model gives 3. The model does not distinguish the two kinds of install.
- `Migrations.Migration3To4Shape` states that the migrated table matches the entity in columns, types, NOT NULL flags and primary key, which is what Room's schema check compares. It does not state that the table matches the one Room would create, because the AUTOINCREMENT keyword differs.
- The TypeScript modules are treated as sequential: each call runs to completion before the next starts. In the source they are `async`. `insertEvent` looks up the key and then inserts in two awaited steps (src/database/Entities/Event.ts:34-48), and `saveEvent` is called without `await` inside a loop (src/contexts/Device/index.tsx:584-594). Two inserts of one key can therefore interleave between the lookup and the insert, and the second then fails on the primary key. The model does not capture that.
- `EventEntity.EventTable.InsertEvent` returns `None` where the source returns the result of `db.run` (the driver's report of the change). That report is not part of this model.
- `Database.AppDatabaseHolder.GetDatabase` and `Database.RecordingDatabaseHolder.GetDatabase` open the file on the first call. Room opens it lazily, at the first DAO call, so in the source an opening failure surfaces as an exception from that call, and `INSTANCE` has already been set. The model reports the failure from `GetDatabase` and stores no instance.
- `Database.LoadV4` and `Database.LoadV1` resume each id counter one above the largest stored id. The AUTOINCREMENT high-water mark lives in SQLite's `sqlite_sequence` table, which the file model does not hold, so after the row with the largest id was deleted the model's counter is lower than SQLite's.
- `Database.LoadV4` and `Database.LoadV1` report a stored row that does not read back as its entity, or stored rows that break their table's keys, as errors. A file written by SQLite and Room cannot hold either; the model does not assume that away.
- `Schema.Recreated` follows Room's `fallbackToDestructiveMigration()` without arguments, which drops and recreates only the tables of the declared entities. Room's own code is not part of this model.
- `DeviceListModel.DeviceList.GetMap` returns the map as a value. `getMap` in DeviceList.kt returns the live `sortedMapOf` map itself, through which a caller could change the list; the model does not capture that aliasing.
- SQLite integers are 64-bit. The model's ids and counters are unbounded, so AUTOINCREMENT overflow is not modelled.
- An Android `Boolean` stored as 0/1 is modelled as `bool`.
- The TypeScript modules call a SQLite plugin whose binding rules are not part of this model. The model assumes:
  - `undefined` is bound as NULL;
  - JavaScript `true` and `false` are bound as the integers 1 and 0. This is what makes `uploaded: true` in the `select` filters of Recording.ts and Event.ts match the stored 1, and what the inserts store for `isProd` and `isUploaded`;
  - an array of two or more values bound to a single `?` is a binding error, while an empty array leaves the `?` bound to NULL. `LegacyRecording.RecordingTable.DeleteRecordings` and `LegacyEvent.EventTable.DeleteEvents` therefore delete one item, succeed without change for none, and report two or more as an error.
- SQL quoting and injection in the queries built from strings are not modelled. Values are compared as given.
- Failures of the schema parse (`safeParse`) in the TypeScript modules are not modelled. Stored rows are well-typed values, so the parse always succeeds.
- `RecordingEntity.RecordingTable.GetRecordings` has a `failed` flag that stands for the query failures its `catch` swallows.
- A query failure in the other `getEvents`/`getRecordings` functions rejects the promise. That rejection is not modelled.
- `Text.LowerChar` lower-cases ASCII letters only. This is enough for `formatLink`, whose input has already been stripped to ASCII letters, digits and spaces.
- `DeviceListModel.StrLess` compares strings by code point. Kotlin's `sortedMapOf` compares UTF-16 code units, and the two orders differ only for characters outside the Basic Multilingual Plane.
- `DeviceList` methods are `@Synchronized`; the model treats the calls as sequential.
- The change callback is modelled only as a count of invocations.
- `elementAt` with an index out of range throws in Kotlin. The model returns `None`.
- DeviceDiscovery.kt calls `removeByName` and `deviceNameUpdated` on a `DeviceList`, but DeviceList.kt has no such methods. They are not modelled.
- Device.kt:190 calls `getRecordingNamesFromDevice(devicename, groupname)`, which matches neither DAO's signature. `DeviceModel.Device.UpdateNumberOfRecordingsToDownload` therefore takes the downloaded names as a parameter.
- The rest of `Device` is network and file I/O and is not modelled: the HTTP requests, downloads, file handling and `checkConnectionStatus`.
- Of `Device`'s state, the model keeps only `name` and the fields the status logic reads.
- The following parts of `NsdHelper` are not modelled:
  - `initializeNsd` and the creation of the listener objects;
  - the `println` logging;
  - `onDiscoveryStarted` and `onDiscoveryStopped`, which only log.
- `NsdHelper` uses an `AtomicBoolean`, a concurrent queue and a synchronized list. The model treats the callbacks as serialized.
- The abstract hooks `onNsdServiceResolved` and `onNsdServiceLost` are recorded in the call log.
- The Android manager's calls are recorded as a log of requests. A missing manager (`nsdManager` null) is a constant flag.
- `RecordingStore.RecordingDao.Insert` and `RecordingV1.RecordingDao.Insert` return the id that was assigned. The Kotlin `insert` returns nothing and throws on a conflict. The result value stands for "no exception", with the row id as it would be read back.
- `Text.RemoveEscapedQuotes`, `Text.FormatLink` and `Text.StripDisallowed` state only their simple bounds in their own `ensures`. Their content properties are the lemmas listed with them.
