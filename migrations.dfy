/** The one migration the Android app defines: from version 3 to version 4
    it creates the `event` table and touches nothing else. */
module Migrations {
  import opened Wrappers
  import opened Schema
  import EventStore

  /** The table the migration's `CREATE TABLE event` statement describes:
      seven NOT NULL columns, integers for the ids and the flag, text for the
      rest, `id` the primary key. */
  const CreatedEventTable := Table(
    map[
      "id" := ColumnInfo(Integer, true, 1),
      "device_id" := ColumnInfo(Integer, true, 0),
      "event_id" := ColumnInfo(Integer, true, 0),
      "timestamp" := ColumnInfo(Text, true, 0),
      "type" := ColumnInfo(Text, true, 0),
      "details" := ColumnInfo(Text, true, 0),
      "uploaded" := ColumnInfo(Integer, true, 0)],
    {})

  /** `MIGRATION_3_4`. */
  const Migration3To4 := Migration(3, 4, [CreateTable("event", CreatedEventTable)])

  /** The migration goes from version 3 to version 4, and the table it creates
      has the columns, types, NOT NULL flags and primary key that Room derives
      from the `Event` entity, which is all the schema check after migrating
      compares. Its primary key is `id` alone and the flag is stored as an
      integer. The SQL declares no AUTOINCREMENT, which a table Room creates
      for the entity would; `Schema.Table` does not record that keyword. */
  lemma Migration3To4Shape()
    ensures Migration3To4.startVersion == 3 && Migration3To4.endVersion == 4
    ensures CreatedEventTable == EventStore.EventTable
    ensures forall c :: c in CreatedEventTable.columns ==>
      (CreatedEventTable.columns[c].primaryKeyPosition != 0 <==> c == "id")
    ensures CreatedEventTable.columns["uploaded"].affinity == Integer
  {
  }

  /** On a file without an `event` table, the migration adds an empty one and
      keeps every other table, rows included; the file ends at version 4. */
  lemma Migration3To4OnlyAddsEvent(f: DbFile)
    requires "event" !in f.tables
    ensures ApplyMigration(f, Migration3To4) ==
      Ok(DbFile(4, f.tables["event" := StoredTable(CreatedEventTable, [])]))
  {
    var g := DbFile(f.version, f.tables["event" := StoredTable(CreatedEventTable, [])]);
    assert Migration3To4.changes[1..] == [];
    assert ApplyChanges(f, Migration3To4.changes) == ApplyChanges(g, []);
  }

  /** On a file that already has an `event` table the statement fails. */
  lemma Migration3To4NeedsNoEventTable(f: DbFile)
    requires "event" in f.tables
    ensures ApplyMigration(f, Migration3To4) == Err(TableExists("event"))
  {
  }
}
