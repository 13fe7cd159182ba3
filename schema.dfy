/** The on-disk side of the Android store: table schemas as Room sees them,
    a database file with its version tag, migrations as lists of schema
    changes, and what Room does when it opens a file whose version differs
    from the one the app declares. */
module Schema {
  import opened Wrappers

  /** SQLite storage classes used by the tables here. */
  datatype Affinity = Integer | Text

  /** One column as Room's schema check compares it: affinity, NOT NULL, and
      position in the primary key (0 when the column is not part of it). */
  datatype ColumnInfo = ColumnInfo(affinity: Affinity, notNull: bool, primaryKeyPosition: nat)

  /** A table: its columns by name (Room compares them without regard to
      order) and the columns that carry a single-column unique index. */
  datatype Table = Table(columns: map<string, ColumnInfo>, uniqueColumns: set<string>)

  datatype Value = IntValue(i: int) | TextValue(t: string) | Null

  type Row = map<string, Value>

  /** A value may be stored in a column: NULL only where the column allows
      it, otherwise a value of the column's affinity. */
  predicate Fits(v: Value, c: ColumnInfo)
  {
    match v
    case Null => !c.notNull
    case IntValue(_) => c.affinity == Integer
    case TextValue(_) => c.affinity == Text
  }

  /** A row has exactly the table's columns, each holding a value that fits it. */
  predicate Conforms(row: Row, t: Table)
  {
    row.Keys == t.columns.Keys &&
    forall c :: c in row ==> Fits(row[c], t.columns[c])
  }

  /** A table on disk: its shape and its rows. */
  datatype StoredTable = StoredTable(schema: Table, rows: seq<Row>)

  /** A database file: the version tag SQLite keeps in its header (0 for a
      file that has never been opened) and its tables. */
  datatype DbFile = DbFile(version: nat, tables: map<string, StoredTable>)

  /** The only kind of schema change any migration here performs. */
  datatype SchemaChange = CreateTable(name: string, table: Table)

  datatype Migration = Migration(startVersion: nat, endVersion: nat, changes: seq<SchemaChange>)

  /** What `Room.databaseBuilder(...)` is told: the declared version, the
      entity tables, the registered migrations in registration order, and
      whether `fallbackToDestructiveMigration()` was called. */
  datatype DbConfig = DbConfig(
    version: nat,
    entities: map<string, Table>,
    migrations: seq<Migration>,
    destructiveFallback: bool)

  datatype OpenError =
    | MigrationRequired(from: nat, to: nat)   // no migration path and no fallback
    | TableExists(name: string)                // a CREATE TABLE hit an existing table
    | MigrationInvalid                         // a migrated table does not match its entity
    | IntegrityCheckFailed                     // same version, different schema

  /** A fresh file at the declared version with every entity table empty. */
  function Created(cfg: DbConfig): (f: DbFile)
    ensures f.version == cfg.version && f.tables.Keys == cfg.entities.Keys
    ensures forall t :: t in f.tables ==> f.tables[t] == StoredTable(cfg.entities[t], [])
  {
    DbFile(cfg.version, map t | t in cfg.entities :: StoredTable(cfg.entities[t], []))
  }

  /** Room's destructive fallback: every entity table is dropped and created
      again empty, the file takes the declared version, and any table that is
      not an entity keeps its rows. */
  function Recreated(cfg: DbConfig, f: DbFile): (g: DbFile)
    ensures g.version == cfg.version && g.tables.Keys == f.tables.Keys + cfg.entities.Keys
    ensures forall t :: t in cfg.entities ==> g.tables[t] == StoredTable(cfg.entities[t], [])
    ensures forall t :: t in f.tables && t !in cfg.entities ==> g.tables[t] == f.tables[t]
  {
    DbFile(cfg.version, map t | t in f.tables.Keys + cfg.entities.Keys ::
      if t in cfg.entities then StoredTable(cfg.entities[t], []) else f.tables[t])
  }

  /** Every entity table exists in the file with exactly the entity's shape. */
  predicate MatchesEntities(tables: map<string, StoredTable>, entities: map<string, Table>)
  {
    forall t :: t in entities ==> t in tables && tables[t].schema == entities[t]
  }

  function ApplyChanges(f: DbFile, changes: seq<SchemaChange>): (r: Result<DbFile, OpenError>)
    ensures r.Ok? ==> r.value.version == f.version
    ensures r.Ok? ==> forall t :: t in f.tables ==> t in r.value.tables && r.value.tables[t] == f.tables[t]
    decreases |changes|
  {
    if changes == [] then Ok(f)
    else
      match changes[0]
      case CreateTable(name, table) =>
        if name in f.tables then Err(TableExists(name))
        else ApplyChanges(DbFile(f.version, f.tables[name := StoredTable(table, [])]), changes[1..])
  }

  /** Running one migration: its schema changes, then the new version tag.
      A failure leaves the file as it was (the caller keeps the old value),
      because Room runs the whole upgrade in one transaction. */
  function ApplyMigration(f: DbFile, m: Migration): (r: Result<DbFile, OpenError>)
    ensures r.Ok? ==> r.value.version == m.endVersion
    ensures r.Ok? ==> forall t :: t in f.tables ==> t in r.value.tables && r.value.tables[t] == f.tables[t]
  {
    match ApplyChanges(f, m.changes)
    case Err(e) => Err(e)
    case Ok(g) => Ok(DbFile(m.endVersion, g.tables))
  }

  /** The registered migration Room takes from `from` towards `to`: among
      those starting at `from` and ending in `(from, to]`, the one reaching
      furthest; of two with the same end, the one registered last replaces
      the other. */
  function BestStep(ms: seq<Migration>, from: nat, to: nat): (r: Option<Migration>)
    ensures r.Some? ==> r.value in ms && r.value.startVersion == from && from < r.value.endVersion <= to
    ensures r.None? ==> forall m :: m in ms ==> !(m.startVersion == from && from < m.endVersion <= to)
    ensures r.Some? ==> forall m :: m in ms && m.startVersion == from && from < m.endVersion <= to ==>
      m.endVersion <= r.value.endVersion
  {
    if ms == [] then None
    else
      var last := ms[|ms| - 1];
      var earlier := BestStep(ms[..|ms| - 1], from, to);
      assert ms == ms[..|ms| - 1] + [last];
      if last.startVersion == from && from < last.endVersion <= to &&
         (earlier.None? || earlier.value.endVersion <= last.endVersion)
      then Some(last)
      else earlier
  }

  /** A chain of migrations from `from` up to `to`, each starting where the
      previous one ended. */
  predicate IsChain(path: seq<Migration>, from: nat, to: nat)
  {
    if path == [] then from == to
    else path[0].startVersion == from && from < path[0].endVersion &&
         IsChain(path[1..], path[0].endVersion, to)
  }

  /** Room's upgrade path search: repeatedly take the best step. `None` when
      some version on the way has no step. Downgrades find no path, since
      every migration registered here goes up. */
  function FindPath(ms: seq<Migration>, from: nat, to: nat): (r: Option<seq<Migration>>)
    ensures r.Some? ==> IsChain(r.value, from, to)
    ensures r.Some? ==> forall m :: m in r.value ==> m in ms
    decreases if from <= to then to - from else 0
  {
    if from >= to then (if from == to then Some([]) else None)
    else
      var step := BestStep(ms, from, to);
      if step.None? then None
      else
        var rest := FindPath(ms, step.value.endVersion, to);
        if rest.None? then None else Some([step.value] + rest.value)
  }

  /** Running a chain that starts at the file's version; it ends at the chain's end. */
  function ApplyPath(f: DbFile, path: seq<Migration>, to: nat): (r: Result<DbFile, OpenError>)
    requires IsChain(path, f.version, to)
    ensures r.Ok? ==> r.value.version == to
    ensures r.Ok? ==> forall t :: t in f.tables ==> t in r.value.tables && r.value.tables[t] == f.tables[t]
    decreases |path|
  {
    if path == [] then Ok(f)
    else
      match ApplyMigration(f, path[0])
      case Err(e) => Err(e)
      case Ok(g) => ApplyPath(g, path[1..], to)
  }

  /** Opening a file with Room. A new file is created at the declared version;
      a file at that version opens as it is if its schema matches; otherwise
      the registered chain runs and its result is checked against the
      entities; with no chain, the entity tables are dropped and recreated
      empty when the destructive fallback is on, and opening fails otherwise. */
  function Open(cfg: DbConfig, f: DbFile): (r: Result<DbFile, OpenError>)
    ensures r.Ok? ==> r.value.version == cfg.version
    ensures r.Ok? ==> MatchesEntities(r.value.tables, cfg.entities)
  {
    if f.version == 0 then Ok(Created(cfg))
    else if f.version == cfg.version then
      if MatchesEntities(f.tables, cfg.entities) then Ok(f) else Err(IntegrityCheckFailed)
    else
      match FindPath(cfg.migrations, f.version, cfg.version)
      case Some(path) =>
        (match ApplyPath(f, path, cfg.version)
         case Err(e) => Err(e)
         case Ok(g) =>
           if MatchesEntities(g.tables, cfg.entities) then Ok(g)
           else Err(MigrationInvalid))
      case None =>
        if cfg.destructiveFallback then Ok(Recreated(cfg, f))
        else Err(MigrationRequired(f.version, cfg.version))
  }

  /** Migrations that only create tables keep every existing table, rows
      included, along the whole chain. */
  lemma OpenKeepsExistingTables(cfg: DbConfig, f: DbFile)
    requires 0 < f.version && f.version != cfg.version
    requires FindPath(cfg.migrations, f.version, cfg.version).Some?
    requires Open(cfg, f).Ok?
    ensures forall t :: t in f.tables ==>
      (t in Open(cfg, f).value.tables && Open(cfg, f).value.tables[t] == f.tables[t])
  {
  }

  /** Reading a table's rows into entities: `None` as soon as one row does
      not decode, otherwise one entity per row, in storage order. */
  function DecodeRows<T>(rows: seq<Row>, decode: Row -> Option<T>): (r: Option<seq<T>>)
    ensures r.Some? ==> |r.value| == |rows|
    ensures r.Some? ==> forall i :: 0 <= i < |rows| ==> decode(rows[i]) == Some(r.value[i])
    ensures r.None? ==> exists i :: 0 <= i < |rows| && decode(rows[i]).None?
  {
    if rows == [] then Some([])
    else
      match decode(rows[0])
      case None => None
      case Some(x) =>
        match DecodeRows(rows[1..], decode)
        case None =>
          var k :| 0 <= k < |rows[1..]| && decode(rows[1..][k]).None?;
          assert rows[k + 1] == rows[1..][k];
          None
        case Some(xs) =>
          assert forall i :: 1 <= i < |rows| ==> rows[i] == rows[1..][i - 1];
          Some([x] + xs)
  }

  /** Writing entities as rows, in order. */
  function EncodeRows<T>(xs: seq<T>, encode: T -> Row): (rows: seq<Row>)
    ensures |rows| == |xs|
    ensures forall i :: 0 <= i < |xs| ==> rows[i] == encode(xs[i])
  {
    seq(|xs|, i requires 0 <= i < |xs| => encode(xs[i]))
  }

  /** When each entity reads back from its row, a table written from a list
      of entities reads back as that list. */
  lemma {:induction false} DecodeEncoded<T>(xs: seq<T>, encode: T -> Row, decode: Row -> Option<T>)
    requires forall i :: 0 <= i < |xs| ==> decode(encode(xs[i])) == Some(xs[i])
    ensures DecodeRows(EncodeRows(xs, encode), decode) == Some(xs)
  {
    if xs != [] {
      var rows := EncodeRows(xs, encode);
      assert rows[1..] == EncodeRows(xs[1..], encode);
      DecodeEncoded(xs[1..], encode, decode);
      assert [xs[0]] + xs[1..] == xs;
    }
  }

  /** Without a chain and without the fallback, opening fails and names both versions. */
  lemma NoPathNoFallbackFails(cfg: DbConfig, f: DbFile)
    requires 0 < f.version && f.version != cfg.version
    requires FindPath(cfg.migrations, f.version, cfg.version).None?
    requires !cfg.destructiveFallback
    ensures Open(cfg, f) == Err(MigrationRequired(f.version, cfg.version))
  {
  }

  /** Without a chain but with the fallback, the entities' content is
      discarded: every entity table comes back empty with the entity's shape,
      while every other table of the old file keeps its rows and no other
      table appears. */
  lemma NoPathFallbackWipes(cfg: DbConfig, f: DbFile)
    requires 0 < f.version && f.version != cfg.version
    requires FindPath(cfg.migrations, f.version, cfg.version).None?
    requires cfg.destructiveFallback
    ensures Open(cfg, f).Ok? && Open(cfg, f).value.version == cfg.version
    ensures forall t :: t in cfg.entities ==>
      t in Open(cfg, f).value.tables && Open(cfg, f).value.tables[t] == StoredTable(cfg.entities[t], [])
    ensures forall t :: t in f.tables && t !in cfg.entities ==>
      t in Open(cfg, f).value.tables && Open(cfg, f).value.tables[t] == f.tables[t]
    ensures forall t :: t in Open(cfg, f).value.tables ==> t in f.tables || t in cfg.entities
  {
  }
}
