/** A SQLite table whose primary key is a TEXT column, as the TypeScript
    modules of the newer app declare them: rows in storage order, a key
    function naming the primary-key column, inserts that fail on a taken key,
    and deletions by a set of keys. */
module TextKeyTable {
  import opened Wrappers

  /** Why SQLite refuses a statement. */
  datatype SqlError =
    | UniqueViolation(key: string)
    | NotNullViolation(column: string)
    | BindingMismatch(expected: nat, given: nat)

  /** Some row carries key `k`. */
  predicate HasKey<T>(rows: seq<T>, key: T -> string, k: string)
  {
    exists i :: 0 <= i < |rows| && key(rows[i]) == k
  }

  /** `INSERT`: appends the row, or fails with the table unchanged when its
      key is taken. */
  function InsertRow<T>(rows: seq<T>, key: T -> string, row: T): (r: Result<seq<T>, SqlError>)
    ensures r.Err? <==> HasKey(rows, key, key(row))
    ensures r.Err? ==> r.error == UniqueViolation(key(row))
    ensures r.Ok? ==> r.value == rows + [row]
    ensures r.Ok? && Injective(rows, key) ==> Injective(r.value, key)
  {
    if HasKey(rows, key, key(row)) then Err(UniqueViolation(key(row))) else Ok(rows + [row])
  }

  /** `DELETE … WHERE key IN (…)`: drops the rows whose key is listed. */
  function DeleteKeys<T>(rows: seq<T>, key: T -> string, ks: set<string>): (r: seq<T>)
    ensures forall i :: 0 <= i < |r| ==> r[i] in rows && key(r[i]) !in ks
    ensures forall i :: 0 <= i < |rows| && key(rows[i]) !in ks ==> rows[i] in r
    ensures Injective(rows, key) ==> Injective(r, key)
    ensures multiset(r) <= multiset(rows)
  {
    var p := x => key(x) !in ks;
    var r := Filter(rows, p);
    assert Injective(rows, key) ==> Injective(r, key) by {
      if Injective(rows, key) {
        FilterInjective(rows, p, key);
      }
    }
    FilterSubMultiset(rows, p);
    r
  }

  /** Deleting by a set of keys none of the rows carries changes nothing. */
  lemma DeleteAbsentKeys<T>(rows: seq<T>, key: T -> string, ks: set<string>)
    requires forall i :: 0 <= i < |rows| ==> key(rows[i]) !in ks
    ensures DeleteKeys(rows, key, ks) == rows
  {
    FilterAll(rows, x => key(x) !in ks);
  }
}
