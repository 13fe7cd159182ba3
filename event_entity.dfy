/** The `events` table of the newer app: rows keyed by a text key; inserting
    first looks the key up and hands back the stored row instead of writing;
    queries filter on whichever options are given, and the details text comes
    back with its escaped quotes removed. */
module EventEntity {
  import opened Wrappers
  import opened TextKeyTable
  import Text

  /** A row of `events`. */
  datatype Event = Event(
    key: string,
    timestamp: string,
    eventType: string,
    device: string,
    details: string,
    isUploaded: bool,
    isProd: bool)

  function KeyOf(e: Event): string
  {
    e.key
  }

  /** The first stored row with key `k`, as `SELECT … WHERE key = k` lists it
      first. */
  function FindKey(rows: seq<Event>, k: string): (r: Option<Event>)
    ensures r.None? <==> !HasKey(rows, KeyOf, k)
    ensures r.Some? ==> r.value in rows && r.value.key == k
  {
    if rows == [] then None
    else if rows[0].key == k then Some(rows[0])
    else
      var rest := FindKey(rows[1..], k);
      assert HasKey(rows, KeyOf, k) ==> HasKey(rows[1..], KeyOf, k) by {
        if HasKey(rows, KeyOf, k) {
          var i :| 0 <= i < |rows| && KeyOf(rows[i]) == k;
          assert rows[1..][i - 1] == rows[i];
        }
      }
      assert HasKey(rows[1..], KeyOf, k) ==> HasKey(rows, KeyOf, k) by {
        if HasKey(rows[1..], KeyOf, k) {
          var i :| 0 <= i < |rows[1..]| && KeyOf(rows[1..][i]) == k;
          assert rows[i + 1] == rows[1..][i];
        }
      }
      rest
  }

  /** The table after `insertEvent(e)`: unchanged when the key is stored,
      otherwise `e` appended. */
  function InsertEventRows(rows: seq<Event>, e: Event): (r: seq<Event>)
    ensures HasKey(rows, KeyOf, e.key) ==> r == rows
    ensures !HasKey(rows, KeyOf, e.key) ==> r == rows + [e]
    ensures Injective(rows, KeyOf) ==> Injective(r, KeyOf)
    ensures HasKey(r, KeyOf, e.key)
  {
    if FindKey(rows, e.key).Some? then rows
    else
      assert HasKey(rows + [e], KeyOf, e.key) by {
        assert (rows + [e])[|rows|] == e;
      }
      rows + [e]
  }

  /** Inserting the same event twice leaves the table as inserting it once. */
  lemma InsertEventIdempotent(rows: seq<Event>, e: Event)
    ensures InsertEventRows(InsertEventRows(rows, e), e) == InsertEventRows(rows, e)
  {
  }

  /** The options of `getEvents`; `None` is an absent option. Unlike the
      recordings query, a present `false` or empty string does filter. */
  datatype Query = Query(uploaded: Option<bool>, device: Option<string>)

  predicate Matches(e: Event, q: Query)
  {
    (q.uploaded.Some? ==> e.isUploaded == q.uploaded.value) &&
    (q.device.Some? ==> e.device == q.device.value)
  }

  function MatchesFn(q: Query): Event -> bool
  {
    x => Matches(x, q)
  }

  /** The rows the query selects, in storage order. */
  function Select(rows: seq<Event>, q: Query): (r: seq<Event>)
    ensures forall i :: 0 <= i < |r| ==> r[i] in rows && Matches(r[i], q)
    ensures forall i :: 0 <= i < |rows| && Matches(rows[i], q) ==> rows[i] in r
    ensures multiset(r) <= multiset(rows)
  {
    FilterSubMultiset(rows, MatchesFn(q));
    Filter(rows, MatchesFn(q))
  }

  /** A row as `getEvents` returns it: the details with escaped quotes
      removed. */
  function ReadBack(e: Event): (r: Event)
    ensures r == e.(details := r.details)
    ensures |r.details| <= |e.details|
  {
    e.(details := Text.RemoveEscapedQuotes(e.details))
  }

  function ReadAll(s: seq<Event>): (r: seq<Event>)
    ensures |r| == |s| && forall i :: 0 <= i < |s| ==> r[i] == ReadBack(s[i])
  {
    seq(|s|, i requires 0 <= i < |s| => ReadBack(s[i]))
  }

  /** `uploaded: false` selects exactly the rows not uploaded, and both
      options must hold. */
  lemma FiltersConjunctive(rows: seq<Event>, device: string)
    ensures forall i :: 0 <= i < |Select(rows, Query(Some(false), Some(device)))| ==>
      !Select(rows, Query(Some(false), Some(device)))[i].isUploaded &&
      Select(rows, Query(Some(false), Some(device)))[i].device == device
    ensures forall i :: 0 <= i < |rows| && !rows[i].isUploaded && rows[i].device == device ==>
      rows[i] in Select(rows, Query(Some(false), Some(device)))
  {
  }

  /** Removing the keys of `es` from the table; `deleteEvents` with an empty
      list returns before reaching the database. */
  function KeysOf(es: seq<Event>): (ks: set<string>)
    ensures forall i :: 0 <= i < |es| ==> es[i].key in ks
    ensures forall k :: k in ks ==> exists i :: 0 <= i < |es| && es[i].key == k
  {
    set e | e in es :: e.key
  }

  /** The table after `updateEvent(e)`: the row with `e`'s key takes its
      flag, true or false; nothing else changes. */
  function SetUploaded(rows: seq<Event>, k: string, flag: bool): (r: seq<Event>)
    ensures |r| == |rows|
    ensures forall i :: 0 <= i < |rows| ==> r[i] == rows[i].(isUploaded := r[i].isUploaded)
    ensures forall i :: 0 <= i < |rows| && rows[i].key == k ==> r[i].isUploaded == flag
    ensures forall i :: 0 <= i < |rows| && rows[i].key != k ==> r[i] == rows[i]
  {
    seq(|rows|, i requires 0 <= i < |rows| => if rows[i].key == k then rows[i].(isUploaded := flag) else rows[i])
  }

  /** The update keeps every key, so the primary key stays unique. */
  lemma SetUploadedKeepsKeys(rows: seq<Event>, k: string, flag: bool)
    requires Injective(rows, KeyOf)
    ensures Injective(SetUploaded(rows, k, flag), KeyOf)
  {
    var r := SetUploaded(rows, k, flag);
    forall i, j | 0 <= i < j < |r| ensures KeyOf(r[i]) != KeyOf(r[j]) {
      assert KeyOf(r[i]) == KeyOf(rows[i]) && KeyOf(r[j]) == KeyOf(rows[j]);
    }
  }

  /** The table, in storage order, with at most one row per key. */
  class EventTable {
    var rows: seq<Event>

    ghost predicate Valid()
      reads this
    {
      Injective(rows, KeyOf)
    }

    constructor ()
      ensures Valid() && rows == []
    {
      rows := [];
    }

    /** `insertEvent`: hands back the stored row when the key is taken and
        writes nothing; otherwise inserts. The driver's report of the insert,
        which the source returns, is not modelled: `None` stands for it. */
    method InsertEvent(e: Event) returns (existing: Option<Event>)
      requires Valid()
      modifies this
      ensures Valid() && rows == InsertEventRows(old(rows), e)
      ensures existing.Some? <==> HasKey(old(rows), KeyOf, e.key)
      ensures existing.Some? ==> existing.value in old(rows) && existing.value.key == e.key
    {
      existing := FindKey(rows, e.key);
      if existing.Some? {
        return;
      }
      rows := InsertEventRows(rows, e);
    }

    /** `getEvents`: the matching rows as read back. */
    function GetEvents(q: Query): (r: seq<Event>)
      reads this
      ensures r == ReadAll(Select(rows, q))
      ensures forall i :: 0 <= i < |r| ==> exists j :: 0 <= j < |rows| && Matches(rows[j], q) && r[i] == ReadBack(rows[j])
      ensures forall j :: 0 <= j < |rows| && Matches(rows[j], q) ==> ReadBack(rows[j]) in r
    {
      var sel := Select(rows, q);
      assert forall i :: 0 <= i < |sel| ==> exists j :: 0 <= j < |rows| && Matches(rows[j], q) && sel[i] == rows[j] by {
        forall i | 0 <= i < |sel| ensures exists j :: 0 <= j < |rows| && Matches(rows[j], q) && sel[i] == rows[j] {
          var j :| 0 <= j < |rows| && rows[j] == sel[i];
        }
      }
      var r := ReadAll(sel);
      assert forall j :: 0 <= j < |rows| && Matches(rows[j], q) ==> ReadBack(rows[j]) in r by {
        forall j | 0 <= j < |rows| && Matches(rows[j], q) ensures ReadBack(rows[j]) in r {
          var i :| 0 <= i < |sel| && sel[i] == rows[j];
          assert r[i] == ReadBack(rows[j]);
        }
      }
      r
    }

    /** `updateEvent`. */
    method UpdateEvent(e: Event)
      requires Valid()
      modifies this
      ensures Valid() && rows == SetUploaded(old(rows), e.key, e.isUploaded)
    {
      SetUploadedKeepsKeys(rows, e.key, e.isUploaded);
      rows := SetUploaded(rows, e.key, e.isUploaded);
    }

    /** `deleteEvent`. */
    method DeleteEvent(e: Event)
      requires Valid()
      modifies this
      ensures Valid() && rows == DeleteKeys(old(rows), KeyOf, {e.key})
    {
      rows := DeleteKeys(rows, KeyOf, {e.key});
    }

    /** `deleteEvents`: nothing for an empty list; otherwise exactly the rows
        whose key is listed go. */
    method DeleteEvents(es: seq<Event>)
      requires Valid()
      modifies this
      ensures Valid()
      ensures es == [] ==> rows == old(rows)
      ensures es != [] ==> rows == DeleteKeys(old(rows), KeyOf, KeysOf(es))
    {
      if |es| == 0 {
        return;
      }
      rows := DeleteKeys(rows, KeyOf, KeysOf(es));
    }
  }
}
