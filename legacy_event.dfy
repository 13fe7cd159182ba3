/** The older `event` table of the web app, keyed by the event key: a second
    insert of a key is refused, updates write the flag of one key, and
    queries skip falsy options. Statement values are bound to `?`
    placeholders. */
module LegacyEvent {
  import opened Wrappers
  import opened TextKeyTable

  /** A row of `event`. */
  datatype Event = Event(
    key: string,
    timestamp: string,
    eventType: string,
    device: string,
    details: string,
    isUploaded: bool)

  function KeyOf(e: Event): string
  {
    e.key
  }

  /** The options of `getEvents`. */
  datatype Query = Query(uploaded: Option<bool>, device: Option<string>)

  /** The conditions added for truthy options, joined with AND. */
  predicate Matches(e: Event, q: Query)
  {
    (q.uploaded == Some(true) ==> e.isUploaded) &&
    (q.device.Some? && q.device.value != "" ==> e.device == q.device.value)
  }

  function MatchesFn(q: Query): Event -> bool
  {
    x => Matches(x, q)
  }

  /** The rows the query selects, in storage order. */
  function Select(rows: seq<Event>, q: Query): (r: seq<Event>)
    ensures forall i :: 0 <= i < |r| ==> r[i] in rows && Matches(r[i], q)
    ensures forall i :: 0 <= i < |rows| && Matches(rows[i], q) ==> rows[i] in r
    ensures multiset(r) <= multiset(rows)
  {
    FilterSubMultiset(rows, MatchesFn(q));
    Filter(rows, MatchesFn(q))
  }

  /** `uploaded: false` selects as if no flag option were given. */
  lemma UploadedFalseIgnored(rows: seq<Event>, q: Query)
    ensures Select(rows, q.(uploaded := Some(false))) == Select(rows, q.(uploaded := None))
  {
    FilterCongruent(rows, MatchesFn(q.(uploaded := Some(false))), MatchesFn(q.(uploaded := None)));
  }

  /** The table after `UPDATE event SET isUploaded = ? WHERE key = ?`. */
  function SetUploaded(rows: seq<Event>, k: string, flag: bool): (r: seq<Event>)
    ensures |r| == |rows|
    ensures forall i :: 0 <= i < |rows| ==> r[i] == rows[i].(isUploaded := r[i].isUploaded)
    ensures forall i :: 0 <= i < |rows| && rows[i].key == k ==> r[i].isUploaded == flag
    ensures forall i :: 0 <= i < |rows| && rows[i].key != k ==> r[i] == rows[i]
  {
    seq(|rows|, i requires 0 <= i < |rows| => if rows[i].key == k then rows[i].(isUploaded := flag) else rows[i])
  }

  /** The update keeps every key, so the primary key stays unique. */
  lemma SetUploadedKeepsKeys(rows: seq<Event>, k: string, flag: bool)
    requires Injective(rows, KeyOf)
    ensures Injective(SetUploaded(rows, k, flag), KeyOf)
  {
    var r := SetUploaded(rows, k, flag);
    forall i, j | 0 <= i < j < |r| ensures KeyOf(r[i]) != KeyOf(r[j]) {
      assert KeyOf(r[i]) == KeyOf(rows[i]) && KeyOf(r[j]) == KeyOf(rows[j]);
    }
  }

  /** The table, in storage order, with at most one row per key. */
  class EventTable {
    var rows: seq<Event>

    ghost predicate Valid()
      reads this
    {
      Injective(rows, KeyOf)
    }

    constructor ()
      ensures Valid() && rows == []
    {
      rows := [];
    }

    /** `insertEvent`: refused with the table unchanged when the key is
        taken. */
    method InsertEvent(e: Event) returns (res: Result<(), SqlError>)
      requires Valid()
      modifies this
      ensures Valid()
      ensures res.Err? <==> HasKey(old(rows), KeyOf, e.key)
      ensures res.Err? ==> rows == old(rows) && res.error == UniqueViolation(e.key)
      ensures res.Ok? ==> rows == old(rows) + [e]
    {
      var ins := InsertRow(rows, KeyOf, e);
      if ins.Ok? {
        rows := ins.value;
        res := Ok(());
      } else {
        res := Err(ins.error);
      }
    }

    /** `getEvents`. */
    function GetEvents(q: Query): (r: seq<Event>)
      reads this
      ensures forall i :: 0 <= i < |r| ==> r[i] in rows && Matches(r[i], q)
      ensures forall i :: 0 <= i < |rows| && Matches(rows[i], q) ==> rows[i] in r
    {
      Select(rows, q)
    }

    /** `updateEvent`. */
    method UpdateEvent(e: Event)
      requires Valid()
      modifies this
      ensures Valid() && rows == SetUploaded(old(rows), e.key, e.isUploaded)
    {
      SetUploadedKeepsKeys(rows, e.key, e.isUploaded);
      rows := SetUploaded(rows, e.key, e.isUploaded);
    }

    /** `deleteEvent`. */
    method DeleteEvent(e: Event)
      requires Valid()
      modifies this
      ensures Valid() && rows == DeleteKeys(old(rows), KeyOf, {e.key})
    {
      rows := DeleteKeys(rows, KeyOf, {e.key});
    }

    /** `deleteEvents`: one placeholder is bound to all the keys, so only a
        single event is deleted. With no keys the placeholder is bound to
        NULL, which no key equals; two or more are a binding error. */
    method DeleteEvents(es: seq<Event>) returns (res: Result<(), SqlError>)
      requires Valid()
      modifies this
      ensures Valid()
      ensures |es| == 0 ==> res.Ok? && rows == old(rows)
      ensures |es| == 1 ==> res.Ok? && rows == DeleteKeys(old(rows), KeyOf, {es[0].key})
      ensures |es| > 1 ==> res == Err(BindingMismatch(1, |es|)) && rows == old(rows)
    {
      if |es| == 0 {
        return Ok(());
      }
      if |es| != 1 {
        return Err(BindingMismatch(1, |es|));
      }
      rows := DeleteKeys(rows, KeyOf, {es[0].key});
      res := Ok(());
    }
  }
}
