/** `DeviceList`: the devices the Android app knows, kept as a map sorted by
    device name, with a change callback run after changes. */
module DeviceListModel {
  import opened Wrappers
  import DeviceModel

  /** Lexicographic order on strings, character by character; a proper
      prefix comes first. */
  predicate StrLess(a: string, b: string)
    decreases |a|
  {
    if a == [] then b != []
    else if b == [] then false
    else if a[0] != b[0] then a[0] < b[0]
    else StrLess(a[1..], b[1..])
  }

  lemma {:induction false} StrLessIrreflexive(a: string)
    ensures !StrLess(a, a)
    decreases |a|
  {
    if a != [] {
      StrLessIrreflexive(a[1..]);
    }
  }

  lemma {:induction false} StrLessTransitive(a: string, b: string, c: string)
    requires StrLess(a, b) && StrLess(b, c)
    ensures StrLess(a, c)
    decreases |a|
  {
    if a != [] && b != [] && c != [] && a[0] == b[0] && b[0] == c[0] {
      StrLessTransitive(a[1..], b[1..], c[1..]);
    }
  }

  lemma {:induction false} StrLessTotal(a: string, b: string)
    ensures a == b || StrLess(a, b) || StrLess(b, a)
    decreases |a|
  {
    if a != [] && b != [] && a[0] == b[0] {
      StrLessTotal(a[1..], b[1..]);
      if a[1..] == b[1..] {
        assert a == [a[0]] + a[1..] && b == [b[0]] + b[1..];
      }
    }
  }

  lemma {:induction false} StrLessAsymmetric(a: string, b: string)
    requires StrLess(a, b)
    ensures !StrLess(b, a)
    decreases |a|
  {
    if a != [] && b != [] && a[0] == b[0] {
      StrLessAsymmetric(a[1..], b[1..]);
    }
  }

  type Entry = (string, DeviceModel.Device)

  /** Entries in strictly ascending name order, so each name occurs once. */
  predicate Sorted(s: seq<Entry>)
  {
    forall i, j :: 0 <= i < j < |s| ==> StrLess(s[i].0, s[j].0)
  }

  /** The device stored under `name`. */
  function Lookup(s: seq<Entry>, name: string): Option<DeviceModel.Device>
  {
    if s == [] then None
    else if s[0].0 == name then Some(s[0].1)
    else Lookup(s[1..], name)
  }

  /** `devices[name] = d` on a sorted map: replaces the entry of that name, or
      inserts one at its place in the order. */
  function Put(s: seq<Entry>, name: string, d: DeviceModel.Device): (r: seq<Entry>)
    ensures forall k :: 0 <= k < |r| ==> r[k] == (name, d) || r[k] in s
  {
    if s == [] then [(name, d)]
    else if s[0].0 == name then [(name, d)] + s[1..]
    else if StrLess(name, s[0].0) then [(name, d)] + s
    else
      var rest := Put(s[1..], name, d);
      assert s == [s[0]] + s[1..];
      [s[0]] + rest
  }

  /** `devices.remove(name)` on a sorted map. */
  function Erase(s: seq<Entry>, name: string): (r: seq<Entry>)
    ensures |r| <= |s|
    ensures forall k :: 0 <= k < |r| ==> r[k] in s && r[k].0 != name
  {
    if s == [] then []
    else if s[0].0 == name then Erase(s[1..], name)
    else
      var rest := Erase(s[1..], name);
      assert s == [s[0]] + s[1..];
      [s[0]] + rest
  }

  /** Every entry after the first of a sorted list has a larger name. */
  lemma HeadSmallest(s: seq<Entry>)
    requires Sorted(s) && s != []
    ensures forall j :: 0 <= j < |s[1..]| ==> StrLess(s[0].0, s[1..][j].0)
  {
    forall j | 0 <= j < |s[1..]| ensures StrLess(s[0].0, s[1..][j].0) {
      assert s[1..][j] == s[j + 1];
    }
  }

  /** The entries as a map; where a name occurred twice the first entry would
      win, as `Lookup` does. */
  function ToMap(s: seq<Entry>): (m: map<string, DeviceModel.Device>)
    ensures forall k :: k in m <==> Lookup(s, k).Some?
    ensures forall k :: k in m ==> Lookup(s, k) == Some(m[k])
  {
    if s == [] then map[] else ToMap(s[1..])[s[0].0 := s[0].1]
  }

  /** A name is found exactly when some entry carries it. */
  lemma {:induction false} LookupFinds(s: seq<Entry>, name: string)
    ensures Lookup(s, name).Some? <==> exists j :: 0 <= j < |s| && s[j].0 == name
    decreases |s|
  {
    if s != [] {
      LookupFinds(s[1..], name);
      if s[0].0 != name && exists j :: 0 <= j < |s| && s[j].0 == name {
        var j :| 0 <= j < |s| && s[j].0 == name;
        assert s[1..][j - 1] == s[j];
      }
    }
  }

  /** A sorted list has as many entries as its map has keys: no name is
      stored twice. */
  lemma {:induction false} SortedDistinct(s: seq<Entry>)
    requires Sorted(s)
    ensures |ToMap(s)| == |s|
    decreases |s|
  {
    if s != [] {
      assert Sorted(s[1..]) by {
        forall i, j | 0 <= i < j < |s[1..]| ensures StrLess(s[1..][i].0, s[1..][j].0) {
          assert s[1..][i] == s[i + 1] && s[1..][j] == s[j + 1];
        }
      }
      SortedDistinct(s[1..]);
      LookupFinds(s[1..], s[0].0);
      if s[0].0 in ToMap(s[1..]) {
        var j :| 0 <= j < |s[1..]| && s[1..][j].0 == s[0].0;
        assert s[1..][j] == s[j + 1];
        StrLessIrreflexive(s[0].0);
        assert false;
      }
    }
  }

  /** Putting keeps the order. */
  lemma {:induction false} PutSorted(s: seq<Entry>, name: string, d: DeviceModel.Device)
    requires Sorted(s)
    ensures Sorted(Put(s, name, d))
    decreases |s|
  {
    if s != [] {
      HeadSmallest(s);
      if s[0].0 == name {
        var r := Put(s, name, d);
        forall i, j | 0 <= i < j < |r| ensures StrLess(r[i].0, r[j].0) {
          assert r[j] == s[j];
          if i > 0 {
            assert r[i] == s[i];
          }
        }
      } else if StrLess(name, s[0].0) {
        var r := Put(s, name, d);
        forall i, j | 0 <= i < j < |r| ensures StrLess(r[i].0, r[j].0) {
          assert r[j] == s[j - 1];
          if i > 0 {
            assert r[i] == s[i - 1];
          } else if j > 1 {
            StrLessTransitive(name, s[0].0, s[j - 1].0);
          }
        }
      } else {
        assert Sorted(s[1..]) by {
          forall i, j | 0 <= i < j < |s[1..]| ensures StrLess(s[1..][i].0, s[1..][j].0) {
            assert s[1..][i] == s[i + 1] && s[1..][j] == s[j + 1];
          }
        }
        PutSorted(s[1..], name, d);
        StrLessTotal(name, s[0].0);
        var rest := Put(s[1..], name, d);
        var r := [s[0]] + rest;
        forall i, j | 0 <= i < j < |r| ensures StrLess(r[i].0, r[j].0) {
          if i == 0 {
            assert r[j] == rest[j - 1];
            if rest[j - 1].0 != name {
              var k :| 0 <= k < |s[1..]| && s[1..][k] == rest[j - 1];
            }
          } else {
            assert r[i] == rest[i - 1] && r[j] == rest[j - 1];
          }
        }
      }
    }
  }

  /** After putting, the name maps to the new device and every other name to
      what it mapped to before. */
  lemma {:induction false} PutLookup(s: seq<Entry>, name: string, d: DeviceModel.Device, k: string)
    ensures Lookup(Put(s, name, d), k) == if k == name then Some(d) else Lookup(s, k)
    decreases |s|
  {
    if s != [] && s[0].0 != name && !StrLess(name, s[0].0) {
      PutLookup(s[1..], name, d, k);
    }
  }

  /** Erasing keeps the order. */
  lemma {:induction false} EraseSorted(s: seq<Entry>, name: string)
    requires Sorted(s)
    ensures Sorted(Erase(s, name))
    decreases |s|
  {
    if s != [] {
      assert Sorted(s[1..]) by {
        forall i, j | 0 <= i < j < |s[1..]| ensures StrLess(s[1..][i].0, s[1..][j].0) {
          assert s[1..][i] == s[i + 1] && s[1..][j] == s[j + 1];
        }
      }
      EraseSorted(s[1..], name);
      if s[0].0 != name {
        var rest := Erase(s[1..], name);
        var r := [s[0]] + rest;
        forall i, j | 0 <= i < j < |r| ensures StrLess(r[i].0, r[j].0) {
          if i == 0 {
            assert r[j] == rest[j - 1];
            var k :| 0 <= k < |s[1..]| && s[1..][k] == rest[j - 1];
            assert s[1..][k] == s[k + 1];
          } else {
            assert r[i] == rest[i - 1] && r[j] == rest[j - 1];
          }
        }
      }
    }
  }

  /** After erasing, the name maps to nothing and every other name to what it
      mapped to before. */
  lemma {:induction false} EraseLookup(s: seq<Entry>, name: string, k: string)
    ensures Lookup(Erase(s, name), k) == if k == name then None else Lookup(s, k)
    decreases |s|
  {
    if s != [] {
      EraseLookup(s[1..], name, k);
    }
  }

  /** Erasing a name that is absent changes nothing. */
  lemma {:induction false} EraseAbsent(s: seq<Entry>, name: string)
    requires Lookup(s, name).None?
    ensures Erase(s, name) == s
    decreases |s|
  {
    if s != [] {
      EraseAbsent(s[1..], name);
    }
  }

  /** The class itself: the sorted entries, whether a change callback is set,
      and how many times it has run. */
  class DeviceList {
    var devices: seq<Entry>
    var hasOnChanged: bool
    var notifications: nat

    ghost predicate Valid()
      reads this
    {
      Sorted(devices)
    }

    constructor ()
      ensures Valid() && devices == [] && !hasOnChanged && notifications == 0
    {
      devices := [];
      hasOnChanged := false;
      notifications := 0;
    }

    /** `notifyChange`: runs the callback if one is set. */
    method NotifyChange()
      modifies this
      ensures notifications == old(notifications) + (if hasOnChanged then 1 else 0)
      ensures devices == old(devices) && hasOnChanged == old(hasOnChanged)
    {
      if hasOnChanged {
        notifications := notifications + 1;
      }
    }

    /** `add`: stores the device under its name, replacing any device of that
        name, and always notifies. */
    method Add(d: DeviceModel.Device)
      requires Valid()
      modifies this
      ensures Valid() && devices == Put(old(devices), d.name, d)
      ensures notifications == old(notifications) + (if hasOnChanged then 1 else 0)
      ensures hasOnChanged == old(hasOnChanged)
    {
      PutSorted(devices, d.name, d);
      devices := Put(devices, d.name, d);
      NotifyChange();
    }

    /** `remove`: drops the entry of that name; notifies only if there was
        one. */
    method Remove(name: string)
      requires Valid()
      modifies this
      ensures Valid() && devices == Erase(old(devices), name)
      ensures old(Lookup(devices, name)).None? ==> devices == old(devices) && notifications == old(notifications)
      ensures old(Lookup(devices, name)).Some? ==>
        notifications == old(notifications) + (if hasOnChanged then 1 else 0)
      ensures hasOnChanged == old(hasOnChanged)
    {
      var present := Lookup(devices, name);
      EraseSorted(devices, name);
      if present.None? {
        EraseAbsent(devices, name);
      }
      devices := Erase(devices, name);
      if present.Some? {
        NotifyChange();
      }
    }

    /** `clear`: empties the map; notifies only if it had entries. */
    method Clear()
      modifies this
      ensures Valid() && devices == []
      ensures notifications == old(notifications) + (if old(devices) != [] && hasOnChanged then 1 else 0)
      ensures hasOnChanged == old(hasOnChanged)
    {
      var hadItems := |devices| > 0;
      devices := [];
      if hadItems {
        NotifyChange();
      }
    }

    /** `elementAt`: the device with exactly `i` smaller names, that is the
        i-th in ascending name order; `None` where Kotlin throws because `i`
        is out of range. */
    function ElementAt(i: int): (r: Option<DeviceModel.Device>)
      requires Valid()
      reads this
      ensures r.Some? <==> 0 <= i < |devices|
      ensures r.Some? ==> r.value == devices[i].1
      ensures r.Some? ==> forall j :: 0 <= j < |devices| ==> (StrLess(devices[j].0, devices[i].0) <==> j < i)
    {
      if 0 <= i < |devices| then
        assert forall j :: 0 <= j < |devices| ==> (StrLess(devices[j].0, devices[i].0) <==> j < i) by {
          forall j | 0 <= j < |devices| ensures StrLess(devices[j].0, devices[i].0) <==> j < i {
            if j > i {
              StrLessAsymmetric(devices[i].0, devices[j].0);
            } else if j == i {
              StrLessIrreflexive(devices[i].0);
            }
          }
        }
        Some(devices[i].1)
      else None
    }

    /** `size`: the number of distinct names stored. */
    function Size(): (n: nat)
      requires Valid()
      reads this
      ensures n == |ToMap(devices)|
    {
      SortedDistinct(devices);
      |devices|
    }

    /** `has`: whether some entry carries that name. */
    function Has(name: string): (b: bool)
      reads this
      ensures b <==> exists j :: 0 <= j < |devices| && devices[j].0 == name
    {
      LookupFinds(devices, name);
      Lookup(devices, name).Some?
    }

    /** `getMap`: the name-to-device map itself. */
    function GetMap(): (m: map<string, DeviceModel.Device>)
      reads this
      ensures forall k :: k in m <==> Lookup(devices, k).Some?
      ensures forall k :: k in m ==> Lookup(devices, k) == Some(m[k])
    {
      ToMap(devices)
    }

    /** `getOnChanged`: whether a callback is set. */
    function GetOnChanged(): (b: bool)
      reads this
      ensures b == hasOnChanged
    {
      hasOnChanged
    }

    /** `setOnChanged`: sets or removes the callback. */
    method SetOnChanged(present: bool)
      modifies this
      ensures hasOnChanged == present && devices == old(devices) && notifications == old(notifications)
    {
      hasOnChanged := present;
    }
  }

  /** After `add(d)`, `has(d.name)` holds, the name maps to `d`, and every
      other name maps to what it mapped to before. */
  lemma AddThenHas(before: seq<Entry>, d: DeviceModel.Device, name: string, k: string)
    requires name == d.name
    ensures Lookup(Put(before, name, d), name) == Some(d)
    ensures k != name ==> Lookup(Put(before, name, d), k) == Lookup(before, k)
  {
    PutLookup(before, name, d, name);
    PutLookup(before, name, d, k);
  }

  /** After `remove(name)`, `has(name)` fails and every other name maps to
      what it mapped to before. */
  lemma RemoveThenHasNot(before: seq<Entry>, name: string, k: string)
    ensures Lookup(Erase(before, name), name).None?
    ensures k != name ==> Lookup(Erase(before, name), k) == Lookup(before, k)
  {
    EraseLookup(before, name, name);
    EraseLookup(before, name, k);
  }
}
