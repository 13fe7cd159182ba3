/** Small shared vocabulary: optional values, results with an error, and the
    order-preserving selection that every SQL `WHERE` in the model reduces to. */
module Wrappers {

  datatype Option<+T> = None | Some(value: T)

  datatype Result<+T, +E> = Ok(value: T) | Err(error: E)

  /** The rows of `s` that satisfy `p`, in their original order. */
  function Filter<T>(s: seq<T>, p: T -> bool): (r: seq<T>)
    ensures |r| <= |s|
    ensures forall i :: 0 <= i < |r| ==> r[i] in s && p(r[i])
    ensures forall i :: 0 <= i < |s| && p(s[i]) ==> s[i] in r
  {
    if s == [] then []
    else if p(s[0]) then [s[0]] + Filter(s[1..], p)
    else Filter(s[1..], p)
  }

  /** A selection takes each row at most as often as the table holds it. */
  lemma {:induction false} FilterSubMultiset<T>(s: seq<T>, p: T -> bool)
    ensures multiset(Filter(s, p)) <= multiset(s)
  {
    if s != [] {
      FilterSubMultiset(s[1..], p);
      assert s == [s[0]] + s[1..];
    }
  }

  /** Selection keeps storage order: the rows it takes from a prefix come
      before those it takes from the rest. */
  lemma {:induction false} FilterAppend<T>(a: seq<T>, b: seq<T>, p: T -> bool)
    ensures Filter(a + b, p) == Filter(a, p) + Filter(b, p)
  {
    if a != [] {
      assert (a + b)[1..] == a[1..] + b;
      FilterAppend(a[1..], b, p);
    } else {
      assert a + b == b;
    }
  }

  /** Filtering twice is filtering once by the conjunction. */
  lemma {:induction false} FilterFilter<T>(s: seq<T>, p: T -> bool, q: T -> bool)
    ensures Filter(Filter(s, p), q) == Filter(s, x => p(x) && q(x))
  {
    if s != [] {
      FilterFilter(s[1..], p, q);
    }
  }

  /** Two predicates that agree on the elements of `s` select the same rows. */
  lemma {:induction false} FilterCongruent<T>(s: seq<T>, p: T -> bool, q: T -> bool)
    requires forall i :: 0 <= i < |s| ==> p(s[i]) == q(s[i])
    ensures Filter(s, p) == Filter(s, q)
  {
    if s != [] {
      FilterCongruent(s[1..], p, q);
    }
  }

  /** A selection that keeps every row is the identity. */
  lemma {:induction false} FilterAll<T>(s: seq<T>, p: T -> bool)
    requires forall i :: 0 <= i < |s| ==> p(s[i])
    ensures Filter(s, p) == s
  {
    if s != [] {
      FilterAll(s[1..], p);
    }
  }

  /** One more than the largest key in `s`, and at least 1: the id SQLite
      hands out next for a table whose largest id is that key. */
  function NextAbove<T>(s: seq<T>, key: T -> int): (n: int)
    ensures n >= 1
    ensures forall i :: 0 <= i < |s| ==> key(s[i]) < n
    ensures n == 1 || exists i :: 0 <= i < |s| && key(s[i]) == n - 1
  {
    if s == [] then 1
    else
      var m := NextAbove(s[1..], key);
      assert forall i :: 1 <= i < |s| ==> key(s[i]) < m by {
        forall i | 1 <= i < |s| ensures key(s[i]) < m {
          assert s[i] == s[1..][i - 1];
        }
      }
      assert m != 1 ==> exists i :: 0 <= i < |s| && key(s[i]) == m - 1 by {
        if m != 1 {
          var k :| 0 <= k < |s[1..]| && key(s[1..][k]) == m - 1;
          assert s[k + 1] == s[1..][k];
        }
      }
      if key(s[0]) >= m then key(s[0]) + 1 else m
  }

  /** No two elements of `s` share a key. */
  predicate Injective<T, K(==)>(s: seq<T>, key: T -> K)
  {
    forall i, j :: 0 <= i < j < |s| ==> key(s[i]) != key(s[j])
  }

  /** Selecting rows never creates a duplicate key. */
  lemma {:induction false} FilterInjective<T, K>(s: seq<T>, p: T -> bool, key: T -> K)
    requires Injective(s, key)
    ensures Injective(Filter(s, p), key)
  {
    if s != [] {
      assert Injective(s[1..], key) by {
        forall i, j | 0 <= i < j < |s[1..]| ensures key(s[1..][i]) != key(s[1..][j]) {
          assert s[1..][i] == s[i + 1] && s[1..][j] == s[j + 1];
        }
      }
      FilterInjective(s[1..], p, key);
      var rest := Filter(s[1..], p);
      if p(s[0]) {
        forall j | 0 <= j < |rest| ensures key(s[0]) != key(rest[j]) {
          var k :| 0 <= k < |s[1..]| && s[1..][k] == rest[j];
          assert s[k + 1] == rest[j];
        }
        var r := [s[0]] + rest;
        forall i, j | 0 <= i < j < |r| ensures key(r[i]) != key(r[j]) {
          if i > 0 {
            assert r[i] == rest[i - 1] && r[j] == rest[j - 1];
          }
        }
      }
    }
  }
}
