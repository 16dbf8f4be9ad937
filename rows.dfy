/** Tables as sequences of rows in primary-key order, and the two row-level
    SQL shapes every model uses: `SELECT ... WHERE key = ?` (first row) and
    `DELETE ... WHERE key = ?`. The cart's `filter` by id is the same removal. */
module Rows {
  import opened Common

  /** Keys of an AUTO_INCREMENT table: positive, strictly increasing in row order,
      and below the next key the counter will hand out. */
  ghost predicate KeysIncreasing<T>(s: seq<T>, key: T -> int, next: int)
  {
    && 0 < next
    && (forall k :: 0 <= k < |s| ==> 0 < key(s[k]) < next)
    && (forall j, k :: 0 <= j < k < |s| ==> key(s[j]) < key(s[k]))
  }

  /** Keys of a table whose counter is not part of the model: strictly increasing in row order. */
  ghost predicate KeysAscending<T>(s: seq<T>, key: T -> int)
  {
    forall j, k :: 0 <= j < k < |s| ==> key(s[j]) < key(s[k])
  }

  /** The first row whose key is `id`, if any. */
  function FindKey<T>(s: seq<T>, key: T -> int, id: int): (r: Option<T>)
    ensures r.Some? <==> exists k :: 0 <= k < |s| && key(s[k]) == id
    ensures r.Some? ==> key(r.value) == id && r.value in s
  {
    if s == [] then None
    else if key(s[0]) == id then Some(s[0])
    else
      var r := FindKey(s[1..], key, id);
      assert forall k :: 1 <= k < |s| ==> s[k] == s[1..][k - 1];
      r
  }

  /** The rows whose key is not `id`, in their order. */
  function RemoveKey<T>(s: seq<T>, key: T -> int, id: int): (r: seq<T>)
    ensures |r| <= |s|
    ensures forall k :: 0 <= k < |r| ==> key(r[k]) != id
  {
    if s == [] then []
    else if key(s[0]) == id then RemoveKey(s[1..], key, id)
    else [s[0]] + RemoveKey(s[1..], key, id)
  }

  /** Removal keeps exactly the rows with another key. */
  lemma {:induction false} RemoveKeyMember<T>(s: seq<T>, key: T -> int, id: int, x: T)
    ensures x in RemoveKey(s, key, id) <==> x in s && key(x) != id
  {
    if s != [] {
      RemoveKeyMember(s[1..], key, id, x);
      assert x in s <==> x == s[0] || x in s[1..];
    }
  }

  /** Removal distributes over concatenation, so it keeps the relative order of what stays. */
  lemma {:induction false} RemoveKeyConcat<T>(a: seq<T>, b: seq<T>, key: T -> int, id: int)
    ensures RemoveKey(a + b, key, id) == RemoveKey(a, key, id) + RemoveKey(b, key, id)
  {
    if a == [] {
      assert a + b == b;
    } else {
      assert (a + b)[0] == a[0] && (a + b)[1..] == a[1..] + b;
      RemoveKeyConcat(a[1..], b, key, id);
    }
  }

  /** Removal of a key no row has changes nothing. */
  lemma {:induction false} RemoveKeyAbsent<T>(s: seq<T>, key: T -> int, id: int)
    requires forall k :: 0 <= k < |s| ==> key(s[k]) != id
    ensures RemoveKey(s, key, id) == s
  {
    if s != [] {
      RemoveKeyAbsent(s[1..], key, id);
    }
  }

  /** Dropping the first row keeps the keys increasing; every later key exceeds the first. */
  lemma TailIncreasing<T>(s: seq<T>, key: T -> int, next: int)
    requires KeysIncreasing(s, key, next) && s != []
    ensures KeysIncreasing(s[1..], key, next)
    ensures forall k :: 0 <= k < |s[1..]| ==> key(s[0]) < key(s[1..][k])
  {
    var tail := s[1..];
    forall k | 0 <= k < |tail| ensures 0 < key(tail[k]) < next && key(s[0]) < key(tail[k]) {
      assert tail[k] == s[k + 1];
    }
    forall j, k | 0 <= j < k < |tail| ensures key(tail[j]) < key(tail[k]) {
      assert tail[j] == s[j + 1] && tail[k] == s[k + 1];
    }
  }

  /** Appending a row under the counter's key keeps the keys increasing once the counter moves on. */
  lemma AppendIncreasing<T>(s: seq<T>, key: T -> int, next: int, x: T)
    requires KeysIncreasing(s, key, next) && key(x) == next
    ensures KeysIncreasing(s + [x], key, next + 1)
  {
    var u := s + [x];
    forall k | 0 <= k < |u| ensures 0 < key(u[k]) < next + 1 {
      if k < |s| { assert u[k] == s[k]; }
    }
    forall j, k | 0 <= j < k < |u| ensures key(u[j]) < key(u[k]) {
      assert u[j] == s[j];
      if k < |s| { assert u[k] == s[k]; }
    }
  }

  /** Removing rows, by this key or by any other column, keeps the keys increasing. */
  lemma {:induction false} RemoveKeepsIncreasing<T>(s: seq<T>, key: T -> int, next: int, column: T -> int, id: int)
    requires KeysIncreasing(s, key, next)
    ensures KeysIncreasing(RemoveKey(s, column, id), key, next)
  {
    if s != [] {
      var tail := s[1..];
      TailIncreasing(s, key, next);
      RemoveKeepsIncreasing(tail, key, next, column, id);
      if column(s[0]) != id {
        var r := RemoveKey(tail, column, id);
        var u := [s[0]] + r;
        forall k | 0 <= k < |r| ensures key(s[0]) < key(r[k]) {
          RemoveKeyMember(tail, column, id, r[k]);
          assert r[k] in r;
          var j :| 0 <= j < |tail| && tail[j] == r[k];
        }
        forall k | 0 < k < |u| ensures u[k] == r[k - 1] && key(s[0]) < key(u[k]) < next {
        }
        forall j, k | 0 <= j < k < |u| ensures key(u[j]) < key(u[k]) {
          if j > 0 {
            assert u[j] == r[j - 1];
          }
        }
        assert KeysIncreasing(u, key, next);
      }
    }
  }

  /** With increasing keys the lookup by a row's own key finds that row. */
  lemma {:induction false} FindOwnKey<T>(s: seq<T>, key: T -> int, next: int, k: nat)
    requires KeysIncreasing(s, key, next) && k < |s|
    ensures FindKey(s, key, key(s[k])) == Some(s[k])
  {
    if k > 0 {
      TailIncreasing(s, key, next);
      FindOwnKey(s[1..], key, next, k - 1);
    }
  }

  /** Removal of a key no row has changes nothing, stated through the lookup. */
  lemma RemoveKeyNotFound<T>(s: seq<T>, key: T -> int, id: int)
    requires FindKey(s, key, id).None?
    ensures RemoveKey(s, key, id) == s
  {
    RemoveKeyAbsent(s, key, id);
  }

  /** With increasing keys, removal by the key cuts out exactly the one row that has it. */
  lemma {:induction false} RemoveKeyCutsOne<T>(s: seq<T>, key: T -> int, next: int, id: int, k: nat)
    requires KeysIncreasing(s, key, next)
    requires k < |s| && key(s[k]) == id
    ensures RemoveKey(s, key, id) == s[..k] + s[k + 1..]
  {
    var tail := s[1..];
    TailIncreasing(s, key, next);
    if k == 0 {
      assert forall j :: 0 <= j < |tail| ==> key(tail[j]) != id;
      RemoveKeyAbsent(tail, key, id);
      assert s[..0] + s[1..] == tail;
    } else {
      RemoveKeyCutsOne(tail, key, next, id, k - 1);
      assert tail[k - 1] == s[k];
      assert s[..k] == [s[0]] + tail[..k - 1];
      assert s[k + 1..] == tail[k..];
    }
  }

  /** A lookup in a table with one more row finds what it found before, or the new row. */
  lemma FindKeyAppend<T>(s: seq<T>, key: T -> int, x: T, id: int)
    ensures FindKey(s + [x], key, id).Some? <==> FindKey(s, key, id).Some? || key(x) == id
  {
    var u := s + [x];
    if FindKey(s, key, id).Some? {
      var k :| 0 <= k < |s| && key(s[k]) == id;
      assert u[k] == s[k];
    } else if key(x) == id {
      assert u[|s|] == x;
    } else {
      forall k | 0 <= k < |u| ensures key(u[k]) != id {
        if k < |s| { assert u[k] == s[k]; }
      }
    }
  }

  /** After removal by the key, a lookup finds every other key it found before, and not the removed one. */
  lemma FindKeyAfterRemove<T>(s: seq<T>, key: T -> int, id: int, j: int)
    ensures FindKey(RemoveKey(s, key, id), key, j).Some? <==> FindKey(s, key, j).Some? && j != id
  {
    var r := RemoveKey(s, key, id);
    if FindKey(r, key, j).Some? {
      var x := FindKey(r, key, j).value;
      RemoveKeyMember(s, key, id, x);
      var k :| 0 <= k < |s| && s[k] == x;
    }
    if FindKey(s, key, j).Some? && j != id {
      var x := FindKey(s, key, j).value;
      RemoveKeyMember(s, key, id, x);
      var k :| 0 <= k < |r| && r[k] == x;
    }
  }
}
