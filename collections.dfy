/** Generic sequence helpers that stand for the JavaScript array operations the
    dashboard applies to its record collections: `findIndex`/`find` by id,
    `Math.max(...ids, 0)` and `filter` by id. Every collection is searched
    through a key function giving a record's `id`. */
module Collections {

  datatype Option<+T> = None | Some(value: T)

  /** `s.findIndex(x => key(x) === id)`: the first position whose key is `id`,
      None where JavaScript answers -1. */
  function IndexOf<T>(s: seq<T>, key: T -> int, id: int): (r: Option<nat>)
    ensures r.Some? ==> r.value < |s| && key(s[r.value]) == id
    ensures r.Some? ==> forall j :: 0 <= j < r.value ==> key(s[j]) != id
    ensures r.None? <==> forall j :: 0 <= j < |s| ==> key(s[j]) != id
  {
    if s == [] then None
    else if key(s[0]) == id then Some(0)
    else match IndexOf(s[1..], key, id)
      case None => None
      case Some(i) => Some(i + 1)
  }

  /** `Math.max(...s.map(key), 0)`: the largest key, never below 0. */
  function MaxKey<T>(s: seq<T>, key: T -> int): (m: int)
    ensures m >= 0
    ensures forall i :: 0 <= i < |s| ==> key(s[i]) <= m
    ensures m == 0 || exists i :: 0 <= i < |s| && key(s[i]) == m
  {
    if s == [] then 0
    else
      var rest := MaxKey(s[1..], key);
      if key(s[0]) > rest then key(s[0]) else rest
  }

  /** `s.filter(x => key(x) !== id)`. */
  function RemoveId<T>(s: seq<T>, key: T -> int, id: int): (r: seq<T>)
    ensures |r| <= |s|
    ensures forall x :: x in r ==> x in s && key(x) != id
    ensures forall i :: 0 <= i < |s| && key(s[i]) != id ==> s[i] in r
  {
    if s == [] then []
    else if key(s[0]) == id then RemoveId(s[1..], key, id)
    else [s[0]] + RemoveId(s[1..], key, id)
  }

  /** `s.filter(x => key(x) === id)`: the records carrying `id`, in order. */
  function WithId<T>(s: seq<T>, key: T -> int, id: int): (r: seq<T>)
    ensures |r| <= |s|
    ensures forall x :: x in r ==> x in s && key(x) == id
    ensures forall i :: 0 <= i < |s| && key(s[i]) == id ==> s[i] in r
  {
    if s == [] then []
    else if key(s[0]) == id then [s[0]] + WithId(s[1..], key, id)
    else WithId(s[1..], key, id)
  }

  /** The two filters split the collection: each record lands in exactly one. */
  lemma {:induction false} FiltersPartition<T>(s: seq<T>, key: T -> int, id: int)
    ensures |WithId(s, key, id)| + |RemoveId(s, key, id)| == |s|
  {
    if s != [] {
      FiltersPartition(s[1..], key, id);
    }
  }

  /** No two records of `s` share an id. */
  ghost predicate UniqueIds<T>(s: seq<T>, key: T -> int)
  {
    forall i, j :: 0 <= i < j < |s| ==> key(s[i]) != key(s[j])
  }

  /** Removing an id that no record carries changes nothing: deletion is idempotent. */
  lemma {:induction false} RemoveAbsentId<T>(s: seq<T>, key: T -> int, id: int)
    requires forall i :: 0 <= i < |s| ==> key(s[i]) != id
    ensures RemoveId(s, key, id) == s
  {
    if s != [] {
      RemoveAbsentId(s[1..], key, id);
    }
  }

  /** Deleting twice is deleting once. */
  lemma RemoveIdIdempotent<T>(s: seq<T>, key: T -> int, id: int)
    ensures RemoveId(RemoveId(s, key, id), key, id) == RemoveId(s, key, id)
  {
    var r := RemoveId(s, key, id);
    forall i | 0 <= i < |r| ensures key(r[i]) != id {
      assert r[i] in r;
    }
    RemoveAbsentId(r, key, id);
  }

  /** The filter keeps the original order: it distributes over concatenation. */
  lemma {:induction false} RemoveIdAppend<T>(a: seq<T>, b: seq<T>, key: T -> int, id: int)
    ensures RemoveId(a + b, key, id) == RemoveId(a, key, id) + RemoveId(b, key, id)
  {
    if a == [] {
      assert a + b == b;
    } else {
      assert (a + b)[0] == a[0];
      assert (a + b)[1..] == a[1..] + b;
      RemoveIdAppend(a[1..], b, key, id);
    }
  }

  /** The project filter keeps the original order and every copy: it
      distributes over concatenation. */
  lemma {:induction false} WithIdAppend<T>(a: seq<T>, b: seq<T>, key: T -> int, id: int)
    ensures WithId(a + b, key, id) == WithId(a, key, id) + WithId(b, key, id)
  {
    if a == [] {
      assert a + b == b;
    } else {
      assert (a + b)[0] == a[0];
      assert (a + b)[1..] == a[1..] + b;
      WithIdAppend(a[1..], b, key, id);
    }
  }

  /** The result is shorter exactly when some record carries the id. */
  lemma {:induction false} RemoveIdShrinks<T>(s: seq<T>, key: T -> int, id: int)
    ensures |RemoveId(s, key, id)| < |s| <==> exists i :: 0 <= i < |s| && key(s[i]) == id
  {
    if s != [] {
      RemoveIdShrinks(s[1..], key, id);
      if key(s[0]) != id {
        if exists i :: 0 <= i < |s| && key(s[i]) == id {
          var i :| 0 <= i < |s| && key(s[i]) == id;
          assert key(s[1..][i - 1]) == id;
        }
      }
    }
  }

  /** With unique ids, deleting a present id removes exactly one record. */
  lemma {:induction false} RemoveUniqueId<T>(s: seq<T>, key: T -> int, id: int)
    requires UniqueIds(s, key)
    requires exists i :: 0 <= i < |s| && key(s[i]) == id
    ensures |RemoveId(s, key, id)| == |s| - 1
  {
    if key(s[0]) == id {
      RemoveAbsentId(s[1..], key, id);
    } else {
      var i :| 0 <= i < |s| && key(s[i]) == id;
      assert key(s[1..][i - 1]) == id;
      RemoveUniqueId(s[1..], key, id);
    }
  }

  /** Deleting keeps ids unique. */
  lemma {:induction false} RemoveIdKeepsUnique<T>(s: seq<T>, key: T -> int, id: int)
    requires UniqueIds(s, key)
    ensures UniqueIds(RemoveId(s, key, id), key)
  {
    if s != [] {
      RemoveIdKeepsUnique(s[1..], key, id);
      var rest := RemoveId(s[1..], key, id);
      if key(s[0]) != id {
        forall j | 0 <= j < |rest| ensures key(s[0]) != key(rest[j]) {
          assert rest[j] in rest;
          var k :| 0 <= k < |s[1..]| && s[1..][k] == rest[j];
          assert s[k + 1] == rest[j];
        }
      }
    }
  }
}
