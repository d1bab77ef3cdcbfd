/**
 * Operations on a sequence of records identified by a key (the `id` field of a
 * todo or a list): the `find`/`findIndex` lookups and the three ways the
 * reducers rewrite `state.items` — replace-or-append, replace-only, and the
 * `filter` that drops every record with a given key.
 */
module Keyed {
  import opened Wrappers

  /** The index `findIndex` reports: the first position whose key is `k`. */
  function FirstIndex<T, K(==)>(s: seq<T>, key: T -> K, k: K): (r: Option<nat>)
    ensures r.Some? ==> r.value < |s| && key(s[r.value]) == k
    ensures r.Some? ==> forall j :: 0 <= j < r.value ==> key(s[j]) != k
    ensures r.None? <==> forall j :: 0 <= j < |s| ==> key(s[j]) != k
  {
    if s == [] then None
    else if key(s[0]) == k then Some(0)
    else match FirstIndex(s[1..], key, k)
      case None => None
      case Some(i) => Some(i + 1)
  }

  /** Some record of `s` has key `k`. */
  predicate Contains<T, K(==)>(s: seq<T>, key: T -> K, k: K) {
    FirstIndex(s, key, k).Some?
  }

  /** The record `find` returns: the first one whose key is `k`. */
  function Lookup<T, K(==)>(s: seq<T>, key: T -> K, k: K): (r: Option<T>)
    ensures r.Some? ==> r.value in s && key(r.value) == k
    ensures r.None? <==> forall j :: 0 <= j < |s| ==> key(s[j]) != k
  {
    match FirstIndex(s, key, k)
    case Some(i) => Some(s[i])
    case None => None
  }

  /**
   * `findIndex` then `items[index] = x` or `items.push(x)`: the first record
   * with the key of `x` is overwritten in place, and when there is none `x` is
   * appended at the end.
   */
  function Upserted<T, K(==)>(s: seq<T>, key: T -> K, x: T): (r: seq<T>)
    ensures Contains(s, key, key(x)) ==> |r| == |s|
    ensures !Contains(s, key, key(x)) ==> |r| == |s| + 1 && r[..|s|] == s && r[|s|] == x
    ensures forall j :: 0 <= j < |s| && Some(j) != FirstIndex(s, key, key(x)) ==> r[j] == s[j]
    ensures Contains(s, key, key(x)) ==> r[FirstIndex(s, key, key(x)).value] == x
  {
    match FirstIndex(s, key, key(x))
    case Some(i) => s[i := x]
    case None => s + [x]
  }

  /**
   * `findIndex` then `if (index !== -1) items[index] = x`: like Upserted, but
   * a record whose key is absent is dropped instead of appended.
   */
  function Replaced<T, K(==)>(s: seq<T>, key: T -> K, x: T): (r: seq<T>)
    ensures |r| == |s|
    ensures !Contains(s, key, key(x)) ==> r == s
    ensures forall j :: 0 <= j < |s| && Some(j) != FirstIndex(s, key, key(x)) ==> r[j] == s[j]
    ensures Contains(s, key, key(x)) ==> r[FirstIndex(s, key, key(x)).value] == x
  {
    match FirstIndex(s, key, key(x))
    case Some(i) => s[i := x]
    case None => s
  }

  /** `items.filter((t) => t.id !== k)`. */
  function Removed<T, K(==)>(s: seq<T>, key: T -> K, k: K): (r: seq<T>)
    ensures |r| <= |s|
    ensures forall j :: 0 <= j < |r| ==> r[j] in s && key(r[j]) != k
    ensures forall j :: 0 <= j < |s| && key(s[j]) != k ==> s[j] in r
  {
    if s == [] then []
    else (if key(s[0]) == k then [] else [s[0]]) + Removed(s[1..], key, k)
  }

  /** The key of each record, in order. */
  function Keys<T, K>(s: seq<T>, key: T -> K): (ks: seq<K>)
    ensures |ks| == |s|
    ensures forall j :: 0 <= j < |s| ==> ks[j] == key(s[j])
  {
    seq(|s|, j requires 0 <= j < |s| => key(s[j]))
  }

  // ---------------------------------------------------------------------------
  // Lemmas
  // ---------------------------------------------------------------------------

  /** Overwriting a record with one of the same key does not move the first match of any key. */
  lemma {:induction false} FirstIndexSameKeyUpdate<T, K>(s: seq<T>, key: T -> K, i: nat, y: T, k: K)
    requires i < |s| && key(y) == key(s[i])
    ensures FirstIndex(s[i := y], key, k) == FirstIndex(s, key, k)
  {
    var t := s[i := y];
    if i == 0 {
      assert t[1..] == s[1..];
    } else {
      assert t[1..] == s[1..][i - 1 := y];
      FirstIndexSameKeyUpdate(s[1..], key, i - 1, y, k);
    }
  }

  /** Appending a record only matters for a key that was absent. */
  lemma {:induction false} FirstIndexAppend<T, K>(s: seq<T>, key: T -> K, x: T, k: K)
    ensures Contains(s, key, k) ==> FirstIndex(s + [x], key, k) == FirstIndex(s, key, k)
    ensures !Contains(s, key, k) && key(x) == k ==> FirstIndex(s + [x], key, k) == Some(|s|)
    ensures !Contains(s, key, k) && key(x) != k ==> FirstIndex(s + [x], key, k) == None
  {
    if s == [] {
      assert s + [x] == [x];
      assert [x][1..] == [];
    } else {
      assert (s + [x])[0] == s[0];
      assert (s + [x])[1..] == s[1..] + [x];
      FirstIndexAppend(s[1..], key, x, k);
    }
  }

  /** After an upsert of `x`, looking up its key finds `x` itself. */
  lemma LookupUpserted<T, K>(s: seq<T>, key: T -> K, x: T)
    ensures Lookup(Upserted(s, key, x), key, key(x)) == Some(x)
  {
    match FirstIndex(s, key, key(x))
    case Some(i) =>
      FirstIndexSameKeyUpdate(s, key, i, x, key(x));
    case None =>
      FirstIndexAppend(s, key, x, key(x));
  }

  /** An upsert of `x` leaves the lookup of every other key as it was. */
  lemma LookupUpsertedOther<T, K>(s: seq<T>, key: T -> K, x: T, k: K)
    requires k != key(x)
    ensures Lookup(Upserted(s, key, x), key, k) == Lookup(s, key, k)
  {
    match FirstIndex(s, key, key(x))
    case Some(i) =>
      FirstIndexSameKeyUpdate(s, key, i, x, k);
      var f := FirstIndex(s, key, k);
      if f.Some? {
        assert f.value != i;
      }
    case None =>
      FirstIndexAppend(s, key, x, k);
      var f := FirstIndex(s, key, k);
      if f.Some? {
        assert (s + [x])[f.value] == s[f.value];
      }
  }

  /** Upserting the same record twice is the same as upserting it once. */
  lemma UpsertIdempotent<T, K>(s: seq<T>, key: T -> K, x: T)
    ensures Upserted(Upserted(s, key, x), key, x) == Upserted(s, key, x)
  {
    var once := Upserted(s, key, x);
    match FirstIndex(s, key, key(x))
    case Some(i) =>
      FirstIndexSameKeyUpdate(s, key, i, x, key(x));
      assert once[i := x] == once;
    case None =>
      FirstIndexAppend(s, key, x, key(x));
      assert once[|s| := x] == once;
  }

  /** Upsert equals replace whenever the key is already present: the two differ only on absent keys. */
  lemma UpsertedIsReplacedWhenPresent<T, K>(s: seq<T>, key: T -> K, x: T)
    ensures Contains(s, key, key(x)) <==> Upserted(s, key, x) == Replaced(s, key, x)
  {
    if !Contains(s, key, key(x)) {
      assert |Upserted(s, key, x)| != |Replaced(s, key, x)|;
    }
  }

  /** Replacing a record by one with the same key keeps the key sequence exactly. */
  lemma {:induction false} ReplacedKeepsKeys<T, K>(s: seq<T>, key: T -> K, x: T)
    ensures Keys(Replaced(s, key, x), key) == Keys(s, key)
  {
    var r := Replaced(s, key, x);
    forall j | 0 <= j < |s| ensures key(r[j]) == key(s[j]) {
      var f := FirstIndex(s, key, key(x));
      if f == Some(j) {
        assert r[j] == x && key(s[j]) == key(x);
      }
    }
  }

  /** The filter distributes over concatenation: it keeps the survivors in their original order. */
  lemma {:induction false} RemovedConcat<T, K>(a: seq<T>, b: seq<T>, key: T -> K, k: K)
    ensures Removed(a + b, key, k) == Removed(a, key, k) + Removed(b, key, k)
  {
    if a == [] {
      assert a + b == b;
    } else {
      assert (a + b)[0] == a[0];
      assert (a + b)[1..] == a[1..] + b;
      RemovedConcat(a[1..], b, key, k);
    }
  }

  /** When no record has key `k`, the filter is the identity. */
  lemma {:induction false} RemovedAbsent<T, K>(s: seq<T>, key: T -> K, k: K)
    requires forall j :: 0 <= j < |s| ==> key(s[j]) != k
    ensures Removed(s, key, k) == s
  {
    if s != [] {
      assert key(s[0]) != k;
      RemovedAbsent(s[1..], key, k);
      assert [s[0]] + s[1..] == s;
    }
  }

  /** Filtering out a key twice is the same as filtering it out once. */
  lemma RemoveIdempotent<T, K>(s: seq<T>, key: T -> K, k: K)
    ensures Removed(Removed(s, key, k), key, k) == Removed(s, key, k)
  {
    RemovedAbsent(Removed(s, key, k), key, k);
  }

  /** The filter on `k` leaves the lookup of every other key as it was. */
  lemma {:induction false} LookupRemovedOther<T, K>(s: seq<T>, key: T -> K, k: K, k': K)
    requires k' != k
    ensures Lookup(Removed(s, key, k), key, k') == Lookup(s, key, k')
  {
    if s != [] {
      LookupRemovedOther(s[1..], key, k, k');
      var rest := Removed(s[1..], key, k);
      LookupCons(s[0], s[1..], key, k');
      if key(s[0]) != k {
        assert Removed(s, key, k) == [s[0]] + rest;
        LookupCons(s[0], rest, key, k');
      } else {
        assert Removed(s, key, k) == rest;
      }
    }
  }

  /** Lookup on a sequence with a known head. */
  lemma LookupCons<T, K>(x: T, s: seq<T>, key: T -> K, k: K)
    ensures Lookup([x] + s, key, k) == if key(x) == k then Some(x) else Lookup(s, key, k)
  {
    assert ([x] + s)[1..] == s;
  }

  /** Appending a record never changes the lookup of a key that is already present. */
  lemma LookupAppendPresent<T, K>(s: seq<T>, key: T -> K, x: T, k: K)
    requires Contains(s, key, k)
    ensures Lookup(s + [x], key, k) == Lookup(s, key, k)
  {
    FirstIndexAppend(s, key, x, k);
    assert (s + [x])[FirstIndex(s, key, k).value] == s[FirstIndex(s, key, k).value];
  }

  /** Appending a record with another key leaves an absent key absent. */
  lemma LookupAppendAbsent<T, K>(s: seq<T>, key: T -> K, x: T, k: K)
    requires !Contains(s, key, k) && key(x) != k
    ensures Lookup(s + [x], key, k) == None
  {
    FirstIndexAppend(s, key, x, k);
  }
}
