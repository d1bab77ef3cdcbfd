/**
 * `Array.prototype.filter` and the stable `Array.prototype.sort` with a
 * comparator, over sequences. A comparator `cmp` is represented by the
 * relation `le(a, b) == (cmp(a, b) <= 0)`, which keeps `a` before `b`.
 */
module Sequences {

  /** `le` is total and transitive, so it orders every pair consistently. */
  ghost predicate TotalPreorder<T(!new)>(le: (T, T) -> bool) {
    && (forall a, b :: le(a, b) || le(b, a))
    && (forall a, b, c :: le(a, b) && le(b, c) ==> le(a, c))
  }

  /** Every element is `le` every later one. */
  ghost predicate SortedBy<T>(s: seq<T>, le: (T, T) -> bool) {
    forall i, j :: 0 <= i < j < |s| ==> le(s[i], s[j])
  }

  /** `s.filter(p)`: the elements satisfying `p`, in their original order. */
  function Filter<T>(s: seq<T>, p: T -> bool): (r: seq<T>)
    ensures |r| <= |s|
    ensures forall i :: 0 <= i < |r| ==> p(r[i]) && r[i] in s
    ensures multiset(r) <= multiset(s)
  {
    if s == [] then []
    else
      assert s == [s[0]] + s[1..];
      (if p(s[0]) then [s[0]] else []) + Filter(s[1..], p)
  }

  /**
   * Inserts `x` after every element `le` it and before the first element that
   * is strictly greater: equal elements keep their arrival order.
   */
  function Insert<T>(s: seq<T>, x: T, le: (T, T) -> bool): (r: seq<T>)
    ensures multiset(r) == multiset(s) + multiset{x}
  {
    if s == [] then [x]
    else if le(s[0], x) then
      assert s == [s[0]] + s[1..];
      [s[0]] + Insert(s[1..], x, le)
    else
      [x] + s
  }

  /** Inserting into a sorted sequence keeps it sorted. */
  lemma {:induction false} InsertSorted<T(!new)>(s: seq<T>, x: T, le: (T, T) -> bool)
    requires TotalPreorder(le) && SortedBy(s, le)
    ensures SortedBy(Insert(s, x, le), le)
  {
    if s != [] {
      var r := Insert(s, x, le);
      if le(s[0], x) {
        InsertSorted(s[1..], x, le);
        var rest := Insert(s[1..], x, le);
        forall j | 0 <= j < |rest| ensures le(s[0], rest[j]) {
          assert rest[j] in multiset(rest);
          if rest[j] != x {
            assert rest[j] in multiset(s[1..]);
            var k :| 0 <= k < |s[1..]| && s[1..][k] == rest[j];
            assert s[k + 1] == rest[j];
          }
        }
      } else {
        assert le(x, s[0]);
        forall j | 0 <= j < |s| ensures le(x, s[j]) {
          if j > 0 {
            assert le(s[0], s[j]);
          }
        }
      }
    }
  }

  /** The stable sort: each element in turn is inserted into the sorted prefix. */
  function SortBy<T(!new)>(s: seq<T>, le: (T, T) -> bool): (r: seq<T>)
    requires TotalPreorder(le)
    ensures multiset(r) == multiset(s)
    ensures SortedBy(r, le)
  {
    if s == [] then []
    else
      assert s == s[..|s| - 1] + [s[|s| - 1]];
      var prefix := SortBy(s[..|s| - 1], le);
      InsertSorted(prefix, s[|s| - 1], le);
      Insert(prefix, s[|s| - 1], le)
  }

  /** Filtering a sorted sequence leaves it sorted. */
  lemma {:induction false} FilterSorted<T>(s: seq<T>, p: T -> bool, le: (T, T) -> bool)
    requires SortedBy(s, le)
    ensures SortedBy(Filter(s, p), le)
  {
    if s != [] {
      FilterSorted(s[1..], p, le);
      var rest := Filter(s[1..], p);
      if p(s[0]) {
        forall j | 0 <= j < |rest| ensures le(s[0], rest[j]) {
          var k :| 0 <= k < |s[1..]| && s[1..][k] == rest[j];
          assert s[k + 1] == rest[j];
        }
      }
    }
  }

  /** A predicate and its negation split a sequence without losing or duplicating anything. */
  lemma {:induction false} FilterSplits<T>(s: seq<T>, p: T -> bool, q: T -> bool)
    requires forall i :: 0 <= i < |s| ==> q(s[i]) == !p(s[i])
    ensures multiset(Filter(s, p)) + multiset(Filter(s, q)) == multiset(s)
  {
    if s != [] {
      FilterSplits(s[1..], p, q);
      HeadMultiset(s);
    }
  }

  /** The multiset of a non-empty sequence is its head plus the multiset of its tail. */
  lemma HeadMultiset<T>(s: seq<T>)
    requires s != []
    ensures multiset(s) == multiset{s[0]} + multiset(s[1..])
  {
    assert s == [s[0]] + s[1..];
  }

  /** Filtering distributes over concatenation. */
  lemma {:induction false} FilterConcat<T>(a: seq<T>, b: seq<T>, p: T -> bool)
    ensures Filter(a + b, p) == Filter(a, p) + Filter(b, p)
  {
    if a == [] {
      assert a + b == b;
    } else {
      FilterConcat(a[1..], b, p);
      HeadAppend(a, b);
      FilterCons(a + b, p);
      FilterCons(a, p);
      Associative(if p(a[0]) then [a[0]] else [], Filter(a[1..], p), Filter(b, p));
    }
  }

  /**
   * Inserting after a run of elements that are all `le` to `x`, in front of
   * one that is not: `x` lands between them.
   */
  lemma {:induction false} InsertAfter<T>(a: seq<T>, b: seq<T>, x: T, le: (T, T) -> bool)
    requires forall i :: 0 <= i < |a| ==> le(a[i], x)
    requires b == [] || !le(b[0], x)
    ensures Insert(a + b, x, le) == a + [x] + b
    decreases |a|
  {
    if a == [] {
      assert a + b == b && a + [x] + b == [x] + b;
    } else {
      InsertAfter(a[1..], b, x, le);
      InsertCons(a[0], a[1..] + b, x, le);
      HeadAppend(a, b);
      HeadAppend(a, [x], b);
    }
  }

  /** Concatenations that start with a non-empty `a` start with its head. */
  lemma HeadAppend<T>(a: seq<T>, b: seq<T>, c: seq<T> := [])
    requires a != []
    ensures a + b == [a[0]] + (a[1..] + b)
    ensures (a + b)[0] == a[0] && (a + b)[1..] == a[1..] + b
    ensures a + b + c == [a[0]] + (a[1..] + b + c)
  {
  }

  lemma Associative<T>(a: seq<T>, b: seq<T>, c: seq<T>)
    ensures a + (b + c) == (a + b) + c
  {
  }

  /** One step of the filter. */
  lemma FilterCons<T>(s: seq<T>, p: T -> bool)
    requires s != []
    ensures Filter(s, p) == (if p(s[0]) then [s[0]] else []) + Filter(s[1..], p)
  {
  }

  /** Inserting behind a first element that is `le` to `x`. */
  lemma InsertCons<T>(y: T, s: seq<T>, x: T, le: (T, T) -> bool)
    requires le(y, x)
    ensures Insert([y] + s, x, le) == [y] + Insert(s, x, le)
  {
    assert ([y] + s)[1..] == s;
  }

  /** An element that satisfies `p` survives the filter, so the result is not empty. */
  lemma {:induction false} FilterNonEmpty<T>(s: seq<T>, p: T -> bool, i: nat)
    requires i < |s| && p(s[i])
    ensures |Filter(s, p)| > 0
  {
    if !p(s[0]) {
      FilterNonEmpty(s[1..], p, i - 1);
    }
  }

  /** The filter of a sequence with one more element at the end. */
  lemma FilterSnoc<T>(s: seq<T>, x: T, p: T -> bool)
    ensures Filter(s + [x], p) == Filter(s, p) + (if p(x) then [x] else [])
  {
    FilterConcat(s, [x], p);
    FilterSingle(x, p);
  }

  /** The filter of a one-element sequence. */
  lemma FilterSingle<T>(x: T, p: T -> bool)
    ensures Filter([x], p) == if p(x) then [x] else []
  {
    assert [x][1..] == [];
  }

  /** The sort of a sequence with one more element at the end inserts that element into the sorted rest. */
  lemma SortBySnoc<T(!new)>(s: seq<T>, x: T, le: (T, T) -> bool)
    requires TotalPreorder(le)
    ensures SortBy(s + [x], le) == Insert(SortBy(s, le), x, le)
  {
    assert (s + [x])[..|s|] == s;
  }

  /** The elements `le` ranks level with `x`: neither may be kept after the other. */
  function Tied<T>(le: (T, T) -> bool, x: T): T -> bool {
    (e: T) => le(e, x) && le(x, e)
  }

  /**
   * Inserting `y` into a sorted sequence puts it after every element it is
   * tied with, so the elements tied with any `x` keep their order, with `y`
   * last among them when it is one of them.
   */
  lemma {:induction false} InsertKeepsTies<T(!new)>(t: seq<T>, y: T, x: T, le: (T, T) -> bool)
    requires TotalPreorder(le) && SortedBy(t, le)
    ensures Filter(Insert(t, y, le), Tied(le, x)) ==
      Filter(t, Tied(le, x)) + (if Tied(le, x)(y) then [y] else [])
    decreases |t|
  {
    var p := Tied(le, x);
    if t == [] {
      FilterSingle(y, p);
    } else if le(t[0], y) {
      var rest := Insert(t[1..], y, le);
      InsertKeepsTies(t[1..], y, x, le);
      FilterCons([t[0]] + rest, p);
      assert ([t[0]] + rest)[1..] == rest;
      FilterCons(t, p);
      Associative(if p(t[0]) then [t[0]] else [], Filter(t[1..], p), if p(y) then [y] else []);
    } else {
      FilterCons([y] + t, p);
      assert ([y] + t)[1..] == t;
      if p(y) {
        forall i | 0 <= i < |t| ensures !p(t[i]) {
          assert i == 0 || le(t[0], t[i]);
        }
        FilterNoneKept(t, p);
      }
    }
  }

  /**
   * The sort is stable: the elements tied with any `x` come out in the order
   * they went in.
   */
  lemma {:induction false} SortByKeepsTies<T(!new)>(s: seq<T>, x: T, le: (T, T) -> bool)
    requires TotalPreorder(le)
    ensures Filter(SortBy(s, le), Tied(le, x)) == Filter(s, Tied(le, x))
    decreases |s|
  {
    if s != [] {
      var n := |s| - 1;
      assert s == s[..n] + [s[n]];
      SortBySnoc(s[..n], s[n], le);
      SortByKeepsTies(s[..n], x, le);
      InsertKeepsTies(SortBy(s[..n], le), s[n], x, le);
      FilterSnoc(s[..n], s[n], Tied(le, x));
    }
  }

  /** A filter that keeps nothing. */
  /** An element occurs in the filtered sequence as often as in the input when it passes, otherwise never. */
  lemma {:induction false} FilterCount<T>(s: seq<T>, p: T -> bool)
    ensures forall x :: multiset(Filter(s, p))[x] == if p(x) then multiset(s)[x] else 0
    decreases |s|
  {
    if s != [] {
      FilterCount(s[1..], p);
      assert s == [s[0]] + s[1..];
    }
  }

  lemma {:induction false} FilterNoneKept<T>(s: seq<T>, p: T -> bool)
    requires forall i :: 0 <= i < |s| ==> !p(s[i])
    ensures Filter(s, p) == []
  {
    if s != [] {
      FilterNoneKept(s[1..], p);
    }
  }

  /** A filter that keeps everything. */
  lemma {:induction false} FilterAllKept<T>(s: seq<T>, p: T -> bool)
    requires forall i :: 0 <= i < |s| ==> p(s[i])
    ensures Filter(s, p) == s
  {
    if s != [] {
      FilterAllKept(s[1..], p);
      assert s == [s[0]] + s[1..];
    }
  }
}
