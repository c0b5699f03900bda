/**
 * `array.sort((a, b) => key(b) - key(a))`: JavaScript's `Array.prototype.sort`
 * is stable (ECMA-262, 2019 edition onward), so with this comparator it orders
 * by descending key and keeps the input order among equal keys.
 *
 * SortDescending is a stable insertion sort. The lemmas show it is descending,
 * a permutation, stable, and the ONLY sequence with those three properties, so
 * it is exactly what any conforming engine's sort returns.
 */
module StableSort {
  import Seqs

  /** Keys never increase from left to right. */
  ghost predicate Descending<T>(s: seq<T>, key: T -> real) {
    forall i, j :: 0 <= i < j < |s| ==> key(s[i]) >= key(s[j])
  }

  /** The predicate `x => key(x) == k`. */
  function HasKey<T>(key: T -> real, k: real): T -> bool {
    x => key(x) == k
  }

  /** The elements whose key is `k`, in order: stability compares these. */
  function WithKey<T(!new)>(s: seq<T>, key: T -> real, k: real): seq<T> {
    Seqs.Filter(s, HasKey(key, k))
  }

  /** Insert `x` before the first element whose key does not exceed its own. */
  function Insert<T>(x: T, s: seq<T>, key: T -> real): (r: seq<T>)
    ensures |r| == |s| + 1
    ensures multiset(r) == multiset([x] + s)
  {
    if s == [] || key(x) >= key(s[0]) then [x] + s
    else
      assert s == [s[0]] + s[1..];
      [s[0]] + Insert(x, s[1..], key)
  }

  /** Stable sort by descending key. */
  function SortDescending<T>(s: seq<T>, key: T -> real): (r: seq<T>)
    ensures |r| == |s|
    ensures multiset(r) == multiset(s)
  {
    if s == [] then []
    else
      assert s == [s[0]] + s[1..];
      Insert(s[0], SortDescending(s[1..], key), key)
  }

  lemma DescendingTail<T>(s: seq<T>, key: T -> real)
    requires s != [] && Descending(s, key)
    ensures Descending(s[1..], key)
  {
    var t := s[1..];
    forall i, j | 0 <= i < j < |t| ensures key(t[i]) >= key(t[j]) {
      assert t[i] == s[i + 1] && t[j] == s[j + 1];
    }
  }

  lemma HeadIsLargest<T>(s: seq<T>, key: T -> real, y: T)
    requires Descending(s, key) && y in s
    ensures key(s[0]) >= key(y)
  {
    var i :| 0 <= i < |s| && s[i] == y;
    if i > 0 {
      assert key(s[0]) >= key(s[i]);
    }
  }

  lemma DescendingCons<T>(h: T, s: seq<T>, key: T -> real)
    requires Descending(s, key)
    requires forall y :: y in multiset(s) ==> key(h) >= key(y)
    ensures Descending([h] + s, key)
  {
    var full := [h] + s;
    forall i, j | 0 <= i < j < |full| ensures key(full[i]) >= key(full[j]) {
      assert full[j] == s[j - 1];
      if i > 0 {
        assert full[i] == s[i - 1];
      } else {
        assert s[j - 1] in multiset(s);
      }
    }
  }

  lemma {:induction false} InsertDescending<T>(x: T, s: seq<T>, key: T -> real)
    requires Descending(s, key)
    ensures Descending(Insert(x, s, key), key)
  {
    if s == [] || key(x) >= key(s[0]) {
      forall y | y in multiset(s) ensures key(x) >= key(y) {
        HeadIsLargest(s, key, y);
      }
      DescendingCons(x, s, key);
    } else {
      var t := s[1..];
      DescendingTail(s, key);
      InsertDescending(x, t, key);
      var r := Insert(x, t, key);
      forall y | y in multiset(r) ensures key(s[0]) >= key(y) {
        assert y == x || y in multiset(t);
        if y != x {
          assert y in s;
          HeadIsLargest(s, key, y);
        }
      }
      DescendingCons(s[0], r, key);
    }
  }

  /** The stable sort orders by descending key. */
  lemma {:induction false} SortIsDescending<T>(s: seq<T>, key: T -> real)
    ensures Descending(SortDescending(s, key), key)
  {
    if s != [] {
      SortIsDescending(s[1..], key);
      InsertDescending(s[0], SortDescending(s[1..], key), key);
    }
  }

  /** Inserting into a descending sequence moves `x` only past elements of strictly larger key. */
  lemma {:induction false} InsertStable<T(!new)>(x: T, s: seq<T>, key: T -> real, k: real)
    requires Descending(s, key)
    ensures WithKey(Insert(x, s, key), key, k) == WithKey([x] + s, key, k)
  {
    if s != [] && key(x) < key(s[0]) {
      var y, t := s[0], s[1..];
      DescendingTail(s, key);
      InsertStable(x, t, key, k);
      assert Insert(x, s, key) == [y] + Insert(x, t, key);
      assert s == [y] + t;
      // x and y have different keys, so at most one of them is kept
      Seqs.FilterSwapFront(x, y, t, Insert(x, t, key), HasKey(key, k));
    } else {
      assert Insert(x, s, key) == [x] + s;
    }
  }

  /** Stability: among elements with equal keys, the sort keeps the input order. */
  lemma {:induction false} SortIsStable<T(!new)>(s: seq<T>, key: T -> real, k: real)
    ensures WithKey(SortDescending(s, key), key, k) == WithKey(s, key, k)
  {
    if s != [] {
      var rest := SortDescending(s[1..], key);
      SortIsStable(s[1..], key, k);
      SortIsDescending(s[1..], key);
      InsertStable(s[0], rest, key, k);
      Seqs.FilterCons(s[0], rest, HasKey(key, k));
      Seqs.FilterCons(s[0], s[1..], HasKey(key, k));
      assert s == [s[0]] + s[1..];
    }
  }

  /**
   * Uniqueness: a descending sequence with the same elements of each key, in the
   * same order, as `s` IS the stable sort of `s`.
   */
  lemma StableSortUnique<T(!new)>(s: seq<T>, t: seq<T>, key: T -> real)
    requires Descending(t, key)
    requires forall k :: WithKey(t, key, k) == WithKey(s, key, k)
    ensures t == SortDescending(s, key)
  {
    var u := SortDescending(s, key);
    SortIsDescending(s, key);
    forall k ensures WithKey(t, key, k) == WithKey(u, key, k) {
      SortIsStable(s, key, k);
    }
    DescendingSameGroupsEqual(t, u, key);
  }

  /** An element of `t` shows up in `u` when both have the same key groups. */
  lemma InSameGroups<T(!new)>(t: seq<T>, u: seq<T>, key: T -> real, y: T)
    requires forall k :: WithKey(t, key, k) == WithKey(u, key, k)
    requires y in t
    ensures y in u
  {
    assert y in WithKey(t, key, key(y));
  }

  /** The heads of two descending sequences with the same key groups coincide. */
  lemma SameGroupsSameHead<T(!new)>(t: seq<T>, u: seq<T>, key: T -> real)
    requires t != [] && u != []
    requires Descending(t, key) && Descending(u, key)
    requires forall k :: WithKey(t, key, k) == WithKey(u, key, k)
    ensures t[0] == u[0]
  {
    InSameGroups(u, t, key, u[0]);
    InSameGroups(t, u, key, t[0]);
    HeadIsLargest(t, key, u[0]);
    HeadIsLargest(u, key, t[0]);
    var k0 := key(t[0]);
    var p := HasKey(key, k0);
    assert p(t[0]) && p(u[0]);
    var ft := Seqs.Filter(t, p);
    var fu := Seqs.Filter(u, p);
    assert ft == fu by {
      assert WithKey(t, key, k0) == WithKey(u, key, k0);
    }
    assert t == [t[0]] + t[1..] && u == [u[0]] + u[1..];
    Seqs.FilterCons(t[0], t[1..], p);
    Seqs.FilterCons(u[0], u[1..], p);
    assert ft[0] == t[0] && fu[0] == u[0];
  }

  /** Two descending sequences with the same key groups are equal. */
  lemma {:induction false} DescendingSameGroupsEqual<T(!new)>(t: seq<T>, u: seq<T>, key: T -> real)
    requires Descending(t, key) && Descending(u, key)
    requires forall k :: WithKey(t, key, k) == WithKey(u, key, k)
    ensures t == u
    decreases |t|
  {
    if t == [] {
      if u != [] {
        InSameGroups(u, t, key, u[0]);
      }
    } else if u == [] {
      InSameGroups(t, u, key, t[0]);
    } else {
      SameGroupsSameHead(t, u, key);
      var t', u' := t[1..], u[1..];
      DescendingTail(t, key);
      DescendingTail(u, key);
      forall k ensures WithKey(t', key, k) == WithKey(u', key, k) {
        var p := HasKey(key, k);
        assert t == [t[0]] + t' && u == [u[0]] + u';
        Seqs.FilterCons(t[0], t', p);
        Seqs.FilterCons(u[0], u', p);
        var head := if p(t[0]) then [t[0]] else [];
        assert head + Seqs.Filter(t', p) == head + Seqs.Filter(u', p) by {
          assert WithKey(t, key, k) == WithKey(u, key, k);
        }
        assert (head + Seqs.Filter(t', p))[|head|..] == Seqs.Filter(t', p);
        assert (head + Seqs.Filter(u', p))[|head|..] == Seqs.Filter(u', p);
      }
      DescendingSameGroupsEqual(t', u', key);
      assert t == [t[0]] + t' && u == [u[0]] + u';
    }
  }
}
