/**
 * Counting occurrences the way `counts[key] = (counts[key] || 0) + 1` does on a
 * plain object: an association list of keys and counts in the order the keys
 * first appeared, which is the order `Object.entries` lists them.
 */
module Tally {
  import Seqs
  import StableSort

  /** One `[key, count]` pair of `Object.entries`. */
  datatype Entry = Entry(key: string, count: nat)

  /** The keys of the entries, in order. */
  function Keys(entries: seq<Entry>): (keys: seq<string>)
    ensures |keys| == |entries|
    ensures forall i :: 0 <= i < |keys| ==> keys[i] == entries[i].key
  {
    seq(|entries|, i requires 0 <= i < |entries| => entries[i].key)
  }

  /** `counts[key] || 0`: the count stored under `key`, or 0 when there is none. */
  function CountOf(entries: seq<Entry>, key: string): (n: nat)
    ensures key !in Keys(entries) ==> n == 0
  {
    if entries == [] then 0
    else if entries[0].key == key then entries[0].count
    else CountOf(entries[1..], key)
  }

  /** The sum of all counts. */
  function Total(entries: seq<Entry>): nat {
    if entries == [] then 0 else entries[0].count + Total(entries[1..])
  }

  /** Every stored count is at least 1. */
  predicate AllPositive(entries: seq<Entry>) {
    forall i :: 0 <= i < |entries| ==> entries[i].count >= 1
  }

  /** `counts[key] = (counts[key] || 0) + 1`: bump an existing key in place, or append it. */
  function Bump(entries: seq<Entry>, key: string): (r: seq<Entry>)
    ensures Total(r) == Total(entries) + 1
  {
    if entries == [] then [Entry(key, 1)]
    else if entries[0].key == key then
      var r := [entries[0].(count := entries[0].count + 1)] + entries[1..];
      assert r[1..] == entries[1..];
      r
    else
      var r := [entries[0]] + Bump(entries[1..], key);
      assert r[1..] == Bump(entries[1..], key);
      r
  }

  /** A bump keeps the key list when the key is listed, and appends the key otherwise. */
  lemma {:induction false} BumpKeys(entries: seq<Entry>, key: string)
    ensures key in Keys(entries) ==> Keys(Bump(entries, key)) == Keys(entries)
    ensures key !in Keys(entries) ==> Keys(Bump(entries, key)) == Keys(entries) + [key]
  {
    if entries != [] {
      var rest := entries[1..];
      var r := Bump(entries, key);
      assert Keys(entries) == [entries[0].key] + Keys(rest);
      if entries[0].key == key {
        assert r[1..] == rest;
        assert Keys(r) == [key] + Keys(rest);
      } else {
        BumpKeys(rest, key);
        assert r[1..] == Bump(rest, key);
        assert Keys(r) == [entries[0].key] + Keys(Bump(rest, key));
      }
    }
  }

  /** A bump adds one to the bumped key's count and leaves every other count alone. */
  lemma {:induction false} BumpCount(entries: seq<Entry>, key: string, k: string)
    ensures CountOf(Bump(entries, key), k) == CountOf(entries, k) + (if k == key then 1 else 0)
  {
    if entries != [] && entries[0].key != key {
      BumpCount(entries[1..], key, k);
      assert Bump(entries, key)[1..] == Bump(entries[1..], key);
    }
  }

  /** A bump keeps every count positive. */
  lemma {:induction false} BumpPositive(entries: seq<Entry>, key: string)
    requires AllPositive(entries)
    ensures AllPositive(Bump(entries, key))
  {
    if entries != [] && entries[0].key != key {
      BumpPositive(entries[1..], key);
      var r := Bump(entries, key);
      assert r[1..] == Bump(entries[1..], key);
      forall i | 0 <= i < |r| ensures r[i].count >= 1 {
        if i > 0 {
          assert r[i] == r[1..][i - 1];
        }
      }
    }
  }

  /** The counts of `keys`, bumped one key at a time from the left. */
  function Tally(keys: seq<string>): (counts: seq<Entry>)
    ensures Total(counts) == |keys|
  {
    if keys == [] then []
    else Bump(Tally(keys[..|keys| - 1]), keys[|keys| - 1])
  }

  /** Each key's count is the number of times it occurs. */
  lemma {:induction false} TallyCounts(keys: seq<string>, k: string)
    ensures CountOf(Tally(keys), k) == multiset(keys)[k]
  {
    if keys != [] {
      var init := keys[..|keys| - 1];
      var last := keys[|keys| - 1];
      assert keys == init + [last];
      TallyCounts(init, k);
      BumpCount(Tally(init), last, k);
    }
  }

  /** The keys listed are exactly the keys that occur, each once, every count positive. */
  lemma {:induction false} TallyKeys(keys: seq<string>)
    ensures forall k :: k in Keys(Tally(keys)) <==> k in keys
    ensures Seqs.NoDuplicates(Keys(Tally(keys)))
    ensures AllPositive(Tally(keys))
  {
    if keys != [] {
      var init := keys[..|keys| - 1];
      var last := keys[|keys| - 1];
      assert keys == init + [last];
      TallyKeys(init);
      BumpKeys(Tally(init), last);
      BumpPositive(Tally(init), last);
    }
  }

  /** One more key is one more bump. */
  lemma TallySnoc(keys: seq<string>, key: string)
    ensures Tally(keys + [key]) == Bump(Tally(keys), key)
  {
    assert (keys + [key])[..|keys|] == keys;
  }

  /** Bump each of `keys` in turn, from the left. */
  function BumpEach(entries: seq<Entry>, keys: seq<string>): seq<Entry> {
    if keys == [] then entries
    else Bump(BumpEach(entries, keys[..|keys| - 1]), keys[|keys| - 1])
  }

  /** Counting `a + b` is counting `a`, then bumping each key of `b`. */
  lemma {:induction false} TallyAppend(a: seq<string>, b: seq<string>)
    ensures Tally(a + b) == BumpEach(Tally(a), b)
  {
    if b == [] {
      assert a + b == a;
    } else {
      var init := b[..|b| - 1];
      var last := b[|b| - 1];
      TallyAppend(a, init);
      assert a + b == (a + init) + [last];
      TallySnoc(a + init, last);
      BumpEachSnoc(Tally(a), b);
    }
  }

  /** Bumping each key of a non-empty `keys` ends with bumping its last key. */
  lemma BumpEachSnoc(entries: seq<Entry>, keys: seq<string>)
    requires keys != []
    ensures BumpEach(entries, keys) == Bump(BumpEach(entries, keys[..|keys| - 1]), keys[|keys| - 1])
  {
  }

  /** Keys appear in the order of their first occurrence. */
  lemma {:induction false} TallyKeyOrder(keys: seq<string>, i: nat, j: nat)
    requires i < j < |Tally(keys)|
    ensures exists p :: 0 <= p < |keys| && keys[p] == Tally(keys)[i].key && Tally(keys)[j].key !in keys[..p]
  {
    var init := keys[..|keys| - 1];
    var last := keys[|keys| - 1];
    assert keys == init + [last];
    var t := Tally(init);
    assert Tally(keys) == Bump(t, last);
    var a, b := Tally(keys)[i].key, Tally(keys)[j].key;
    if last in Keys(t) || j < |t| {
      BumpKeepsOldKeys(t, last, j);
      TallyKeyOrder(init, i, j);
      FirstStaysFirst(init, last, a, b);
    } else {
      TallyKeys(init);
      BumpKeys(t, last);
      var ks := Keys(Tally(keys));
      assert ks == Keys(t) + [last];
      assert b == ks[j] == last && b !in init;
      assert a == ks[i] && a in Keys(t);
      FirstBeforeNew(init, last, a);
    }
  }

  /** An occurrence of `a` before any `b` in `init` stays one in `init + [last]`. */
  lemma FirstStaysFirst(init: seq<string>, last: string, a: string, b: string)
    requires exists p :: 0 <= p < |init| && init[p] == a && b !in init[..p]
    ensures exists p :: 0 <= p < |init + [last]| && (init + [last])[p] == a && b !in (init + [last])[..p]
  {
    var p :| 0 <= p < |init| && init[p] == a && b !in init[..p];
    assert (init + [last])[..p] == init[..p];
  }

  /** Below the old length a bump changes no key. */
  lemma BumpKeepsOldKeys(t: seq<Entry>, key: string, j: nat)
    requires j < |Bump(t, key)|
    requires key in Keys(t) || j < |t|
    ensures j < |t|
    ensures forall i :: 0 <= i <= j ==> Bump(t, key)[i].key == t[i].key
  {
    var ks := Keys(Bump(t, key));
    BumpKeys(t, key);
    if key !in Keys(t) {
      assert ks[..|t|] == Keys(t);
    }
    forall i | 0 <= i <= j ensures Bump(t, key)[i].key == t[i].key {
      assert ks[i] == Keys(t)[i];
    }
  }

  /** A key of `init` occurs in `init + [b]` before any occurrence of a new key `b`. */
  lemma FirstBeforeNew(init: seq<string>, b: string, a: string)
    requires a in init && b !in init
    ensures exists p :: 0 <= p < |init + [b]| && (init + [b])[p] == a && b !in (init + [b])[..p]
  {
    var p :| 0 <= p < |init| && init[p] == a;
    assert (init + [b])[..p] == init[..p];
  }

  /** The count as a sort key. */
  function CountKey(e: Entry): real {
    e.count as real
  }

  /**
   * `Object.entries(counts).sort(([, a], [, b]) => b - a).slice(0, n)`: the `n`
   * most frequent keys; keys with equal counts keep their first-occurrence order.
   */
  function TopEntries(entries: seq<Entry>, n: nat): (top: seq<Entry>)
    ensures |top| == if |entries| < n then |entries| else n
    ensures forall i, j :: 0 <= i < j < |top| ==> top[i].count >= top[j].count
    ensures top == StableSort.SortDescending(entries, CountKey)[..|top|]
  {
    var sorted := StableSort.SortDescending(entries, CountKey);
    StableSort.SortIsDescending(entries, CountKey);
    var top := sorted[..if |sorted| < n then |sorted| else n];
    assert forall i, j :: 0 <= i < j < |top| ==> CountKey(sorted[i]) >= CountKey(sorted[j]);
    top
  }

  /** The top list is drawn from the entries. */
  lemma TopEntriesFromEntries(entries: seq<Entry>, n: nat, i: nat)
    requires i < |TopEntries(entries, n)|
    ensures TopEntries(entries, n)[i] in entries
  {
    var sorted := StableSort.SortDescending(entries, CountKey);
    assert sorted[i] in multiset(sorted);
  }

  /** Nothing left out of the top list outnumbers anything in it. */
  lemma TopEntriesAreTop(entries: seq<Entry>, n: nat, e: Entry)
    requires e in entries && e !in TopEntries(entries, n)
    ensures forall i :: 0 <= i < |TopEntries(entries, n)| ==> TopEntries(entries, n)[i].count >= e.count
  {
    var sorted := StableSort.SortDescending(entries, CountKey);
    StableSort.SortIsDescending(entries, CountKey);
    assert e in multiset(sorted);
    var j :| 0 <= j < |sorted| && sorted[j] == e;
    var top := TopEntries(entries, n);
    assert j >= |top|;
    forall i | 0 <= i < |top| ensures top[i].count >= e.count {
      assert top[i] == sorted[i];
      assert CountKey(sorted[i]) >= CountKey(sorted[j]);
    }
  }
}
