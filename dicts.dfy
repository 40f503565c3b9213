/**
 * Python's `dict`, which remembers the order in which keys were first stored:
 * iterating over it, and `max(d, key=...)` on it, follow that order.
 */
module Dicts {

  /** `keys` lists every key of `entries` once, in first-insertion order. */
  datatype Dict<K(==), V> = Dict(keys: seq<K>, entries: map<K, V>) {

    ghost predicate Valid() {
      && (forall i, j | 0 <= i < j < |keys| :: keys[i] != keys[j])
      && (forall k | k in entries :: k in keys)
      && (forall i | 0 <= i < |keys| :: keys[i] in entries)
    }

    /** `d.get(k, default)` */
    function Get(k: K, default: V): V {
      if k in entries then entries[k] else default
    }

    /** `d.values()`: the stored values, in key order. */
    function Values(): (vs: seq<V>)
      requires Valid()
      ensures |vs| == |keys| && forall i | 0 <= i < |keys| :: keys[i] in entries && vs[i] == entries[keys[i]]
    {
      seq(|keys|, i requires 0 <= i < |keys| => entries[keys[i]])
    }

    /** `d[k] = v`: an existing key keeps its place, a new key goes last. */
    function Put(k: K, v: V): (d: Dict<K, V>)
      ensures Valid() ==> d.Valid()
      ensures d.entries == entries[k := v]
      ensures d.keys == if k in entries then keys else keys + [k]
    {
      if k in entries then Dict(keys, entries[k := v]) else Dict(keys + [k], entries[k := v])
    }
  }

  function Empty<K(==), V>(): (d: Dict<K, V>)
    ensures d.Valid() && d.keys == []
  {
    Dict([], map[])
  }

  // ----- tallies: dictionaries of counts -----

  /** `d[k] = d.get(k, 0) + 1` */
  function Increment<K(==)>(d: Dict<K, nat>, k: K): (r: Dict<K, nat>)
    ensures d.Valid() ==> r.Valid()
  {
    d.Put(k, d.Get(k, 0) + 1)
  }

  /** The tally that incrementing, item by item, an empty dictionary gives. */
  function TallyOf<K(==)>(xs: seq<K>): (d: Dict<K, nat>)
    ensures d.Valid()
    decreases |xs|
  {
    if xs == [] then Empty() else Increment(TallyOf(xs[..|xs| - 1]), xs[|xs| - 1])
  }

  /** Counting one more item increments the tally of the items before it. */
  lemma TallySnoc<K>(xs: seq<K>, x: K)
    ensures TallyOf(xs + [x]) == Increment(TallyOf(xs), x)
  {
    assert (xs + [x])[..|xs|] == xs;
  }

  /** The tally holds exactly the items seen, each with its number of occurrences. */
  lemma {:induction false} TallyCounts<K>(xs: seq<K>)
    ensures forall k :: k in TallyOf(xs).entries <==> k in xs
    ensures forall k | k in TallyOf(xs).entries :: TallyOf(xs).entries[k] == multiset(xs)[k]
    decreases |xs|
  {
    if xs != [] {
      var init, last := xs[..|xs| - 1], xs[|xs| - 1];
      assert xs == init + [last];
      TallyCounts(init);
    }
  }

  /** The sum of the values, in key order. */
  function SumOver<K(==)>(keys: seq<K>, m: map<K, nat>): nat
    requires forall k | k in keys :: k in m
    decreases |keys|
  {
    if keys == [] then 0 else SumOver(keys[..|keys| - 1], m) + m[keys[|keys| - 1]]
  }

  /** `sum(d.values())` */
  function SumValues<K(==)>(d: Dict<K, nat>): nat
    requires d.Valid()
  {
    SumOver(d.keys, d.entries)
  }

  lemma {:induction false} SumOverFrame<K>(keys: seq<K>, m: map<K, nat>, k: K, v: nat)
    requires forall x | x in keys :: x in m
    requires k !in keys
    ensures SumOver(keys, m[k := v]) == SumOver(keys, m)
    decreases |keys|
  {
    if keys != [] {
      SumOverFrame(keys[..|keys| - 1], m, k, v);
    }
  }

  lemma {:induction false} SumOverBump<K>(keys: seq<K>, m: map<K, nat>, k: K)
    requires forall x | x in keys :: x in m
    requires forall i, j | 0 <= i < j < |keys| :: keys[i] != keys[j]
    requires k in keys
    ensures SumOver(keys, m[k := m[k] + 1]) == SumOver(keys, m) + 1
    decreases |keys|
  {
    var init, last := keys[..|keys| - 1], keys[|keys| - 1];
    if last == k {
      assert k !in init by {
        forall i | 0 <= i < |init| ensures init[i] != k {
          assert keys[i] != keys[|keys| - 1];
        }
      }
      SumOverFrame(init, m, k, m[k] + 1);
    } else {
      assert k in init by {
        var i :| 0 <= i < |keys| && keys[i] == k;
        assert i < |keys| - 1;
        assert init[i] == k;
      }
      SumOverBump(init, m, k);
    }
  }

  /** Every increment adds exactly one to the sum of the counts. */
  lemma IncrementSum<K>(d: Dict<K, nat>, k: K)
    requires d.Valid()
    ensures SumValues(Increment(d, k)) == SumValues(d) + 1
  {
    if k in d.entries {
      IncrementSumStored(d, k);
    } else {
      IncrementSumNew(d, k);
    }
  }

  lemma IncrementSumStored<K>(d: Dict<K, nat>, k: K)
    requires d.Valid() && k in d.entries
    ensures SumValues(Increment(d, k)) == SumValues(d) + 1
  {
    var r := Increment(d, k);
    assert r.keys == d.keys && r.entries == d.entries[k := d.entries[k] + 1];
    assert k in d.keys;
    SumOverBump(d.keys, d.entries, k);
  }

  lemma IncrementSumNew<K>(d: Dict<K, nat>, k: K)
    requires d.Valid() && k !in d.entries
    ensures SumValues(Increment(d, k)) == SumValues(d) + 1
  {
    var r := Increment(d, k);
    var m := d.entries[k := 1];
    assert r.keys == d.keys + [k] && r.entries == m;
    assert k !in d.keys;
    SumOverFrame(d.keys, d.entries, k, 1);
    assert r.keys[..|r.keys| - 1] == d.keys;
    assert SumOver(r.keys, m) == SumOver(d.keys, m) + m[k];
  }

  /** A single count never exceeds the sum of all counts. */
  lemma {:induction false} SumOverAtLeastOne<K>(keys: seq<K>, m: map<K, nat>, i: nat)
    requires forall x | x in keys :: x in m
    requires i < |keys|
    ensures m[keys[i]] <= SumOver(keys, m)
    decreases |keys|
  {
    if i < |keys| - 1 {
      SumOverAtLeastOne(keys[..|keys| - 1], m, i);
    }
  }

  /** Two distinct keys' counts together never exceed the sum of all counts. */
  lemma {:induction false} SumOverAtLeastTwo<K>(keys: seq<K>, m: map<K, nat>, i: nat, j: nat)
    requires forall x | x in keys :: x in m
    requires i < |keys| && j < |keys| && i != j
    ensures m[keys[i]] + m[keys[j]] <= SumOver(keys, m)
    decreases |keys|
  {
    var n := |keys| - 1;
    if i == n {
      SumOverAtLeastOne(keys[..n], m, j);
    } else if j == n {
      SumOverAtLeastOne(keys[..n], m, i);
    } else {
      SumOverAtLeastTwo(keys[..n], m, i, j);
    }
  }

  // ----- max(d.items(), key=count): the first key with the largest count -----

  /** The first position, among the first `n` keys, whose count no other key exceeds. */
  function FirstMaxIndex<K(==)>(keys: seq<K>, m: map<K, nat>, n: nat): (i: nat)
    requires forall x | x in keys :: x in m
    requires 0 < n <= |keys|
    ensures i < n
    ensures forall j | 0 <= j < n :: m[keys[j]] <= m[keys[i]]
    ensures forall j | 0 <= j < i :: m[keys[j]] < m[keys[i]]
    decreases n
  {
    if n == 1 then 0
    else
      var i := FirstMaxIndex(keys, m, n - 1);
      if m[keys[n - 1]] > m[keys[i]] then n - 1 else i
  }

  /** The key `max` picks: the largest count, the earliest key among equals. */
  function FirstMaxKey<K(==)>(d: Dict<K, nat>): (k: K)
    requires d.Valid() && d.keys != []
    ensures k in d.entries
    ensures forall x | x in d.entries :: d.entries[x] <= d.entries[k]
    ensures forall i, j | 0 <= i < j < |d.keys| && d.keys[j] == k :: d.entries[d.keys[i]] < d.entries[k]
  {
    d.keys[FirstMaxIndex(d.keys, d.entries, |d.keys|)]
  }

  /** The position of the first occurrence of `x`. */
  function IndexOf<T(==)>(xs: seq<T>, x: T): (i: nat)
    requires x in xs
    ensures i < |xs| && xs[i] == x && forall j | 0 <= j < i :: xs[j] != x
  {
    if xs[0] == x then 0 else 1 + IndexOf(xs[1..], x)
  }

  /** A tally lists its keys in the order of their first occurrence. */
  lemma {:induction false} TallyKeysInFirstSeenOrder<T>(xs: seq<T>, i: nat, j: nat)
    requires i < j < |TallyOf(xs).keys|
    ensures TallyOf(xs).keys[i] in xs && TallyOf(xs).keys[j] in xs
    ensures IndexOf(xs, TallyOf(xs).keys[i]) < IndexOf(xs, TallyOf(xs).keys[j])
    decreases |xs|
  {
    var init, last := xs[..|xs| - 1], xs[|xs| - 1];
    assert xs == init + [last];
    TallyKeysSnoc(init, last);
    var before := TallyOf(init).keys;
    TallyKeyIsItem(init, i);
    IndexOfPrefix(init, last, before[i]);
    if j < |before| {
      TallyKeysInFirstSeenOrder(init, i, j);
      TallyKeyIsItem(init, j);
      IndexOfPrefix(init, last, before[j]);
    } else {
      IndexOfNew(init, last);
    }
  }

  /** Counting one more item keeps the keys, adding the item last when it is new. */
  lemma TallyKeysSnoc<T>(init: seq<T>, last: T)
    ensures TallyOf(init + [last]).keys == if last in init then TallyOf(init).keys else TallyOf(init).keys + [last]
  {
    TallySnoc(init, last);
    TallyCounts(init);
  }

  /** Every key of a tally is one of the items. */
  lemma TallyKeyIsItem<T>(xs: seq<T>, i: nat)
    requires i < |TallyOf(xs).keys|
    ensures TallyOf(xs).keys[i] in xs
  {
    TallyCounts(xs);
  }

  /** A new item appended is first seen at the end. */
  lemma IndexOfNew<T>(init: seq<T>, last: T)
    requires last !in init
    ensures last in init + [last] && IndexOf(init + [last], last) == |init|
  {
  }

  /** Appending an item leaves the first occurrence of earlier items where it was. */
  lemma IndexOfPrefix<T>(init: seq<T>, last: T, x: T)
    requires x in init
    ensures x in init + [last] && IndexOf(init + [last], x) == IndexOf(init, x)
  {
    var i, k := IndexOf(init, x), IndexOf(init + [last], x);
    assert (init + [last])[i] == x;
    assert k <= i;
    assert init[k] == x;
  }

  /**
   * Tallying finds nothing exactly when there are no items; otherwise the key
   * `max` picks is an item no other item occurs more often than, and every item
   * occurring as often was first seen later.
   */
  lemma MostFrequentFirstSeen<K>(xs: seq<K>)
    ensures TallyOf(xs).keys == [] <==> xs == []
    ensures xs != [] ==>
      var k := FirstMaxKey(TallyOf(xs));
      && k in xs
      && (forall x | x in xs :: multiset(xs)[x] <= multiset(xs)[k])
      && (forall x | x in xs && multiset(xs)[x] == multiset(xs)[k] :: IndexOf(xs, k) <= IndexOf(xs, x))
  {
    var tally := TallyOf(xs);
    TallyCounts(xs);
    if xs != [] {
      assert xs[0] in tally.entries;
      var k := FirstMaxIndex(tally.keys, tally.entries, |tally.keys|);
      var main := tally.keys[k];
      forall x | x in xs && multiset(xs)[x] == multiset(xs)[main]
        ensures IndexOf(xs, main) <= IndexOf(xs, x)
      {
        assert x in tally.entries;
        var j :| 0 <= j < |tally.keys| && tally.keys[j] == x;
        if k < j {
          TallyKeysInFirstSeenOrder(xs, k, j);
        } else if j < k {
          assert false;
        }
      }
    }
  }
}
