/**
 * A JavaScript `Map` as the pipeline uses it: a dictionary that also remembers
 * the order in which its keys were first inserted. `set` on a key that is
 * already present replaces the value but keeps the key where it was;
 * `values()` enumerates in key order. Both the batch coalescer (its
 * `batchMap`) and the client reconciler (its `antennasMap`) rely on this.
 */
module OrderedMap {

  /** No element occurs twice. */
  ghost predicate Distinct<K>(xs: seq<K>) {
    forall i, j :: 0 <= i < j < |xs| ==> xs[i] != xs[j]
  }

  /** The keys of a sequence of key/value pairs, in order. */
  function KeysOf<K, V>(kvs: seq<(K, V)>): (ks: seq<K>)
    ensures |ks| == |kvs|
    ensures forall i :: 0 <= i < |kvs| ==> ks[i] == kvs[i].0
  {
    seq(|kvs|, i requires 0 <= i < |kvs| => kvs[i].0)
  }

  /** The position at which `x` first occurs in `xs`. */
  function FirstIndex<K(==,!new)>(xs: seq<K>, x: K): (i: nat)
    requires x in xs
    ensures i < |xs| && xs[i] == x
    ensures forall j :: 0 <= j < i ==> xs[j] != x
  {
    if xs[0] == x then 0 else 1 + FirstIndex(xs[1..], x)
  }

  /** The position of the last pair whose key is `k`. */
  function LastIndex<K(==,!new), V>(kvs: seq<(K, V)>, k: K): (j: nat)
    requires k in KeysOf(kvs)
    ensures j < |kvs| && kvs[j].0 == k
    ensures forall j' :: j < j' < |kvs| ==> kvs[j'].0 != k
    decreases |kvs|
  {
    var n := |kvs| - 1;
    if kvs[n].0 == k then n
    else
      assert KeysOf(kvs) == KeysOf(kvs[..n]) + [kvs[n].0];
      LastIndex(kvs[..n], k)
  }

  datatype OMap<K(==,!new), V> = OMap(keys: seq<K>, vals: map<K, V>) {

    /** The key order lists every key of the dictionary exactly once. */
    ghost predicate Valid() {
      && Distinct(keys)
      && (forall k :: k in vals <==> k in keys)
    }

    /** `Map.prototype.size`. */
    function Size(): (n: nat)
      requires Valid()
      ensures n == |vals|
      ensures n == 0 <==> vals == map[]
    {
      DistinctCardinality(keys, vals);
      |keys|
    }

    /**
     * `Map.prototype.set`: the value under `k` becomes `v`; a key already
     * present keeps its position, a new key is placed last.
     */
    function Set(k: K, v: V): (m: OMap<K, V>)
      requires Valid()
      ensures m.Valid()
      ensures m.vals == vals[k := v]
      ensures keys <= m.keys
      ensures m.keys == if k in vals then keys else keys + [k]
    {
      if k in vals then OMap(keys, vals[k := v]) else OMap(keys + [k], vals[k := v])
    }

    /** `Array.from(m.values())`: the values, in key order. */
    function Values(): (vs: seq<V>)
      requires Valid()
      ensures |vs| == |keys|
      ensures forall i :: 0 <= i < |keys| ==> vs[i] == vals[keys[i]]
    {
      seq(|keys|, i requires 0 <= i < |keys| => vals[keys[i]])
    }
  }

  /** `new Map()`. */
  function Empty<K(==,!new), V>(): (m: OMap<K, V>)
    ensures m.Valid()
    ensures m.keys == [] && m.vals == map[]
  {
    OMap([], map[])
  }

  /** A repetition-free sequence has as many elements as the set of its elements. */
  lemma {:induction false} DistinctElements<K>(keys: seq<K>)
    requires Distinct(keys)
    ensures |(set k | k in keys)| == |keys|
  {
    if keys != [] {
      var n := |keys| - 1;
      DistinctElements(keys[..n]);
      assert (set k | k in keys) == (set k | k in keys[..n]) + {keys[n]};
    }
  }

  /** A repetition-free key order has as many entries as the dictionary has keys. */
  lemma DistinctCardinality<K, V>(keys: seq<K>, vals: map<K, V>)
    requires Distinct(keys)
    requires forall k :: k in vals <==> k in keys
    ensures |vals| == |keys|
  {
    DistinctElements(keys);
    assert vals.Keys == (set k | k in keys);
  }

  /** Calls `set(k, v)` for every pair, in order. */
  function SetAll<K(==,!new), V>(m: OMap<K, V>, kvs: seq<(K, V)>): (r: OMap<K, V>)
    requires m.Valid()
    ensures r.Valid()
    decreases |kvs|
  {
    if kvs == [] then m
    else
      var n := |kvs| - 1;
      SetAll(m, kvs[..n]).Set(kvs[n].0, kvs[n].1)
  }

  /** One more pair is one more `set`. */
  lemma SetAllAppend<K(!new), V>(m: OMap<K, V>, kvs: seq<(K, V)>, k: K, v: V)
    requires m.Valid()
    ensures SetAll(m, kvs + [(k, v)]) == SetAll(m, kvs).Set(k, v)
  {
    assert (kvs + [(k, v)])[..|kvs|] == kvs;
  }

  /** Setting never removes a key or moves an existing one; the new keys are exactly those set. */
  lemma {:induction false} SetAllKeys<K(!new), V>(m: OMap<K, V>, kvs: seq<(K, V)>)
    requires m.Valid()
    ensures forall k :: k in SetAll(m, kvs).vals <==> k in m.vals || k in KeysOf(kvs)
    ensures m.keys <= SetAll(m, kvs).keys
    decreases |kvs|
  {
    if kvs != [] {
      var n := |kvs| - 1;
      var p := SetAll(m, kvs[..n]);
      SetAllKeys(m, kvs[..n]);
      assert SetAll(m, kvs) == p.Set(kvs[n].0, kvs[n].1);
      assert KeysOf(kvs) == KeysOf(kvs[..n]) + [kvs[n].0];
    }
  }

  /** The last pair for a key wins. */
  lemma {:induction false} SetAllLastWins<K(!new), V>(m: OMap<K, V>, kvs: seq<(K, V)>, k: K)
    requires m.Valid()
    requires k in KeysOf(kvs)
    ensures k in SetAll(m, kvs).vals
    ensures SetAll(m, kvs).vals[k] == kvs[LastIndex(kvs, k)].1
    decreases |kvs|
  {
    var n := |kvs| - 1;
    if kvs[n].0 != k {
      assert KeysOf(kvs) == KeysOf(kvs[..n]) + [kvs[n].0];
      SetAllLastWins(m, kvs[..n], k);
    }
  }

  /** A key that is never set keeps its value. */
  lemma {:induction false} SetAllKeepsUnmentioned<K(!new), V>(m: OMap<K, V>, kvs: seq<(K, V)>, k: K)
    requires m.Valid()
    requires k in m.vals && k !in KeysOf(kvs)
    ensures k in SetAll(m, kvs).vals
    ensures SetAll(m, kvs).vals[k] == m.vals[k]
    decreases |kvs|
  {
    if kvs != [] {
      var n := |kvs| - 1;
      assert KeysOf(kvs) == KeysOf(kvs[..n]) + [kvs[n].0];
      SetAllKeepsUnmentioned(m, kvs[..n], k);
    }
  }

  /** When every key set is already present, the key order does not change. */
  lemma {:induction false} SetAllNoNewKeys<K(!new), V>(m: OMap<K, V>, kvs: seq<(K, V)>)
    requires m.Valid()
    requires forall k :: k in KeysOf(kvs) ==> k in m.vals
    ensures SetAll(m, kvs).keys == m.keys
    decreases |kvs|
  {
    if kvs != [] {
      var n := |kvs| - 1;
      assert KeysOf(kvs) == KeysOf(kvs[..n]) + [kvs[n].0];
      SetAllNoNewKeys(m, kvs[..n]);
      SetAllKeys(m, kvs[..n]);
    }
  }

  /** The resulting key order depends only on the starting key order, not on the starting values. */
  lemma {:induction false} SetAllKeyOrder<K(!new), V>(m1: OMap<K, V>, m2: OMap<K, V>, kvs: seq<(K, V)>)
    requires m1.Valid() && m2.Valid()
    requires m1.keys == m2.keys
    ensures SetAll(m1, kvs).keys == SetAll(m2, kvs).keys
    decreases |kvs|
  {
    if kvs != [] {
      var n := |kvs| - 1;
      SetAllKeyOrder(m1, m2, kvs[..n]);
      var r1, r2 := SetAll(m1, kvs[..n]), SetAll(m2, kvs[..n]);
      assert kvs[n].0 in r1.vals <==> kvs[n].0 in r2.vals;
    }
  }

  /** Setting the same pairs a second time changes nothing. */
  lemma SetAllIdempotent<K(!new), V>(m: OMap<K, V>, kvs: seq<(K, V)>)
    requires m.Valid()
    ensures SetAll(SetAll(m, kvs), kvs) == SetAll(m, kvs)
  {
    var r := SetAll(m, kvs);
    var r2 := SetAll(r, kvs);
    SetAllKeys(m, kvs);
    SetAllNoNewKeys(r, kvs);
    forall k | k in r.vals ensures k in r2.vals && r2.vals[k] == r.vals[k] {
      SetAllIdempotentAt(m, kvs, k);
    }
    Extensionality(r2, r);
  }

  /** Two well-formed maps with the same key order and the same values are equal. */
  lemma Extensionality<K(!new), V>(a: OMap<K, V>, b: OMap<K, V>)
    requires a.Valid() && b.Valid() && a.keys == b.keys
    requires forall k :: k in b.vals ==> k in a.vals && a.vals[k] == b.vals[k]
    ensures a == b
  {
    assert a.vals == b.vals;
  }

  /** `SetAllIdempotent`, for the value under one key. */
  lemma SetAllIdempotentAt<K(!new), V>(m: OMap<K, V>, kvs: seq<(K, V)>, k: K)
    requires m.Valid()
    requires k in SetAll(m, kvs).vals
    ensures k in SetAll(SetAll(m, kvs), kvs).vals
    ensures SetAll(SetAll(m, kvs), kvs).vals[k] == SetAll(m, kvs).vals[k]
  {
    var r := SetAll(m, kvs);
    if k in KeysOf(kvs) {
      SetAllLastWins(m, kvs, k);
      SetAllLastWins(r, kvs, k);
    } else {
      SetAllKeepsUnmentioned(r, kvs, k);
    }
  }

  /** Every key of `ks` occurs in `xs`, and `ks` lists them in the order of their first occurrence there. */
  ghost predicate InFirstSeenOrder<K(!new)>(ks: seq<K>, xs: seq<K>) {
    && (forall k :: k in ks ==> k in xs)
    && (forall i, j :: 0 <= i < j < |ks| ==> FirstIndex(xs, ks[i]) < FirstIndex(xs, ks[j]))
  }

  /** The elements of `xs` without repetitions, each kept at its first occurrence. */
  function Dedup<K(==,!new)>(xs: seq<K>): (d: seq<K>)
    ensures forall x :: x in d <==> x in xs
    decreases |xs|
  {
    if xs == [] then []
    else
      var n := |xs| - 1;
      assert xs == xs[..n] + [xs[n]];
      var d := Dedup(xs[..n]);
      if xs[n] in xs[..n] then d else d + [xs[n]]
  }

  /** `Dedup` lists the elements in the order of their first occurrence. */
  lemma {:induction false} DedupFirstSeenOrder<K(!new)>(xs: seq<K>)
    ensures InFirstSeenOrder(Dedup(xs), xs)
    decreases |xs|
  {
    if xs != [] {
      var n := |xs| - 1;
      DedupFirstSeenOrder(xs[..n]);
      assert xs == xs[..n] + [xs[n]];
      FirstSeenStep(Dedup(xs[..n]), xs[..n], xs[n]);
    }
  }

  /** Starting from `new Map()`, the key order is the sequence of keys set, without repetitions. */
  lemma {:induction false} SetAllDedup<K(!new), V>(kvs: seq<(K, V)>)
    ensures SetAll(Empty<K, V>(), kvs).keys == Dedup(KeysOf(kvs))
    decreases |kvs|
  {
    if kvs != [] {
      var n := |kvs| - 1;
      SetAllDedup(kvs[..n]);
      SetAllKeys(Empty<K, V>(), kvs[..n]);
      assert KeysOf(kvs)[..n] == KeysOf(kvs[..n]);
    }
  }

  /** Starting from `new Map()`, keys are enumerated in the order of their first `set`. */
  lemma SetAllFirstSeenOrder<K(!new), V>(kvs: seq<(K, V)>)
    ensures InFirstSeenOrder(SetAll(Empty<K, V>(), kvs).keys, KeysOf(kvs))
  {
    SetAllDedup(kvs);
    DedupFirstSeenOrder(KeysOf(kvs));
  }

  lemma FirstSeenStep<K(!new)>(ks: seq<K>, xs: seq<K>, x: K)
    requires InFirstSeenOrder(ks, xs)
    requires forall k :: k in xs ==> k in ks
    ensures x in ks ==> InFirstSeenOrder(ks, xs + [x])
    ensures x !in ks ==> InFirstSeenOrder(ks + [x], xs + [x])
  {
    forall y | y in ks ensures FirstIndex(xs + [x], y) == FirstIndex(xs, y) {
      FirstIndexAppend(xs, x, y);
    }
    if x !in ks {
      FirstIndexOfNew(xs, x);
      var ks' := ks + [x];
      forall i, j | 0 <= i < j < |ks'|
        ensures FirstIndex(xs + [x], ks'[i]) < FirstIndex(xs + [x], ks'[j])
      {
        assert ks'[i] in ks;
        if j < |ks| { assert ks'[j] in ks; }
      }
    }
  }

  lemma {:induction false} FirstIndexAppend<K(!new)>(xs: seq<K>, x: K, y: K)
    requires y in xs
    ensures FirstIndex(xs + [x], y) == FirstIndex(xs, y)
  {
    if xs[0] != y {
      assert (xs + [x])[1..] == xs[1..] + [x];
      FirstIndexAppend(xs[1..], x, y);
    }
  }

  lemma {:induction false} FirstIndexOfNew<K(!new)>(xs: seq<K>, x: K)
    requires x !in xs
    ensures FirstIndex(xs + [x], x) == |xs|
  {
    if xs != [] {
      assert (xs + [x])[1..] == xs[1..] + [x];
      FirstIndexOfNew(xs[1..], x);
    }
  }
}
