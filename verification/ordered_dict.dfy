/**
 * Python's `dict` as the task descriptor uses it: an insertion-ordered association list with
 * unique keys. Assigning to an existing key overwrites its value in place; assigning to a new
 * key appends it; `del` removes the key and fails with KeyError when it is absent.
 */
module OrderedDict {
  import opened Wrappers
  import Lists

  type Dict<K, V> = seq<(K, V)>

  /** The keys in insertion order. */
  function Keys<K(==,!new), V>(d: Dict<K, V>): (ks: seq<K>)
    ensures |ks| == |d|
    ensures forall i :: 0 <= i < |d| ==> ks[i] == d[i].0
  {
    if d == [] then [] else [d[0].0] + Keys(d[1..])
  }

  /** Every key occurs at most once, as in any Python dict. */
  predicate UniqueKeys<K(==,!new), V>(d: Dict<K, V>)
  {
    d == [] || (d[0].0 !in Keys(d[1..]) && UniqueKeys(d[1..]))
  }

  /** `d.get(k)`: the value stored under `k`, if any. */
  function Get<K(==,!new), V>(d: Dict<K, V>, k: K): (r: Option<V>)
    ensures r.None? <==> k !in Keys(d)
  {
    if d == [] then None
    else if d[0].0 == k then Some(d[0].1)
    else Get(d[1..], k)
  }

  /** The dict seen as a mathematical map, forgetting the order of its keys. */
  function ToMap<K(==,!new), V>(d: Dict<K, V>): (m: map<K, V>)
  {
    if d == [] then map[] else ToMap(d[1..])[d[0].0 := d[0].1]
  }

  /** `d[k] = v`: overwrite the value of an existing key in place, or append a new key. */
  function Put<K(==,!new), V>(d: Dict<K, V>, k: K, v: V): (r: Dict<K, V>)
    ensures Get(r, k) == Some(v)
  {
    if d == [] then [(k, v)]
    else if d[0].0 == k then [(k, v)] + d[1..]
    else [d[0]] + Put(d[1..], k, v)
  }

  /** `del d[k]`: `None` when `k` is absent (Python raises KeyError). */
  function Remove<K(==,!new), V>(d: Dict<K, V>, k: K): (r: Option<Dict<K, V>>)
    ensures r.None? <==> k !in Keys(d)
  {
    if d == [] then None
    else if d[0].0 == k then Some(d[1..])
    else match Remove(d[1..], k)
      case None => None
      case Some(t) => Some([d[0]] + t)
  }

  /** A lookup agrees with the map view. */
  lemma {:induction false} GetIsToMap<K(!new), V>(d: Dict<K, V>, k: K)
    ensures Get(d, k) == if k in ToMap(d) then Some(ToMap(d)[k]) else None
  {
    if d != [] && d[0].0 != k {
      GetIsToMap(d[1..], k);
    }
  }

  /** The map view has exactly the dict's keys. */
  lemma {:induction false} ToMapKeys<K(!new), V>(d: Dict<K, V>, k: K)
    ensures k in ToMap(d) <==> k in Keys(d)
  {
    if d != [] {
      ToMapKeys(d[1..], k);
      assert Keys(d) == [d[0].0] + Keys(d[1..]);
    }
  }

  /** Last write wins: after `d[k] = v` the map view is the old one with `k` bound to `v`. */
  lemma {:induction false} PutToMap<K(!new), V>(d: Dict<K, V>, k: K, v: V)
    ensures ToMap(Put(d, k, v)) == ToMap(d)[k := v]
  {
    if d == [] {
    } else if d[0].0 == k {
      var m := ToMap(d[1..]);
      assert ([(k, v)] + d[1..])[1..] == d[1..];
      assert ToMap(Put(d, k, v)) == m[k := v];
      UpdateTwice(m, k, d[0].1, v);
    } else {
      var t := Put(d[1..], k, v);
      assert ([d[0]] + t)[1..] == t;
      PutToMap(d[1..], k, v);
      var m := ToMap(d[1..]);
      assert ToMap(Put(d, k, v)) == m[k := v][d[0].0 := d[0].1];
      UpdateCommute(m, k, v, d[0].0, d[0].1);
    }
  }

  lemma UpdateTwice<K, V>(m: map<K, V>, k: K, x: V, y: V)
    ensures m[k := x][k := y] == m[k := y]
  {
  }

  lemma UpdateCommute<K, V>(m: map<K, V>, a: K, x: V, b: K, y: V)
    requires a != b
    ensures m[a := x][b := y] == m[b := y][a := x]
  {
  }

  /** Assigning `k` changes the lookup of `k` only. */
  lemma PutGet<K(!new), V>(d: Dict<K, V>, k: K, v: V, j: K)
    ensures Get(Put(d, k, v), j) == if j == k then Some(v) else Get(d, j)
  {
    PutToMap(d, k, v);
    GetIsToMap(d, j);
    GetIsToMap(Put(d, k, v), j);
  }

  /** Overwriting keeps the key order; a new key goes to the end. */
  lemma {:induction false} PutKeyOrder<K(!new), V>(d: Dict<K, V>, k: K, v: V)
    ensures Keys(Put(d, k, v)) == if k in Keys(d) then Keys(d) else Keys(d) + [k]
  {
    if d == [] {
    } else if d[0].0 == k {
      assert Keys(Put(d, k, v)) == [k] + Keys(d[1..]);
    } else {
      var t := Put(d[1..], k, v);
      PutKeyOrder(d[1..], k, v);
      assert ([d[0]] + t)[1..] == t;
      assert Keys(Put(d, k, v)) == [d[0].0] + Keys(t);
      assert Keys(d) == [d[0].0] + Keys(d[1..]);
    }
  }

  /** Assignment keeps keys unique. */
  lemma {:induction false} PutUnique<K(!new), V>(d: Dict<K, V>, k: K, v: V)
    requires UniqueKeys(d)
    ensures UniqueKeys(Put(d, k, v))
  {
    if d == [] {
    } else if d[0].0 == k {
      assert Put(d, k, v)[1..] == d[1..];
    } else {
      PutUnique(d[1..], k, v);
      PutKeyOrder(d[1..], k, v);
      assert Put(d, k, v)[1..] == Put(d[1..], k, v);
    }
  }

  /** `del d[k]` removes the key the way `list.remove` removes it from the key sequence. */
  lemma {:induction false} RemoveKeyOrder<K(!new), V>(d: Dict<K, V>, k: K)
    ensures Lists.RemoveFirst(Keys(d), k) ==
              if Remove(d, k).Some? then Some(Keys(Remove(d, k).value)) else None
  {
    if d != [] {
      assert Keys(d) == [d[0].0] + Keys(d[1..]);
      assert Keys(d)[1..] == Keys(d[1..]);
      if d[0].0 != k {
        RemoveKeyOrder(d[1..], k);
        match Remove(d[1..], k)
        case None =>
        case Some(t) =>
          assert Keys([d[0]] + t) == [d[0].0] + Keys(t);
      }
    }
  }

  /** `del d[k]` on a present key: the map view loses `k` and nothing else. */
  lemma {:induction false} RemoveToMap<K(!new), V>(d: Dict<K, V>, k: K)
    requires UniqueKeys(d)
    requires k in Keys(d)
    ensures Remove(d, k).Some?
    ensures ToMap(Remove(d, k).value) == ToMap(d) - {k}
  {
    assert Keys(d) == [d[0].0] + Keys(d[1..]);
    if d[0].0 == k {
      ToMapKeys(d[1..], k);
      assert ToMap(d) - {k} == ToMap(d[1..]);
    } else {
      RemoveToMap(d[1..], k);
      var t := Remove(d[1..], k).value;
      assert ([d[0]] + t)[1..] == t;
      assert ToMap(Remove(d, k).value) == ToMap(t)[d[0].0 := d[0].1];
    }
  }

  /** `del d[k]` introduces no key. */
  lemma {:induction false} RemoveNoNewKey<K(!new), V>(d: Dict<K, V>, k: K, j: K)
    requires Remove(d, k).Some?
    requires j !in Keys(d)
    ensures j !in Keys(Remove(d, k).value)
  {
    assert Keys(d) == [d[0].0] + Keys(d[1..]);
    if d[0].0 != k {
      RemoveNoNewKey(d[1..], k, j);
      var t := Remove(d[1..], k).value;
      assert Keys([d[0]] + t) == [d[0].0] + Keys(t);
    }
  }

  /** `del d[k]` keeps keys unique. */
  lemma {:induction false} RemoveUnique<K(!new), V>(d: Dict<K, V>, k: K)
    requires UniqueKeys(d)
    requires k in Keys(d)
    ensures Remove(d, k).Some? && UniqueKeys(Remove(d, k).value)
  {
    assert Keys(d) == [d[0].0] + Keys(d[1..]);
    if d[0].0 != k {
      RemoveUnique(d[1..], k);
      RemoveNoNewKey(d[1..], k, d[0].0);
      var t := Remove(d[1..], k).value;
      assert ([d[0]] + t)[1..] == t;
    }
  }

  /** Last write wins, position included: assigning `k` twice is the same as assigning it once. */
  lemma {:induction false} PutTwice<K(!new), V>(d: Dict<K, V>, k: K, v: V, w: V)
    ensures Put(Put(d, k, v), k, w) == Put(d, k, w)
  {
    if d == [] {
      assert Put([(k, v)], k, w) == [(k, w)] + [(k, v)][1..];
    } else if d[0].0 == k {
      assert ([(k, v)] + d[1..])[1..] == d[1..];
    } else {
      var t := Put(d[1..], k, v);
      assert ([d[0]] + t)[1..] == t;
      PutTwice(d[1..], k, v, w);
    }
  }

  /** `d[k] = v` followed by `del d[k]` gives back `d` when `k` was new. */
  lemma {:induction false} PutThenRemove<K(!new), V>(d: Dict<K, V>, k: K, v: V)
    requires k !in Keys(d)
    ensures Remove(Put(d, k, v), k) == Some(d)
  {
    if d != [] {
      assert Keys(d) == [d[0].0] + Keys(d[1..]);
      var t := Put(d[1..], k, v);
      assert ([d[0]] + t)[1..] == t;
      PutThenRemove(d[1..], k, v);
      assert [d[0]] + d[1..] == d;
    }
  }

  /** A dict is empty exactly when no key has a value. */
  lemma EmptyIffNoKey<K(!new), V>(d: Dict<K, V>)
    ensures d == [] <==> forall k :: Get(d, k).None?
  {
    if d != [] {
      assert Get(d, d[0].0).Some?;
    }
  }
}
