/** A JavaScript `Map` (or a plain object used as a record of entries):
    a finite map that remembers the order in which keys were first
    inserted. `set` on a present key replaces its value in place,
    `set` on a new key appends it, `delete` removes it and keeps the
    order of the others, and iteration (`keys()`, `values()`,
    `Array.from`, `Object.values`) follows insertion order. */
module OrderedMaps {
  import opened Common

  datatype OrderedMap<K(==,!new), V> = OrderedMap(keys: seq<K>, entries: map<K, V>)

  /** No key occurs twice: the first is not among the rest, and so on. */
  ghost predicate Distinct<K>(s: seq<K>) {
    s == [] || (s[0] !in s[1..] && Distinct(s[1..]))
  }

  /** Distinct keys sit at distinct positions. */
  lemma {:induction false} DistinctAt<K>(s: seq<K>, i: nat, j: nat)
    requires Distinct(s) && i < |s| && j < |s| && i != j
    ensures s[i] != s[j]
  {
    if i > 0 && j > 0 {
      DistinctAt(s[1..], i - 1, j - 1);
    } else if i == 0 {
      assert s[j] == s[1..][j - 1];
    } else {
      assert s[i] == s[1..][i - 1];
    }
  }

  /** A key of a distinct sequence does not occur before its position. */
  lemma DistinctNotBefore<K>(s: seq<K>, i: nat)
    requires Distinct(s) && i < |s|
    ensures s[i] !in s[..i]
  {
    if s[i] in s[..i] {
      var k :| 0 <= k < i && s[..i][k] == s[i];
      DistinctAt(s, k, i);
    }
  }

  /** Appending a key that is not yet there keeps the keys distinct. */
  lemma {:induction false} DistinctAppend<K>(s: seq<K>, k: K)
    requires Distinct(s) && k !in s
    ensures Distinct(s + [k])
  {
    if s != [] {
      assert (s + [k])[1..] == s[1..] + [k];
      DistinctAppend(s[1..], k);
    }
  }

  ghost predicate WellFormed<K(!new), V>(m: OrderedMap<K, V>) {
    && Distinct(m.keys)
    && (forall k :: k in m.entries <==> k in m.keys)
  }

  type OMap<K(==,!new), V> = m: OrderedMap<K, V> | WellFormed(m) witness OrderedMap([], map[])

  function Empty<K(==,!new), V>(): (r: OMap<K, V>)
    ensures r.keys == [] && r.entries == map[]
  {
    OrderedMap([], map[])
  }

  /** `m.size` */
  function Size<K(==,!new), V>(m: OMap<K, V>): nat {
    |m.keys|
  }

  predicate Has<K(==,!new), V>(m: OMap<K, V>, k: K) {
    k in m.entries
  }

  /** `m.get(k)`, with `undefined` as `None`. */
  function Get<K(==,!new), V>(m: OMap<K, V>, k: K): (r: Option<V>)
    ensures r.Some? <==> k in m.keys
    ensures r.Some? ==> r.value == m.entries[k]
  {
    if k in m.entries then Some(m.entries[k]) else None
  }

  /** `s` without the occurrences of `k`, in order. */
  function Without<K(==,!new)>(s: seq<K>, k: K): (r: seq<K>)
    ensures forall x :: x in r <==> x in s && x != k
    ensures |r| <= |s|
  {
    if s == [] then []
    else if s[0] == k then Without(s[1..], k)
    else [s[0]] + Without(s[1..], k)
  }

  /** `s` without the members of `ks`, in order. */
  function WithoutAll<K(==,!new)>(s: seq<K>, ks: set<K>): (r: seq<K>)
    ensures forall x :: x in r <==> x in s && x !in ks
  {
    if s == [] then []
    else if s[0] in ks then WithoutAll(s[1..], ks)
    else [s[0]] + WithoutAll(s[1..], ks)
  }

  lemma {:induction false} WithoutDistinct<K(!new)>(s: seq<K>, k: K)
    requires Distinct(s)
    ensures Distinct(Without(s, k))
    ensures k in s ==> |Without(s, k)| == |s| - 1
    ensures k !in s ==> Without(s, k) == s
  {
    if s != [] {
      WithoutDistinct(s[1..], k);
      if s[0] != k {
        var t := Without(s[1..], k);
        assert s[0] !in t;
        assert ([s[0]] + t)[1..] == t;
      } else {
        assert k !in s[1..];
      }
    }
  }

  lemma {:induction false} WithoutAllDistinct<K(!new)>(s: seq<K>, ks: set<K>)
    requires Distinct(s)
    ensures Distinct(WithoutAll(s, ks))
  {
    if s != [] {
      WithoutAllDistinct(s[1..], ks);
      if s[0] !in ks {
        var t := WithoutAll(s[1..], ks);
        assert s[0] !in t;
        assert ([s[0]] + t)[1..] == t;
      }
    }
  }

  /** Removing one more key from the keys already removed. */
  lemma {:induction false} WithoutAllStep<K(!new)>(s: seq<K>, ks: set<K>, k: K)
    ensures Without(WithoutAll(s, ks), k) == WithoutAll(s, ks + {k})
  {
    if s != [] {
      WithoutAllStep(s[1..], ks, k);
    }
  }

  /** `m.set(k, v)`: the value is replaced in place when `k` is present,
      otherwise `k` is appended to the iteration order. */
  function Set<K(==,!new), V>(m: OMap<K, V>, k: K, v: V): (r: OMap<K, V>)
    ensures r.entries == m.entries[k := v]
    ensures k in m.keys ==> r.keys == m.keys
    ensures k !in m.keys ==> r.keys == m.keys + [k]
  {
    if k in m.entries then OrderedMap(m.keys, m.entries[k := v])
    else
      DistinctAppend(m.keys, k);
      OrderedMap(m.keys + [k], m.entries[k := v])
  }

  /** `m.delete(k)`: the other keys keep their order. */
  function Delete<K(==,!new), V>(m: OMap<K, V>, k: K): (r: OMap<K, V>)
    ensures r.entries == m.entries - {k}
    ensures r.keys == Without(m.keys, k)
    ensures k in m.keys ==> Size(r) == Size(m) - 1
    ensures k !in m.keys ==> r == m
  {
    WithoutDistinct(m.keys, k);
    OrderedMap(Without(m.keys, k), m.entries - {k})
  }

  /** Deletes every key of `ks`, one after another. */
  function DeleteAll<K(==,!new), V>(m: OMap<K, V>, ks: set<K>): (r: OMap<K, V>)
    ensures r.entries == m.entries - ks
    ensures r.keys == WithoutAll(m.keys, ks)
  {
    WithoutAllDistinct(m.keys, ks);
    OrderedMap(WithoutAll(m.keys, ks), m.entries - ks)
  }

  lemma {:induction false} WithoutAllNone<K(!new)>(s: seq<K>, ks: set<K>)
    requires forall x :: x in s ==> x !in ks
    ensures WithoutAll(s, ks) == s
  {
    if s != [] {
      WithoutAllNone(s[1..], ks);
    }
  }

  /** Deleting no key leaves the map as it was. */
  lemma DeleteAllNone<K(!new), V>(m: OMap<K, V>)
    ensures DeleteAll(m, {}) == m
  {
    WithoutAllNone(m.keys, {});
  }

  lemma DeleteAllStep<K(!new), V>(m: OMap<K, V>, ks: set<K>, k: K)
    ensures Delete(DeleteAll(m, ks), k) == DeleteAll(m, ks + {k})
  {
    WithoutAllStep(m.keys, ks, k);
  }

  /** `Array.from(m.values())`: the values in insertion order. */
  function Values<K(==,!new), V>(m: OMap<K, V>): (r: seq<V>)
    ensures |r| == |m.keys|
    ensures forall i :: 0 <= i < |m.keys| ==> r[i] == m.entries[m.keys[i]]
  {
    seq(|m.keys|, i requires 0 <= i < |m.keys| => m.entries[m.keys[i]])
  }

  /** The position of a present key in the iteration order. */
  ghost function IndexOf<K(!new), V>(m: OMap<K, V>, k: K): (i: nat)
    requires k in m.keys
    ensures i < |m.keys| && m.keys[i] == k
  {
    var i :| 0 <= i < |m.keys| && m.keys[i] == k;
    i
  }

  /** Replacing a present key's value replaces exactly that position of `values()`. */
  lemma ValuesSetPresent<K(!new), V>(m: OMap<K, V>, k: K, v: V)
    requires k in m.keys
    ensures Values(Set(m, k, v)) == Values(m)[IndexOf(m, k) := v]
  {
    var i := IndexOf(m, k);
    forall j | 0 <= j < |m.keys|
      ensures Values(Set(m, k, v))[j] == Values(m)[i := v][j]
    {
      if j != i {
        DistinctAt(m.keys, i, j);
      }
    }
  }

  /** Setting a new key appends its value to `values()`. */
  lemma ValuesSetAbsent<K(!new), V>(m: OMap<K, V>, k: K, v: V)
    requires k !in m.keys
    ensures Values(Set(m, k, v)) == Values(m) + [v]
  {
  }
}
