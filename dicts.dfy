/** Python dictionaries: the keys in insertion order (the order in which
    iteration visits them) and the value of each. Assigning to a present key
    replaces its value and keeps its place; a new key goes last. */
module Dicts {
  import opened Wrappers

  datatype Dict<K, V> = Dict(keys: seq<K>, values: map<K, V>)

  predicate Distinct<T(==)>(s: seq<T>)
  {
    forall i, j :: 0 <= i < j < |s| ==> s[i] != s[j]
  }

  /** Every key listed once, and the listed keys are exactly those with a value. */
  ghost predicate Valid<K(!new), V>(d: Dict<K, V>)
  {
    Distinct(d.keys) && forall k :: k in d.keys <==> k in d.values
  }

  /** Every listed key has a value (what iterating over d.items() needs). */
  ghost predicate KeysPresent<K, V>(d: Dict<K, V>)
  {
    forall i :: 0 <= i < |d.keys| ==> d.keys[i] in d.values
  }

  lemma ValidKeysPresent<K(!new), V>(d: Dict<K, V>)
    requires Valid(d)
    ensures KeysPresent(d)
  {
    forall i | 0 <= i < |d.keys| ensures d.keys[i] in d.values {
      assert d.keys[i] in d.keys;
    }
  }

  /** {} */
  function Empty<K(!new), V>(): (d: Dict<K, V>)
    ensures Valid(d) && |d.keys| == 0
  {
    Dict([], map[])
  }

  /** d.get(k) */
  function Get<K(==), V>(d: Dict<K, V>, k: K): Option<V>
  {
    if k in d.values then Some(d.values[k]) else None
  }

  /** d.get(k, 0) on an integer-valued dictionary. */
  function GetOrZero<K(==)>(d: Dict<K, int>, k: K): int
  {
    if k in d.values then d.values[k] else 0
  }

  /** d[k] = v */
  function Put<K(==, !new), V>(d: Dict<K, V>, k: K, v: V): (r: Dict<K, V>)
    ensures Get(r, k) == Some(v)
    ensures forall k' :: k' != k ==> Get(r, k') == Get(d, k')
    ensures Valid(d) ==> Valid(r)
    ensures Valid(d) && k in d.keys ==> r.keys == d.keys
    ensures Valid(d) && k !in d.keys ==> r.keys == d.keys + [k]
  {
    Dict(if k in d.values then d.keys else d.keys + [k], d.values[k := v])
  }

  /** d[k] = d.get(k, 0) + v, which is also what `if k not in d: d[k] = 0`
      followed by `d[k] += v` and Counter.update do for one key. */
  function AddTo<K(==, !new)>(d: Dict<K, int>, k: K, v: int): (r: Dict<K, int>)
    ensures GetOrZero(r, k) == GetOrZero(d, k) + v
    ensures forall k' :: k' != k ==> Get(r, k') == Get(d, k')
    ensures Valid(d) ==> Valid(r)
    ensures Valid(d) && k in d.keys ==> r.keys == d.keys
    ensures Valid(d) && k !in d.keys ==> r.keys == d.keys + [k]
  {
    Put(d, k, GetOrZero(d, k) + v)
  }

  /** `if k not in d: d[k] = 0` followed by `d[k] += v` is AddTo. */
  lemma InitThenAdd<K(!new)>(d: Dict<K, int>, k: K, v: int)
    ensures var d1 := if k in d.values then d else Put(d, k, 0);
            Put(d1, k, d1.values[k] + v) == AddTo(d, k, v)
  {
  }

  /** The first n entries of d, in d's order. */
  function Take<K(!new), V>(d: Dict<K, V>, n: nat): (t: Dict<K, V>)
    requires Valid(d) && n <= |d.keys|
    ensures Valid(t) && t.keys == d.keys[..n]
    ensures forall k :: k in t.values ==> t.values[k] == d.values[k]
  {
    if n == 0 then Empty()
    else
      var k := d.keys[n - 1];
      assert d.keys[..n] == d.keys[..n - 1] + [k];
      assert k !in d.keys[..n - 1];
      Put(Take(d, n - 1), k, d.values[k])
  }

  /** Taking one more entry of an integer dictionary adds its value under
      its key, which is new. */
  lemma TakeSnoc<K(!new)>(d: Dict<K, int>, n: nat)
    requires Valid(d) && 0 < n <= |d.keys|
    ensures Take(d, n) == AddTo(Take(d, n - 1), d.keys[n - 1], GetOrZero(d, d.keys[n - 1]))
  {
    assert d.keys[n - 1] !in Take(d, n - 1).values;
  }

  /** Two valid dictionaries listing the same keys, where the first agrees
      with the second on every key it holds, are the same dictionary. */
  lemma SameEntries<K(!new), V>(t: Dict<K, V>, d: Dict<K, V>)
    requires Valid(t) && Valid(d) && t.keys == d.keys
    requires forall k :: k in t.values ==> t.values[k] == d.values[k]
    ensures t == d
  {
    assert t.values.Keys == d.values.Keys;
  }

  /** Taking every entry gives d back. */
  lemma TakeAll<K(!new), V>(d: Dict<K, V>)
    requires Valid(d)
    ensures Take(d, |d.keys|) == d
  {
    assert d.keys[..|d.keys|] == d.keys;
    SameEntries(Take(d, |d.keys|), d);
  }

  function ValueOrZero<K>(m: map<K, int>, k: K): int
  {
    if k in m then m[k] else 0
  }

  /** The sum of m's values over the keys ks, a missing key counting 0. */
  function SumOver<K>(ks: seq<K>, m: map<K, int>): int
  {
    if |ks| == 0 then 0 else SumOver(ks[..|ks| - 1], m) + ValueOrZero(m, ks[|ks| - 1])
  }

  /** sum(d.values()) */
  function Total<K>(d: Dict<K, int>): int
  {
    SumOver(d.keys, d.values)
  }

  lemma {:induction false} SumOverAppend<K>(ks: seq<K>, ks': seq<K>, m: map<K, int>)
    ensures SumOver(ks + ks', m) == SumOver(ks, m) + SumOver(ks', m)
  {
    if |ks'| == 0 {
      assert ks + ks' == ks;
    } else {
      assert (ks + ks')[..|ks + ks'| - 1] == ks + ks'[..|ks'| - 1];
      SumOverAppend(ks, ks'[..|ks'| - 1], m);
    }
  }

  /** Summing over one more key of ks adds that key's value. */
  lemma SumOverSnoc<K>(ks: seq<K>, n: nat, m: map<K, int>)
    requires 0 < n <= |ks|
    ensures SumOver(ks[..n], m) == SumOver(ks[..n - 1], m) + ValueOrZero(m, ks[n - 1])
  {
    assert ks[..n][..n - 1] == ks[..n - 1];
  }

  /** Changing the value of a key that is not summed over changes nothing. */
  lemma {:induction false} SumOverFrame<K>(ks: seq<K>, m: map<K, int>, k: K, v: int)
    requires k !in ks
    ensures SumOver(ks, m[k := v]) == SumOver(ks, m)
  {
    if |ks| > 0 {
      assert ks[|ks| - 1] in ks;
      SumOverFrame(ks[..|ks| - 1], m, k, v);
    }
  }

  /** Changing the value of a key summed over once shifts the sum by the change. */
  lemma {:induction false} SumOverUpdate<K>(ks: seq<K>, m: map<K, int>, k: K, v: int)
    requires Distinct(ks) && k in ks
    ensures SumOver(ks, m[k := v]) == SumOver(ks, m) - ValueOrZero(m, k) + v
  {
    var init := ks[..|ks| - 1];
    assert Distinct(init);
    if ks[|ks| - 1] == k {
      assert k !in init;
      SumOverFrame(init, m, k, v);
    } else {
      assert k in init by {
        var i :| 0 <= i < |ks| && ks[i] == k;
        assert init[i] == k;
      }
      SumOverUpdate(init, m, k, v);
    }
  }

  /** Adding v to one key's value adds v to sum(d.values()). */
  lemma TotalAddTo<K(!new)>(d: Dict<K, int>, k: K, v: int)
    requires Valid(d)
    ensures Total(AddTo(d, k, v)) == Total(d) + v
  {
    var r := AddTo(d, k, v);
    if k in d.keys {
      SumOverUpdate(d.keys, d.values, k, GetOrZero(d, k) + v);
    } else {
      assert r.keys[..|r.keys| - 1] == d.keys;
      SumOverFrame(d.keys, d.values, k, v);
    }
  }

  function RealOrZero<K>(m: map<K, real>, k: K): real
  {
    if k in m then m[k] else 0.0
  }

  /** The sum of m's values over the keys ks, a missing key counting 0. */
  function RealSumOver<K>(ks: seq<K>, m: map<K, real>): real
  {
    if |ks| == 0 then 0.0 else RealSumOver(ks[..|ks| - 1], m) + RealOrZero(m, ks[|ks| - 1])
  }

  lemma {:induction false} RealSumOverAppend<K>(ks: seq<K>, ks': seq<K>, m: map<K, real>)
    ensures RealSumOver(ks + ks', m) == RealSumOver(ks, m) + RealSumOver(ks', m)
  {
    if |ks'| == 0 {
      assert ks + ks' == ks;
    } else {
      assert (ks + ks')[..|ks + ks'| - 1] == ks + ks'[..|ks'| - 1];
      RealSumOverAppend(ks, ks'[..|ks'| - 1], m);
    }
  }

  /** Taking one key out of the sum takes its value out. */
  lemma RealSumOverRemove<K>(ks: seq<K>, i: nat, m: map<K, real>)
    requires i < |ks|
    ensures RealSumOver(ks, m) == RealSumOver(ks[..i] + ks[i + 1..], m) + RealOrZero(m, ks[i])
  {
    assert ks == ks[..i] + ([ks[i]] + ks[i + 1..]);
    RealSumOverAppend(ks[..i], [ks[i]] + ks[i + 1..], m);
    RealSumOverAppend([ks[i]], ks[i + 1..], m);
    RealSumOverAppend(ks[..i], ks[i + 1..], m);
    assert [ks[i]][..0] == [];
  }

  lemma RemoveMultiset<K>(ks: seq<K>, i: nat)
    requires i < |ks|
    ensures multiset(ks[..i] + ks[i + 1..]) == multiset(ks) - multiset{ks[i]}
  {
    assert ks == ks[..i] + [ks[i]] + ks[i + 1..];
  }

  /** The sum does not depend on the order of the keys. */
  lemma {:induction false} RealSumOverPermutation<K>(ks: seq<K>, ks': seq<K>, m: map<K, real>)
    requires multiset(ks) == multiset(ks')
    ensures RealSumOver(ks, m) == RealSumOver(ks', m)
  {
    if |ks'| == 0 {
      assert |ks| == |multiset(ks)| == 0;
    } else {
      var x := ks'[|ks'| - 1];
      var init := ks'[..|ks'| - 1];
      assert ks' == init + [x];
      assert x in multiset(ks);
      var i :| 0 <= i < |ks| && ks[i] == x;
      var rest := ks[..i] + ks[i + 1..];
      RemoveMultiset(ks, i);
      RemoveMultiset(ks', |ks'| - 1);
      assert ks'[..|ks'| - 1] + ks'[|ks'|..] == init;
      RealSumOverPermutation(rest, init, m);
      RealSumOverRemove(ks, i, m);
    }
  }
}
