/**
 * Python's built-in `dict` as a value: a map together with the order in which
 * its keys were first inserted (iteration over a dict follows that order).
 */
module Dicts {

  /** `keys` lists every key once, in first-insertion order; `m` holds the values. */
  datatype Dict<K(==, !new), V> = Dict(keys: seq<K>, m: map<K, V>) {

    /** Keys are distinct and are exactly the domain of `m`. */
    ghost predicate Valid() {
      Distinct(keys) && (forall k :: k in m <==> k in keys)
    }

    /** `d[k] = v`: a new key goes to the end, an existing one keeps its place. */
    function Put(k: K, v: V): (r: Dict<K, V>)
      ensures Valid() ==> r.Valid()
      ensures r.m == m[k := v]
      ensures Valid() ==> r.keys == if k in keys then keys else keys + [k]
    {
      if k in m then Dict(keys, m[k := v]) else Dict(keys + [k], m[k := v])
    }

    /** `d.pop(k)` without the returned value: the other keys keep their order. */
    function Remove(k: K): (r: Dict<K, V>)
      ensures Valid() ==> r.Valid()
      ensures r.m == m - {k}
      ensures r.keys == Drop(keys, {k})
    {
      DropMembers(keys, {k});
      DropDistinct(keys, {k});
      Dict(Drop(keys, {k}), m - {k})
    }
  }

  /** `{}` */
  function Empty<K(==, !new), V>(): (r: Dict<K, V>)
    ensures r.Valid() && r.keys == [] && r.m == map[]
  {
    Dict([], map[])
  }

  predicate Distinct<T(==)>(s: seq<T>) {
    forall i, j :: 0 <= i < j < |s| ==> s[i] != s[j]
  }

  /** The elements of `s` that are not in `out`, in their order. */
  function Drop<T(==)>(s: seq<T>, out: set<T>): seq<T> {
    if s == [] then []
    else if s[|s| - 1] in out then Drop(s[..|s| - 1], out)
    else Drop(s[..|s| - 1], out) + [s[|s| - 1]]
  }

  lemma {:induction false} DropMembers<T>(s: seq<T>, out: set<T>)
    ensures forall x :: x in Drop(s, out) <==> x in s && x !in out
  {
    if s != [] {
      DropMembers(s[..|s| - 1], out);
      assert s == s[..|s| - 1] + [s[|s| - 1]];
    }
  }

  lemma {:induction false} DropDistinct<T>(s: seq<T>, out: set<T>)
    ensures Distinct(s) ==> Distinct(Drop(s, out))
  {
    if s != [] {
      DropDistinct(s[..|s| - 1], out);
      DropMembers(s[..|s| - 1], out);
    }
  }

  /** Dropping one set and then another drops their union. */
  lemma {:induction false} DropDrop<T>(s: seq<T>, a: set<T>, b: set<T>)
    ensures Drop(Drop(s, a), b) == Drop(s, a + b)
  {
    if s != [] {
      DropDrop(s[..|s| - 1], a, b);
      var x := s[|s| - 1];
      if x !in a {
        var d := Drop(s[..|s| - 1], a);
        assert (d + [x])[..|d + [x]| - 1] == d;
      }
    }
  }

  /** Removing nothing that is present changes nothing. */
  lemma {:induction false} DropNone<T>(s: seq<T>, out: set<T>)
    requires forall x :: x in s ==> x !in out
    ensures Drop(s, out) == s
  {
    if s != [] {
      DropNone(s[..|s| - 1], out);
      assert s == s[..|s| - 1] + [s[|s| - 1]];
    }
  }

  /** Successive assignments `d[k] = v` for each pair, in order. */
  function PutAll<K(==, !new), V>(d: Dict<K, V>, kvs: seq<(K, V)>): Dict<K, V> {
    if kvs == [] then d
    else PutAll(d, kvs[..|kvs| - 1]).Put(kvs[|kvs| - 1].0, kvs[|kvs| - 1].1)
  }

  lemma PutAllSnoc<K(!new), V>(d: Dict<K, V>, kvs: seq<(K, V)>, kv: (K, V))
    ensures PutAll(d, kvs + [kv]) == PutAll(d, kvs).Put(kv.0, kv.1)
  {
    assert (kvs + [kv])[..|kvs|] == kvs;
  }

  /**
   * After the assignments, the dict holds the old keys and the assigned ones;
   * a key that was assigned holds the value of its LAST assignment, and every
   * other key keeps its old value.
   */
  lemma {:induction false} PutAllValues<K(!new), V>(d: Dict<K, V>, kvs: seq<(K, V)>)
    requires d.Valid()
    ensures PutAll(d, kvs).Valid()
    ensures forall k :: k in PutAll(d, kvs).m <==> k in d.m || exists i :: 0 <= i < |kvs| && kvs[i].0 == k
    ensures forall k :: k in d.m && (forall i :: 0 <= i < |kvs| ==> kvs[i].0 != k) ==>
      PutAll(d, kvs).m[k] == d.m[k]
    ensures forall i :: 0 <= i < |kvs| && (forall j :: i < j < |kvs| ==> kvs[j].0 != kvs[i].0) ==>
      PutAll(d, kvs).m[kvs[i].0] == kvs[i].1
  {
    PutAllKeys(d, kvs);
    PutAllUntouched(d, kvs);
    PutAllLastWins(d, kvs);
  }

  lemma {:induction false} PutAllKeys<K(!new), V>(d: Dict<K, V>, kvs: seq<(K, V)>)
    requires d.Valid()
    ensures PutAll(d, kvs).Valid()
    ensures forall k :: k in PutAll(d, kvs).m <==> k in d.m || exists i :: 0 <= i < |kvs| && kvs[i].0 == k
  {
    if kvs != [] {
      var init := kvs[..|kvs| - 1];
      PutAllKeys(d, init);
      var last := kvs[|kvs| - 1];
      forall k | k in PutAll(d, kvs).m
        ensures k in d.m || exists i :: 0 <= i < |kvs| && kvs[i].0 == k
      {
        if k != last.0 && k !in d.m {
          var i :| 0 <= i < |init| && init[i].0 == k;
          assert kvs[i].0 == k;
        }
      }
      forall k | (exists i :: 0 <= i < |kvs| && kvs[i].0 == k)
        ensures k in PutAll(d, kvs).m
      {
        var i :| 0 <= i < |kvs| && kvs[i].0 == k;
        if i < |init| { assert init[i].0 == k; }
      }
    }
  }

  lemma {:induction false} PutAllUntouched<K(!new), V>(d: Dict<K, V>, kvs: seq<(K, V)>)
    ensures forall k :: k in d.m && (forall i :: 0 <= i < |kvs| ==> kvs[i].0 != k) ==>
      k in PutAll(d, kvs).m && PutAll(d, kvs).m[k] == d.m[k]
  {
    if kvs != [] {
      var init := kvs[..|kvs| - 1];
      PutAllUntouched(d, init);
      forall k | k in d.m && (forall i :: 0 <= i < |kvs| ==> kvs[i].0 != k)
        ensures k in PutAll(d, kvs).m && PutAll(d, kvs).m[k] == d.m[k]
      {
        assert forall i :: 0 <= i < |init| ==> init[i].0 == kvs[i].0;
      }
    }
  }

  lemma {:induction false} PutAllLastWins<K(!new), V>(d: Dict<K, V>, kvs: seq<(K, V)>)
    ensures forall i :: 0 <= i < |kvs| && (forall j :: i < j < |kvs| ==> kvs[j].0 != kvs[i].0) ==>
      kvs[i].0 in PutAll(d, kvs).m && PutAll(d, kvs).m[kvs[i].0] == kvs[i].1
  {
    if kvs != [] {
      var init := kvs[..|kvs| - 1];
      PutAllLastWins(d, init);
      forall i | 0 <= i < |kvs| && (forall j :: i < j < |kvs| ==> kvs[j].0 != kvs[i].0)
        ensures kvs[i].0 in PutAll(d, kvs).m && PutAll(d, kvs).m[kvs[i].0] == kvs[i].1
      {
        if i < |init| {
          assert forall j :: i < j < |init| ==> init[j].0 == kvs[j].0;
        }
      }
    }
  }

  /** Assigning distinct new keys appends them in the order of assignment. */
  lemma {:induction false} PutAllFreshKeys<K(!new), V>(d: Dict<K, V>, kvs: seq<(K, V)>)
    requires d.Valid()
    requires forall i, j :: 0 <= i < j < |kvs| ==> kvs[i].0 != kvs[j].0
    requires forall i :: 0 <= i < |kvs| ==> kvs[i].0 !in d.m
    ensures PutAll(d, kvs).keys == d.keys + KeysOf(kvs)
  {
    if kvs != [] {
      var init := kvs[..|kvs| - 1];
      PutAllFreshKeys(d, init);
      PutAllValues(d, init);
      var last := kvs[|kvs| - 1].0;
      assert last !in PutAll(d, init).m;
    }
  }

  /** The keys of the pairs, in order. */
  function KeysOf<K, V>(kvs: seq<(K, V)>): (r: seq<K>)
    ensures |r| == |kvs| && forall i :: 0 <= i < |kvs| ==> r[i] == kvs[i].0
  {
    if kvs == [] then [] else KeysOf(kvs[..|kvs| - 1]) + [kvs[|kvs| - 1].0]
  }

  /** The last position of a pair with key `k`. */
  ghost function LastWith<K, V>(kvs: seq<(K, V)>, k: K): (i: nat)
    requires exists j :: 0 <= j < |kvs| && kvs[j].0 == k
    ensures i < |kvs| && kvs[i].0 == k
    ensures forall j :: i < j < |kvs| ==> kvs[j].0 != k
  {
    if kvs[|kvs| - 1].0 == k then |kvs| - 1
    else
      var init := kvs[..|kvs| - 1];
      assert exists j :: 0 <= j < |init| && init[j].0 == k by {
        var j :| 0 <= j < |kvs| && kvs[j].0 == k;
        assert init[j] == kvs[j];
      }
      LastWith(init, k)
  }
}
