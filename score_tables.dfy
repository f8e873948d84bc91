/**
 * The patch-score tables: nested dicts `image_id -> patch_path -> score or
 * None`, filled in place from flattened batches.
 */
module ScoreTables {
  import opened Wrappers
  import opened Dicts

  /** `image_id -> patch_path -> score or None` */
  type Table<V> = Dict<string, Dict<string, Option<V>>>

  /** Both levels are well-formed dicts. */
  ghost predicate TableValid<V>(t: Table<V>) {
    t.Valid() && forall id :: id in t.m ==> t.m[id].Valid()
  }

  /**
   * A table object: Python passes the dict by reference and the callers see
   * the writes, so the table lives in an object whose field the writers assign.
   */
  class ScoreTable<V> {
    var table: Table<V>

    constructor (t: Table<V>)
      ensures table == t
    {
      table := t;
    }
  }

  /** `t[id][path] = v` for an image id the table has. */
  function Write<V>(t: Table<V>, id: string, path: string, v: V): (r: Table<V>)
    requires id in t.m
    ensures TableValid(t) ==> TableValid(r)
    ensures r.keys == t.keys && r.m.Keys == t.m.Keys
  {
    t.Put(id, t.m[id].Put(path, Some(v)))
  }

  /** The first position below `n` whose image id the table lacks (the `KeyError`), else `n`. */
  function FirstMissing<V>(t: Table<V>, ids: seq<string>, n: nat): (r: nat)
    requires n <= |ids|
    ensures r <= n
    ensures forall i :: 0 <= i < r ==> ids[i] in t.m
    ensures r < n ==> ids[r] !in t.m
  {
    if n == 0 then 0
    else if FirstMissing(t, ids, n - 1) < n - 1 then FirstMissing(t, ids, n - 1)
    else if ids[n - 1] in t.m then n
    else n - 1
  }

  /**
   * The writes `t[ids[i]][paths[i]] = vals[i]` for `i < n`, in order. A
   * write adds a patch key the image lacks but never adds an image.
   */
  function Fill<V>(t: Table<V>, ids: seq<string>, paths: seq<string>, vals: seq<V>, n: nat): (r: Table<V>)
    requires n <= |ids| && n <= |paths| && n <= |vals|
    requires forall i :: 0 <= i < n ==> ids[i] in t.m
    ensures TableValid(t) ==> TableValid(r)
    ensures r.keys == t.keys && r.m.Keys == t.m.Keys
  {
    if n == 0 then t
    else Write(Fill(t, ids, paths, vals, n - 1), ids[n - 1], paths[n - 1], vals[n - 1])
  }

  /**
   * After the writes, a `(image, patch)` pair that some write names holds the
   * value of the LAST write naming it.
   */
  lemma {:induction false} FillLastWriteWins<V>(t: Table<V>, ids: seq<string>, paths: seq<string>, vals: seq<V>, n: nat, i: nat)
    requires n <= |ids| && n <= |paths| && n <= |vals|
    requires forall j :: 0 <= j < n ==> ids[j] in t.m
    requires i < n
    requires forall j :: i < j < n ==> ids[j] != ids[i] || paths[j] != paths[i]
    ensures paths[i] in Fill(t, ids, paths, vals, n).m[ids[i]].m
    ensures Fill(t, ids, paths, vals, n).m[ids[i]].m[paths[i]] == Some(vals[i])
  {
    if i < n - 1 {
      FillLastWriteWins(t, ids, paths, vals, n - 1, i);
    }
  }

  /**
   * A `(image, patch)` pair that no write names is untouched: present exactly
   * when it was, with the same value; and an image no write names keeps its
   * whole inner dict.
   */
  lemma {:induction false} FillUntouched<V>(t: Table<V>, ids: seq<string>, paths: seq<string>, vals: seq<V>, n: nat, id: string, path: string)
    requires n <= |ids| && n <= |paths| && n <= |vals|
    requires forall j :: 0 <= j < n ==> ids[j] in t.m
    requires id in t.m
    requires forall j :: 0 <= j < n ==> ids[j] != id || paths[j] != path
    ensures path in Fill(t, ids, paths, vals, n).m[id].m <==> path in t.m[id].m
    ensures path in t.m[id].m ==> Fill(t, ids, paths, vals, n).m[id].m[path] == t.m[id].m[path]
    ensures (forall j :: 0 <= j < n ==> ids[j] != id) ==> Fill(t, ids, paths, vals, n).m[id] == t.m[id]
  {
    if n > 0 {
      FillUntouched(t, ids, paths, vals, n - 1, id, path);
    }
  }

  /** The scores an image has received, in patch-key order, `None`s skipped. */
  function Collected<V>(keys: seq<string>, m: map<string, Option<V>>): seq<V> {
    if keys == [] then []
    else
      var k := keys[|keys| - 1];
      Collected(keys[..|keys| - 1], m) + (if k in m && m[k].Some? then [m[k].value] else [])
  }

  /** `img_yhat_none_count`: the patches of an image that have no score yet. */
  function NoneCount<V>(keys: seq<string>, m: map<string, Option<V>>): nat {
    if keys == [] then 0
    else
      var k := keys[|keys| - 1];
      NoneCount(keys[..|keys| - 1], m) + (if k in m && m[k].None? then 1 else 0)
  }

  /**
   * Every patch entry is either collected or counted as `None`; nothing is
   * collected exactly when every entry is `None`.
   */
  lemma {:induction false} CollectedPlusNone<V>(keys: seq<string>, m: map<string, Option<V>>)
    requires forall k :: k in keys ==> k in m
    ensures |Collected(keys, m)| + NoneCount(keys, m) == |keys|
    ensures Collected(keys, m) == [] <==> forall k :: k in keys ==> m[k].None?
  {
    if keys != [] {
      var init := keys[..|keys| - 1];
      CollectedPlusNone(init, m);
      assert forall k :: k in keys ==> k in init || k == keys[|keys| - 1];
    }
  }

  /** The inner loop of `score_dict`: an image's scores in patch order, and how many of its patches have none. */
  method CollectScores<V>(patchYhats: Dict<string, Option<V>>) returns (imgYhat: seq<V>, noneCount: nat)
    ensures imgYhat == Collected(patchYhats.keys, patchYhats.m)
    ensures noneCount == NoneCount(patchYhats.keys, patchYhats.m)
  {
    imgYhat, noneCount := [], 0;
    var keys := patchYhats.keys;
    for k := 0 to |keys|
      invariant imgYhat == Collected(keys[..k], patchYhats.m)
      invariant noneCount == NoneCount(keys[..k], patchYhats.m)
    {
      var patchPath := keys[k];
      assert keys[..k + 1][..k] == keys[..k];
      // `patchPath in patchYhats.m` holds for every key of a well-formed dict
      if patchPath in patchYhats.m && patchYhats.m[patchPath].Some? {
        imgYhat := imgYhat + [patchYhats.m[patchPath].value];
      } else if patchPath in patchYhats.m {
        noneCount := noneCount + 1;
      }
    }
    assert keys[..|keys|] == keys;
  }

  /** A collected score is the value of some scored patch, and every scored patch's value is collected. */
  lemma {:induction false} CollectedMembers<V>(keys: seq<string>, m: map<string, Option<V>>)
    ensures forall v :: v in Collected(keys, m) <==> exists k :: k in keys && k in m && m[k] == Some(v)
  {
    if keys != [] {
      var init := keys[..|keys| - 1];
      CollectedMembers(init, m);
      assert forall k :: k in keys <==> k in init || k == keys[|keys| - 1];
    }
  }
}
