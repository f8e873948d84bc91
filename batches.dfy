/**
 * A loader batch of grouped samples and its expansion back to single
 * patches: each bag's comma-joined paths are split, and the per-bag image
 * id, model output and target are repeated for each of its patches. Both the
 * patient-level callback and the ROC script expand batches this way.
 */
module Batches {
  import opened Text
  import opened Grouping

  /** The bookkeeping fields of a loader batch `(img_id, img_paths, y, x)`; the pixels `x` are not modelled. */
  datatype Batch = Batch(imgIds: seq<string>, imgPaths: seq<string>, targets: seq<int>)

  /** Four per-patch lists: image ids, patch paths, model outputs of type `O`, and targets. */
  datatype Flat<O> = Flat(ids: seq<string>, paths: seq<string>, outputs: seq<O>, targets: seq<int>)

  /** `[p.split(",") for p in img_paths]` */
  function SplitAll(paths: seq<string>): (r: seq<seq<string>>)
    ensures |r| == |paths| && forall i :: 0 <= i < |paths| ==> r[i] == Split(paths[i])
  {
    seq(|paths|, i requires 0 <= i < |paths| => Split(paths[i]))
  }

  /** `list(s)` of a string: its characters as one-character strings. */
  function Chars(s: string): (r: seq<string>)
    ensures |r| == |s| && forall i :: 0 <= i < |s| ==> r[i] == [s[i]]
  {
    seq(|s|, i requires 0 <= i < |s| => [s[i]])
  }

  /**
   * The batch expansion as intended: bags are split on commas and ids,
   * outputs and targets repeated `group_size` times when `group_size > 1`;
   * otherwise the batch is used as it is (for `group_size == 1` the collated
   * `img_paths` already lists one path per sample).
   */
  function Expand<O>(g: int, b: Batch, outputs: seq<O>): Flat<O> {
    if g > 1 then Flat(Repeat(b.imgIds, g), Flatten(SplitAll(b.imgPaths)), Repeat(outputs, g), Repeat(b.targets, g))
    else Flat(b.imgIds, b.imgPaths, outputs, b.targets)
  }

  /** The four lists have one common length. */
  predicate Aligned<O>(f: Flat<O>) {
    |f.paths| == |f.ids| && |f.outputs| == |f.ids| && |f.targets| == |f.ids|
  }

  /**
   * The intended expansion keeps the four lists aligned: when every bag of
   * the batch splits into `g > 1` paths, all four lists have `g` entries per
   * sample, and flattened position `k` holds path `k % g` of bag `k / g`
   * together with that bag's image id, output and target. With `g <= 1`
   * the batch is unchanged.
   */
  lemma ExpandAligned<O>(g: int, b: Batch, outputs: seq<O>)
    requires |b.imgPaths| == |b.imgIds| && |outputs| == |b.imgIds| && |b.targets| == |b.imgIds|
    requires forall i :: 0 <= i < |b.imgPaths| ==> |Split(b.imgPaths[i])| == g
    ensures g <= 1 ==> Expand(g, b, outputs) == Flat(b.imgIds, b.imgPaths, outputs, b.targets)
    ensures Aligned(Expand(g, b, outputs))
    ensures g > 1 ==> var f := Expand(g, b, outputs);
      |f.ids| == |b.imgIds| * g &&
      forall k :: 0 <= k < |f.ids| ==>
        k / g < |b.imgIds| &&
        f.ids[k] == b.imgIds[k / g] && f.paths[k] == Split(b.imgPaths[k / g])[k % g] &&
        f.outputs[k] == outputs[k / g] && f.targets[k] == b.targets[k / g]
  {
    if g > 1 {
      RepeatAt(b.imgIds, g);
      RepeatAt(outputs, g);
      RepeatAt(b.targets, g);
      FlattenUniformAt(SplitAll(b.imgPaths), g);
      forall k | 0 <= k < |b.imgIds| * g ensures k / g < |b.imgIds| {
        FlattenUniformAtOne(SplitAll(b.imgPaths), g, k);
      }
    }
  }
}
