/**
 * The bookkeeping of the ROC script: per-patch predictions are collected
 * over the validation loader and expanded back to single patches, written
 * into a fresh score table, and gathered per image together with the image's
 * label; `make_roc_main` does this for every model of every named model
 * list. The ROC curves, AUC values, sigmoid and averaging are floating-point
 * numerics and are not modelled: an image's prediction is represented by the
 * list of scores that would be averaged.
 */
module MakeRoc {
  import opened Wrappers
  import opened Dicts
  import opened Text
  import opened Grouping
  import opened ScoreTables
  import opened PatchDatasets
  import opened Batches

  /** The exceptions the script can raise. */
  datatype Error =
    | IndexError               // `img_paths[0]` of an empty batch
    | MissingImage(id: string) // `KeyError` in `fill_dict`
    | NoPreds                  // `torch.stack([])` when the loader yields no prediction
    | NoScores(id: string)     // `torch.stack([])` for an image without scores (the debugger trap)
    | MissingLabel(id: string) // `KeyError` in `samples_dict_gt`
    | NoImages                 // `torch.stack([])` over no images at all
    | NameMismatch             // the assertion of `make_roc_main`
    | SetupArity               // `TypeError`: `dm.setup()` without its `stage` argument

  /** A loader batch with the predictions `model.get_preds(batch)` returns for it, one per sample. */
  datatype ScoredBatch<V> = ScoredBatch(batch: Batch, preds: seq<V>)

  // ----- fill_dict -----

  /** The length of `zip(a, b, c)`. */
  function Min3(a: nat, b: nat, c: nat): (r: nat)
    ensures r <= a && r <= b && r <= c && (r == a || r == b || r == c)
  {
    if a <= b && a <= c then a else if b <= c then b else c
  }

  /**
   * What `fill_dict` does to a table and whether it raises: the writes
   * `t[img_ids[i]][img_paths[i]] = preds[i]` run in order over the shortest
   * of the three lists, up to the first image id the table lacks.
   */
  function FillOutcome<V>(t: Table<V>, preds: seq<V>, ids: seq<string>, paths: seq<string>): (Table<V>, Result<(), Error>) {
    var n := Min3(|ids|, |paths|, |preds|);
    var i := FirstMissing(t, ids, n);
    (Fill(t, ids, paths, preds, i), if i == n then Ok(()) else Err(MissingImage(ids[i])))
  }

  /**
   * When every zipped image id is in the table, `fill_dict` succeeds; each
   * zipped `(image, patch)` pair holds the prediction of its last write;
   * every other pair, and everything past the shortest list, is untouched.
   */
  lemma FillOutcomeWrites<V>(t: Table<V>, preds: seq<V>, ids: seq<string>, paths: seq<string>)
    requires TableValid(t)
    requires forall i :: 0 <= i < Min3(|ids|, |paths|, |preds|) ==> ids[i] in t.m
    ensures FillOutcome(t, preds, ids, paths).1 == Ok(())
    ensures TableValid(FillOutcome(t, preds, ids, paths).0) && FillOutcome(t, preds, ids, paths).0.keys == t.keys
    ensures var n := Min3(|ids|, |paths|, |preds|);
      forall i :: 0 <= i < n && (forall j :: i < j < n ==> ids[j] != ids[i] || paths[j] != paths[i]) ==>
        paths[i] in FillOutcome(t, preds, ids, paths).0.m[ids[i]].m &&
        FillOutcome(t, preds, ids, paths).0.m[ids[i]].m[paths[i]] == Some(preds[i])
    ensures var n := Min3(|ids|, |paths|, |preds|);
      forall id, p :: id in t.m && (forall j :: 0 <= j < n ==> ids[j] != id || paths[j] != p) ==>
        (p in FillOutcome(t, preds, ids, paths).0.m[id].m <==> p in t.m[id].m) &&
        (p in t.m[id].m ==> FillOutcome(t, preds, ids, paths).0.m[id].m[p] == t.m[id].m[p])
  {
    var n := Min3(|ids|, |paths|, |preds|);
    assert FirstMissing(t, ids, n) == n;
    forall i | 0 <= i < n && (forall j :: i < j < n ==> ids[j] != ids[i] || paths[j] != paths[i])
      ensures paths[i] in Fill(t, ids, paths, preds, n).m[ids[i]].m && Fill(t, ids, paths, preds, n).m[ids[i]].m[paths[i]] == Some(preds[i])
    {
      FillLastWriteWins(t, ids, paths, preds, n, i);
    }
    forall id, p | id in t.m && (forall j :: 0 <= j < n ==> ids[j] != id || paths[j] != p)
      ensures (p in Fill(t, ids, paths, preds, n).m[id].m <==> p in t.m[id].m) &&
        (p in t.m[id].m ==> Fill(t, ids, paths, preds, n).m[id].m[p] == t.m[id].m[p])
    {
      FillUntouched(t, ids, paths, preds, n, id, p);
    }
  }

  /** `fill_dict(img_samples_score_dict, preds, img_ids, img_paths)`: writes into the shared table. */
  method FillDict<V>(t: ScoreTable<V>, preds: seq<V>, imgIds: seq<string>, imgPaths: seq<string>) returns (r: Result<(), Error>)
    modifies t
    ensures (t.table, r) == FillOutcome(old(t.table), preds, imgIds, imgPaths)
  {
    ghost var t0 := t.table;
    var n := Min3(|imgIds|, |imgPaths|, |preds|);
    ghost var stop := FirstMissing(t0, imgIds, n);
    for i := 0 to n
      invariant i <= stop
      invariant t.table == Fill(t0, imgIds, imgPaths, preds, i)
      invariant t.table.m.Keys == t0.m.Keys
    {
      if imgIds[i] !in t.table.m {
        assert stop == i;
        return Err(MissingImage(imgIds[i]));
      }
      assert imgIds[i] in t0.m;
      assert i < stop;
      t.table := Write(t.table, imgIds[i], imgPaths[i], preds[i]);
    }
    assert stop == n;
    r := Ok(());
  }

  // ----- get_preds -----

  /**
   * The expansion of one batch in `get_preds` as written: every group size
   * other than `> 1` takes `list(img_paths[0])`, the characters of the first
   * path.
   */
  function ExpandAsWritten<V>(g: int, b: Batch, preds: seq<V>): Result<Flat<V>, Error> {
    if g > 1 then Ok(Expand(g, b, preds))
    else if |b.imgPaths| == 0 then Err(IndexError)
    else Ok(Flat(b.imgIds, Chars(b.imgPaths[0]), preds, b.targets))
  }

  /** `all_*.extend(...)` of the four lists by one batch's lists. */
  function Extend<V>(acc: Flat<V>, f: Flat<V>): Flat<V> {
    Flat(acc.ids + f.ids, acc.paths + f.paths, acc.outputs + f.outputs, acc.targets + f.targets)
  }

  /** The four accumulated lists after the batches `bs`, each expanded as intended. */
  function Accumulated<V>(g: int, bs: seq<ScoredBatch<V>>): Flat<V> {
    if bs == [] then Flat([], [], [], [])
    else
      var last := bs[|bs| - 1];
      Extend(Accumulated(g, bs[..|bs| - 1]), Expand(g, last.batch, last.preds))
  }

  /** The same with the expansion as written: the first batch that has no path raises `IndexError`. */
  function AccumulatedAsWritten<V>(g: int, bs: seq<ScoredBatch<V>>): Result<Flat<V>, Error> {
    if bs == [] then Ok(Flat([], [], [], []))
    else
      var last := bs[|bs| - 1];
      match AccumulatedAsWritten(g, bs[..|bs| - 1])
      case Err(e) => Err(e)
      case Ok(acc) =>
        match ExpandAsWritten(g, last.batch, last.preds)
        case Err(e) => Err(e)
        case Ok(f) => Ok(Extend(acc, f))
  }

  /** `torch.stack(all_preds)` and `torch.stack(all_y_gt)` fail on an empty list. */
  function Stacked<V>(acc: Flat<V>): Result<Flat<V>, Error> {
    if |acc.outputs| == 0 || |acc.targets| == 0 then Err(NoPreds) else Ok(acc)
  }

  lemma ExtendAssoc<V>(a: Flat<V>, b: Flat<V>, c: Flat<V>)
    ensures Extend(Extend(a, b), c) == Extend(a, Extend(b, c))
  {
    assert (a.ids + b.ids) + c.ids == a.ids + (b.ids + c.ids);
    assert (a.paths + b.paths) + c.paths == a.paths + (b.paths + c.paths);
    assert (a.outputs + b.outputs) + c.outputs == a.outputs + (b.outputs + c.outputs);
    assert (a.targets + b.targets) + c.targets == a.targets + (b.targets + c.targets);
  }

  /**
   * Accumulation is concatenation in batch order: the lists after `a + b`
   * are the lists after `a` extended by the lists after `b`.
   */
  lemma {:induction false} AccumulatedAppend<V>(g: int, a: seq<ScoredBatch<V>>, b: seq<ScoredBatch<V>>)
    ensures Accumulated(g, a + b) == Extend(Accumulated(g, a), Accumulated(g, b))
  {
    if b == [] {
      assert a + b == a;
      var acc := Accumulated(g, a);
      assert Extend(acc, Flat([], [], [], [])) == acc by {
        assert acc.ids + [] == acc.ids && acc.paths + [] == acc.paths;
        assert acc.outputs + [] == acc.outputs && acc.targets + [] == acc.targets;
      }
    } else {
      var init := b[..|b| - 1];
      var last := b[|b| - 1];
      assert (a + b)[..|a + b| - 1] == a + init;
      assert (a + b)[|a + b| - 1] == last;
      AccumulatedAppend(g, a, init);
      ExtendAssoc(Accumulated(g, a), Accumulated(g, init), Expand(g, last.batch, last.preds));
    }
  }

  /** A batch the loader of a grouped dataset yields: one id, path, prediction and target per sample, and `g` paths per bag. */
  predicate Fits<V>(g: int, sb: ScoredBatch<V>) {
    var b := sb.batch;
    |b.imgPaths| == |b.imgIds| && |sb.preds| == |b.imgIds| && |b.targets| == |b.imgIds| &&
    (g > 1 ==> forall i :: 0 <= i < |b.imgPaths| ==> |Split(b.imgPaths[i])| == g)
  }

  /** The number of samples over the batches. */
  function SampleCount<V>(bs: seq<ScoredBatch<V>>): nat {
    if bs == [] then 0 else SampleCount(bs[..|bs| - 1]) + |bs[|bs| - 1].batch.imgIds|
  }

  /**
   * Over batches that fit, the four accumulated lists grow together: they
   * have one common length, `g` entries per sample when `g > 1` and one
   * otherwise.
   */
  lemma {:induction false} AccumulatedAligned<V>(g: int, bs: seq<ScoredBatch<V>>)
    requires forall i :: 0 <= i < |bs| ==> Fits(g, bs[i])
    ensures Aligned(Accumulated(g, bs))
    ensures |Accumulated(g, bs).ids| == SampleCount(bs) * (if g > 1 then g else 1)
  {
    if bs != [] {
      var init := bs[..|bs| - 1];
      var last := bs[|bs| - 1];
      assert forall i :: 0 <= i < |init| ==> init[i] == bs[i];
      AccumulatedAligned(g, init);
      ExpandLength(g, last);
      MulDist(SampleCount(init), |last.batch.imgIds|, if g > 1 then g else 1);
    }
  }

  /** One fitting batch expands to aligned lists, `g` entries per sample when `g > 1`. */
  lemma ExpandLength<V>(g: int, sb: ScoredBatch<V>)
    requires Fits(g, sb)
    ensures Aligned(Expand(g, sb.batch, sb.preds))
    ensures |Expand(g, sb.batch, sb.preds).ids| == |sb.batch.imgIds| * (if g > 1 then g else 1)
  {
    if g > 1 {
      ExpandAligned(g, sb.batch, sb.preds);
    }
  }

  lemma MulDist(a: nat, b: nat, k: int)
    ensures (a + b) * k == a * k + b * k
  {
  }

  /**
   * `get_preds(model, dm)` over the batches the validation loader yields,
   * with the predictions of the model: the four lists accumulated batch by
   * batch, or the error of stacking an empty list.
   */
  method GetPreds<V>(g: int, bs: seq<ScoredBatch<V>>) returns (r: Result<Flat<V>, Error>)
    ensures r == Stacked(Accumulated(g, bs))
  {
    var acc: Flat<V> := Flat([], [], [], []);
    for i := 0 to |bs|
      invariant acc == Accumulated(g, bs[..i])
    {
      var sb := bs[i];
      var f := Expand(g, sb.batch, sb.preds);
      assert bs[..i + 1][..i] == bs[..i];
      acc := Flat(acc.ids + f.ids, acc.paths + f.paths, acc.outputs + f.outputs, acc.targets + f.targets);
    }
    assert bs[..|bs|] == bs;
    if |acc.outputs| == 0 || |acc.targets| == 0 {
      return Err(NoPreds);
    }
    r := Ok(acc);
  }

  /** A table of two images with one unscored patch each. */
  const ExampleTable: Table<int> :=
    Dict(["img1", "img2"], map["img1" := Dict(["r/a.jpg"], map["r/a.jpg" := None]),
                               "img2" := Dict(["r/b.jpg"], map["r/b.jpg" := None])])

  /** A batch of those two images, one patch per sample. */
  const ExampleBatch: Batch := Batch(["img1", "img2"], ["r/a.jpg", "r/b.jpg"], [0, 1])

  /**
   * As written, a `group_size == 1` run stores the predictions of a batch
   * of two single-patch samples under the one-character keys `"r"` and `"/"`
   * (the first characters of the first path) and leaves both real patch
   * entries `None`, without any error.
   */
  lemma ExpandAsWrittenMisfiles()
    ensures ExpandAsWritten(1, ExampleBatch, [5, 7]).Ok?
    ensures var f := ExpandAsWritten(1, ExampleBatch, [5, 7]).value;
      var (t, r) := FillOutcome(ExampleTable, f.outputs, f.ids, f.paths);
      r == Ok(()) && t.keys == ExampleTable.keys && "img1" in t.m && "img2" in t.m &&
      "r" in t.m["img1"].m && t.m["img1"].m["r"] == Some(5) &&
      "/" in t.m["img2"].m && t.m["img2"].m["/"] == Some(7) &&
      "r/a.jpg" in t.m["img1"].m && t.m["img1"].m["r/a.jpg"] == None &&
      "r/b.jpg" in t.m["img2"].m && t.m["img2"].m["r/b.jpg"] == None
  {
    var f := ExpandAsWritten(1, ExampleBatch, [5, 7]).value;
    assert f.ids == ["img1", "img2"] && f.outputs == [5, 7];
    assert |f.paths| == 7 && f.paths[0] == "r" && f.paths[1] == "/";
    ExampleFill(f.paths);
  }

  /** With the intended expansion the same batch fills the real patch entries. */
  lemma ExpandFillsOwnPatches()
    ensures var f := Expand(1, ExampleBatch, [5, 7]);
      var (t, r) := FillOutcome(ExampleTable, f.outputs, f.ids, f.paths);
      r == Ok(()) && t.keys == ExampleTable.keys && "img1" in t.m && "img2" in t.m &&
      "r/a.jpg" in t.m["img1"].m && t.m["img1"].m["r/a.jpg"] == Some(5) &&
      "r/b.jpg" in t.m["img2"].m && t.m["img2"].m["r/b.jpg"] == Some(7)
  {
    var f := Expand(1, ExampleBatch, [5, 7]);
    assert f.ids == ["img1", "img2"] && f.outputs == [5, 7] && f.paths == ["r/a.jpg", "r/b.jpg"];
    ExampleFill(f.paths);
  }

  /**
   * Filling the example table from the predictions `[5, 7]` of its two
   * images under `paths`: the first two paths receive them, and a real
   * patch entry not written over stays `None`.
   */
  lemma ExampleFill(paths: seq<string>)
    requires |paths| >= 2
    ensures FillOutcome(ExampleTable, [5, 7], ["img1", "img2"], paths).1 == Ok(())
    ensures var t := FillOutcome(ExampleTable, [5, 7], ["img1", "img2"], paths).0;
      t.keys == ExampleTable.keys && "img1" in t.m && "img2" in t.m &&
      paths[0] in t.m["img1"].m && t.m["img1"].m[paths[0]] == Some(5) &&
      paths[1] in t.m["img2"].m && t.m["img2"].m[paths[1]] == Some(7) &&
      (paths[0] != "r/a.jpg" ==> "r/a.jpg" in t.m["img1"].m && t.m["img1"].m["r/a.jpg"] == None) &&
      (paths[1] != "r/b.jpg" ==> "r/b.jpg" in t.m["img2"].m && t.m["img2"].m["r/b.jpg"] == None)
  {
    var t0 := ExampleTable;
    var ids := ["img1", "img2"];
    var preds := [5, 7];
    assert ids[0] != ids[1] by { assert ids[0][3] != ids[1][3]; }
    assert TableValid(t0) by {
      assert t0.m["img1"].Valid() && t0.m["img2"].Valid();
    }
    assert Min3(|ids|, |paths|, |preds|) == 2;
    FillOutcomeWrites(t0, preds, ids, paths);
    var t := FillOutcome(t0, preds, ids, paths).0;
    assert ids[0] in t0.m && ids[1] in t0.m;
    assert paths[0] in t.m[ids[0]].m && t.m[ids[0]].m[paths[0]] == Some(preds[0]);
    assert paths[1] in t.m[ids[1]].m && t.m[ids[1]].m[paths[1]] == Some(preds[1]);
    if paths[0] != "r/a.jpg" {
      assert "r/a.jpg" in t0.m[ids[0]].m && t0.m[ids[0]].m["r/a.jpg"] == None;
      assert forall j :: 0 <= j < 2 ==> ids[j] != ids[0] || paths[j] != "r/a.jpg";
    }
    if paths[1] != "r/b.jpg" {
      assert "r/b.jpg" in t0.m[ids[1]].m && t0.m[ids[1]].m["r/b.jpg"] == None;
      assert forall j :: 0 <= j < 2 ==> ids[j] != ids[1] || paths[j] != "r/b.jpg";
    }
  }


  /**
   * In general, a batch that fits is filed under its own patch paths by the
   * intended expansion: the zip covers every sample, so with every image id
   * in the table each sample's prediction lands on its own `(image, patch)`
   * pair, the last write winning.
   */
  lemma ExpandFillsBatch<V>(t: Table<V>, g: int, sb: ScoredBatch<V>)
    requires TableValid(t) && Fits(g, sb)
    requires g <= 1 || forall i :: 0 <= i < |sb.batch.imgPaths| ==> |Split(sb.batch.imgPaths[i])| == g
    requires forall i :: 0 <= i < |sb.batch.imgIds| ==> sb.batch.imgIds[i] in t.m
    ensures var f := Expand(g, sb.batch, sb.preds);
      Min3(|f.ids|, |f.paths|, |f.outputs|) == |f.ids| && FillOutcome(t, f.outputs, f.ids, f.paths).1 == Ok(()) &&
      forall k :: 0 <= k < |f.ids| && (forall j :: k < j < |f.ids| ==> f.ids[j] != f.ids[k] || f.paths[j] != f.paths[k]) ==>
        f.paths[k] in FillOutcome(t, f.outputs, f.ids, f.paths).0.m[f.ids[k]].m &&
        FillOutcome(t, f.outputs, f.ids, f.paths).0.m[f.ids[k]].m[f.paths[k]] == Some(f.outputs[k])
  {
    var f := Expand(g, sb.batch, sb.preds);
    ExpandIdsIn(t, g, sb);
    FillOutcomeWrites(t, f.outputs, f.ids, f.paths);
  }

  /** The intended expansion only repeats the batch's image ids, so they stay in the table. */
  lemma ExpandIdsIn<V>(t: Table<V>, g: int, sb: ScoredBatch<V>)
    requires Fits(g, sb)
    requires g <= 1 || forall i :: 0 <= i < |sb.batch.imgPaths| ==> |Split(sb.batch.imgPaths[i])| == g
    requires forall i :: 0 <= i < |sb.batch.imgIds| ==> sb.batch.imgIds[i] in t.m
    ensures var f := Expand(g, sb.batch, sb.preds);
      Min3(|f.ids|, |f.paths|, |f.outputs|) == |f.ids| && forall k :: 0 <= k < |f.ids| ==> f.ids[k] in t.m
  {
    var f := Expand(g, sb.batch, sb.preds);
    ExpandLength(g, sb);
    if g > 1 {
      RepeatMembers(sb.batch.imgIds, g);
    }
    forall k | 0 <= k < |f.ids| ensures f.ids[k] in t.m {
      assert f.ids[k] in sb.batch.imgIds;
    }
  }

  // ----- get_roc_image_level -----

  /**
   * Per image key of `keys`, in order: its non-`None` scores in patch-key
   * order (what `torch.stack` sees before the sigmoid mean) and its label
   * `samples_dict_gt[img_id][1]`; the first image without a score or
   * without a label stops it.
   */
  function ImageLevel<V>(t: Table<V>, gt: Dict<string, ImageEntry>, keys: seq<string>): Result<(seq<seq<V>>, seq<int>), Error> {
    if keys == [] then Ok(([], []))
    else
      var id := keys[|keys| - 1];
      match ImageLevel(t, gt, keys[..|keys| - 1])
      case Err(e) => Err(e)
      case Ok(acc) =>
        var scores := if id in t.m then Collected(t.m[id].keys, t.m[id].m) else [];
        if scores == [] then Err(NoScores(id))
        else if id !in gt.m then Err(MissingLabel(id))
        else Ok((acc.0 + [scores], acc.1 + [gt.m[id].classId]))
  }

  /** `get_roc_image_level(...)` up to the ROC itself: stacking fails when there is no image. */
  function RocImageLevel<V>(t: Table<V>, gt: Dict<string, ImageEntry>): Result<(seq<seq<V>>, seq<int>), Error> {
    match ImageLevel(t, gt, t.keys)
    case Err(e) => Err(e)
    case Ok(pl) => if pl.0 == [] then Err(NoImages) else Ok(pl)
  }

  /** An image with some score and a label. */
  predicate Scorable<V>(t: Table<V>, gt: Dict<string, ImageEntry>, id: string) {
    id in t.m && Collected(t.m[id].keys, t.m[id].m) != [] && id in gt.m
  }

  /**
   * The collection succeeds exactly when every key is scorable; then there
   * is one prediction and one label per key, in key order: the prediction
   * is the image's non-`None` scores and the label is the image's class.
   */
  lemma {:induction false} ImageLevelSpec<V>(t: Table<V>, gt: Dict<string, ImageEntry>, keys: seq<string>)
    ensures ImageLevel(t, gt, keys).Ok? <==> forall i :: 0 <= i < |keys| ==> Scorable(t, gt, keys[i])
    ensures ImageLevel(t, gt, keys).Ok? ==>
      var (preds, labels) := ImageLevel(t, gt, keys).value;
      |preds| == |keys| && |labels| == |keys| &&
      forall i :: 0 <= i < |keys| ==>
        preds[i] == Collected(t.m[keys[i]].keys, t.m[keys[i]].m) && labels[i] == gt.m[keys[i]].classId
  {
    if keys != [] {
      var n := |keys| - 1;
      var init := keys[..n];
      ImageLevelSpec(t, gt, init);
      assert forall i :: 0 <= i < n ==> init[i] == keys[i];
    }
  }

  /**
   * `get_roc_image_level` succeeds exactly when the table has an image and
   * every image has a score and a label; then the predictions and labels
   * run over the table's keys in order, and a prediction holds exactly the
   * scores of that image's scored patches.
   */
  lemma RocImageLevelSpec<V>(t: Table<V>, gt: Dict<string, ImageEntry>)
    ensures RocImageLevel(t, gt).Ok? <==> t.keys != [] && forall i :: 0 <= i < |t.keys| ==> Scorable(t, gt, t.keys[i])
    ensures RocImageLevel(t, gt).Ok? ==>
      var (preds, labels) := RocImageLevel(t, gt).value;
      |preds| == |t.keys| && |labels| == |t.keys| &&
      forall i :: 0 <= i < |t.keys| ==>
        var img := t.m[t.keys[i]];
        labels[i] == gt.m[t.keys[i]].classId &&
        forall v :: v in preds[i] <==> exists p :: p in img.keys && p in img.m && img.m[p] == Some(v)
  {
    ImageLevelSpec(t, gt, t.keys);
    forall i | 0 <= i < |t.keys| && t.keys[i] in t.m {
      CollectedMembers(t.m[t.keys[i]].keys, t.m[t.keys[i]].m);
    }
  }

  /** `get_roc_image_level(img_samples_score_dict, samples_dict_gt)` without the ROC itself. */
  method GetRocImageLevel<V>(t: Table<V>, gt: Dict<string, ImageEntry>) returns (r: Result<(seq<seq<V>>, seq<int>), Error>)
    ensures r == RocImageLevel(t, gt)
  {
    var preds: seq<seq<V>> := [];
    var yGt: seq<int> := [];
    var keys := t.keys;
    for i := 0 to |keys|
      invariant ImageLevel(t, gt, keys[..i]) == Ok((preds, yGt))
    {
      var imgId := keys[i];
      assert keys[..i + 1][..i] == keys[..i];
      var scores: seq<V> := [];
      if imgId in t.m {
        var noneCount;
        scores, noneCount := CollectScores(t.m[imgId]);
      }
      if scores == [] {
        ImageLevelStops(t, gt, keys, i + 1);
        return Err(NoScores(imgId));
      }
      if imgId !in gt.m {
        ImageLevelStops(t, gt, keys, i + 1);
        return Err(MissingLabel(imgId));
      }
      preds := preds + [scores];
      yGt := yGt + [gt.m[imgId].classId];
    }
    assert keys[..|keys|] == keys;
    if preds == [] {
      return Err(NoImages);
    }
    r := Ok((preds, yGt));
  }

  /** Once a prefix of the keys fails, the whole collection fails the same way. */
  lemma {:induction false} ImageLevelStops<V>(t: Table<V>, gt: Dict<string, ImageEntry>, keys: seq<string>, n: nat)
    requires n <= |keys| && ImageLevel(t, gt, keys[..n]).Err?
    ensures ImageLevel(t, gt, keys) == ImageLevel(t, gt, keys[..n])
  {
    if n < |keys| {
      var init := keys[..|keys| - 1];
      assert init[..n] == keys[..n];
      ImageLevelStops(t, gt, init, n);
    } else {
      assert keys[..n] == keys;
    }
  }

  // ----- make_roc_main -----

  /** What one model's evaluation records: its predictions, its filled score table, and the per-image predictions and labels. */
  datatype Evaluation<V> = Evaluation(preds: Flat<V>, scores: Table<V>, imagePreds: seq<seq<V>>, imageLabels: seq<int>)

  /**
   * One model's pass over the validation batches `bs` of the dataset with
   * samples `samples`: `get_preds`, `fill_dict` into a fresh all-`None`
   * table, and the image-level collection; the first exception stops it.
   */
  function Evaluate<V>(g: int, samples: Dict<string, ImageEntry>, bs: seq<ScoredBatch<V>>): Result<Evaluation<V>, Error>
    requires samples.Valid()
  {
    match Stacked(Accumulated(g, bs))
    case Err(e) => Err(e)
    case Ok(f) =>
      var (t, fr) := FillOutcome(EmptyTable(samples), f.outputs, f.ids, f.paths);
      if fr.Err? then Err(fr.error)
      else
        match RocImageLevel(t, samples)
        case Err(e) => Err(e)
        case Ok(pl) => Ok(Evaluation(f, t, pl.0, pl.1))
  }

  /**
   * The bookkeeping of one iteration of the inner loop of `make_roc_main`,
   * on the validation dataset `ds` of the data module; `bs` are the batches
   * its loader yields with the model's predictions.
   */
  method EvaluateModel<V>(ds: PatchDataset, bs: seq<ScoredBatch<V>>) returns (r: Result<Evaluation<V>, Error>)
    requires ds.Valid()
    ensures r == Evaluate(ds.groupSize, ds.samples, bs)
  {
    var t := ds.GetImgSamplesScoreDict<V>();
    var gt := ds.GetSamplesDict();
    var p := GetPreds(ds.groupSize, bs);
    if p.Err? {
      return Err(p.error);
    }
    var f := p.value;
    var fr := FillDict(t, f.outputs, f.ids, f.paths);
    if fr.Err? {
      return Err(fr.error);
    }
    var image := GetRocImageLevel(t.table, gt);
    if image.Err? {
      return Err(image.error);
    }
    r := Ok(Evaluation(f, t.table, image.value.0, image.value.1));
  }

  /** The values of `rs` in order, or the first error among them: a loop that stops at the first exception. */
  function AllOk<T>(rs: seq<Result<T, Error>>): (r: Result<seq<T>, Error>)
    ensures r.Ok? ==> |r.value| == |rs|
  {
    if rs == [] then Ok([])
    else
      match AllOk(rs[..|rs| - 1])
      case Err(e) => Err(e)
      case Ok(vs) =>
        match rs[|rs| - 1]
        case Err(e) => Err(e)
        case Ok(v) => Ok(vs + [v])
  }

  /** The loop succeeds exactly when every step does, and then yields every step's value in order; an error is some step's error. */
  lemma {:induction false} AllOkSpec<T>(rs: seq<Result<T, Error>>)
    ensures AllOk(rs).Ok? <==> forall j :: 0 <= j < |rs| ==> rs[j].Ok?
    ensures AllOk(rs).Ok? ==> |AllOk(rs).value| == |rs| && forall j :: 0 <= j < |rs| ==> AllOk(rs).value[j] == rs[j].value
    ensures AllOk(rs).Err? ==> exists j :: 0 <= j < |rs| && rs[j] == Err(AllOk(rs).error)
  {
    if rs != [] {
      var init := rs[..|rs| - 1];
      AllOkSpec(init);
      assert forall j :: 0 <= j < |init| ==> init[j] == rs[j];
    }
  }

  /** One more result: an error ends the fold with that error, a value is appended. */
  lemma AllOkStep<T>(rs: seq<Result<T, Error>>, j: nat)
    requires j < |rs| && AllOk(rs[..j]).Ok?
    ensures AllOk(rs[..j + 1]) == if rs[j].Err? then Err(rs[j].error) else Ok(AllOk(rs[..j]).value + [rs[j].value])
  {
    assert rs[..j + 1][..j] == rs[..j];
  }

  /** Once a prefix fails, the whole loop fails the same way. */
  lemma {:induction false} AllOkStops<T>(rs: seq<Result<T, Error>>, k: nat)
    requires k <= |rs| && AllOk(rs[..k]).Err?
    ensures AllOk(rs) == AllOk(rs[..k])
  {
    if k < |rs| {
      var init := rs[..|rs| - 1];
      assert init[..k] == rs[..k];
      AllOkStops(init, k);
    } else {
      assert rs[..k] == rs;
    }
  }

  /** The evaluation of each model of one list, with `run` standing for the model's forward passes over the loader. */
  function Evaluations<M, V>(models: seq<M>, ds: PatchDataset, run: (M, PatchDataset) -> seq<ScoredBatch<V>>): (r: seq<Result<Evaluation<V>, Error>>)
    requires ds.Valid()
    ensures |r| == |models| && forall j :: 0 <= j < |models| ==> r[j] == Evaluate(ds.groupSize, ds.samples, run(models[j], ds))
  {
    seq(|models|, j requires 0 <= j < |models| => Evaluate(ds.groupSize, ds.samples, run(models[j], ds)))
  }

  /** `record_dict[name] = ...` for each name and value in order; the first error stops it. */
  function Recorded<T>(names: seq<string>, rs: seq<Result<T, Error>>): Result<Dict<string, T>, Error>
    requires |rs| <= |names|
  {
    if rs == [] then Ok(Empty())
    else
      var n := |rs| - 1;
      match Recorded(names, rs[..n])
      case Err(e) => Err(e)
      case Ok(rec) =>
        match rs[n]
        case Err(e) => Err(e)
        case Ok(v) => Ok(rec.Put(names[n], v))
  }

  /** One more result: an error ends the records with that error, a value is recorded under its name. */
  lemma RecordedStep<T>(names: seq<string>, rs: seq<Result<T, Error>>, i: nat)
    requires i < |rs| <= |names| && Recorded(names, rs[..i]).Ok?
    ensures Recorded(names, rs[..i + 1]) ==
      if rs[i].Err? then Err(rs[i].error) else Ok(Recorded(names, rs[..i]).value.Put(names[i], rs[i].value))
  {
    assert rs[..i + 1][..i] == rs[..i];
  }

  /** The names paired with the values, as far as the values go. */
  function Pairs<T>(names: seq<string>, vs: seq<T>): (r: seq<(string, T)>)
    requires |vs| <= |names|
    ensures |r| == |vs| && forall i :: 0 <= i < |vs| ==> r[i] == (names[i], vs[i])
  {
    seq(|vs|, i requires 0 <= i < |vs| => (names[i], vs[i]))
  }

  /** The records are the successive assignments of the values under their names, once every value exists. */
  lemma {:induction false} RecordedAsPutAll<T>(names: seq<string>, rs: seq<Result<T, Error>>)
    requires |rs| <= |names|
    ensures Recorded(names, rs) == match AllOk(rs)
                                   case Err(e) => Err(e)
                                   case Ok(vs) => Ok(PutAll(Empty(), Pairs(names, vs)))
  {
    if rs != [] {
      var n := |rs| - 1;
      RecordedAsPutAll(names, rs[..n]);
      match AllOk(rs[..n])
      case Err(_) =>
      case Ok(vs) =>
        if rs[n].Ok? {
          assert Pairs(names, vs + [rs[n].value]) == Pairs(names, vs) + [(names[n], rs[n].value)];
          PutAllSnoc(Empty(), Pairs(names, vs), (names[n], rs[n].value));
        }
    }
  }

  /**
   * The records exist exactly when every value does; then their names are
   * exactly the names used, and a name holds the value of its LAST use; an
   * error is the error of some value.
   */
  lemma RecordedSpec<T>(names: seq<string>, rs: seq<Result<T, Error>>)
    requires |rs| <= |names|
    ensures Recorded(names, rs).Ok? <==> forall i :: 0 <= i < |rs| ==> rs[i].Ok?
    ensures Recorded(names, rs).Ok? ==>
      var rec := Recorded(names, rs).value;
      rec.Valid() &&
      (forall name :: name in rec.m <==> exists i :: 0 <= i < |rs| && names[i] == name) &&
      forall i :: 0 <= i < |rs| && (forall j :: i < j < |rs| ==> names[j] != names[i]) ==> rec.m[names[i]] == rs[i].value
    ensures Recorded(names, rs).Err? ==> exists i :: 0 <= i < |rs| && rs[i] == Err(Recorded(names, rs).error)
  {
    RecordedAsPutAll(names, rs);
    AllOkSpec(rs);
    if AllOk(rs).Ok? {
      var vs := AllOk(rs).value;
      var kvs := Pairs(names, vs);
      PutAllValues(Empty(), kvs);
      var rec := PutAll(Empty(), kvs);
      forall name ensures name in rec.m <==> exists i :: 0 <= i < |rs| && names[i] == name {
        if name in rec.m {
          var i :| 0 <= i < |kvs| && kvs[i].0 == name;
          assert names[i] == name;
        } else {
          forall i | 0 <= i < |rs| ensures names[i] != name { assert kvs[i].0 == names[i]; }
        }
      }
      forall i | 0 <= i < |rs| && (forall j :: i < j < |rs| ==> names[j] != names[i])
        ensures rec.m[names[i]] == rs[i].value
      {
        assert kvs[i] == (names[i], vs[i]);
        assert forall j :: i < j < |kvs| ==> kvs[j].0 == names[j];
      }
    }
  }

  /** Once a prefix fails, the records fail the same way. */
  lemma {:induction false} RecordedStops<T>(names: seq<string>, rs: seq<Result<T, Error>>, k: nat)
    requires |rs| <= |names| && k <= |rs| && Recorded(names, rs[..k]).Err?
    ensures Recorded(names, rs) == Recorded(names, rs[..k])
  {
    if k < |rs| {
      var init := rs[..|rs| - 1];
      assert init[..k] == rs[..k];
      RecordedStops(names, init, k);
    } else {
      assert rs[..k] == rs;
    }
  }

  /** The outcome of each model list of the zip: its models' evaluations, or the first exception. */
  function ListOutcomes<M, V>(modelLists: seq<seq<M>>, dms: seq<PatchDataset>, run: (M, PatchDataset) -> seq<ScoredBatch<V>>, n: nat)
    : (r: seq<Result<seq<Evaluation<V>>, Error>>)
    requires n <= |modelLists| && n <= |dms| && forall i :: 0 <= i < |dms| ==> dms[i].Valid()
    ensures |r| == n && forall i :: 0 <= i < n ==> r[i] == AllOk(Evaluations(modelLists[i], dms[i], run))
  {
    seq(n, i requires 0 <= i < n => AllOk(Evaluations(modelLists[i], dms[i], run)))
  }

  /** `make_roc_main(models, model_names, dms)` up to the plots: the name check, then the records over the zip of the three lists. */
  function MainOutcome<M, V>(modelLists: seq<seq<M>>, names: seq<string>, dms: seq<PatchDataset>,
                             run: (M, PatchDataset) -> seq<ScoredBatch<V>>): Result<Dict<string, seq<Evaluation<V>>>, Error>
    requires forall i :: 0 <= i < |dms| ==> dms[i].Valid()
  {
    if |modelLists| != |names| then Err(NameMismatch)
    else Recorded(names, ListOutcomes(modelLists, dms, run, Min3(|modelLists|, |names|, |dms|)))
  }

  /**
   * The per-list outcomes of `make_roc_main` as written: `dm.setup()` omits
   * the `stage` argument `PatchDataModule.setup` requires, so the first model
   * of a list raises `TypeError` before anything is evaluated; a list without
   * models never reaches the call.
   */
  function ListOutcomesAsWritten<M, V>(modelLists: seq<seq<M>>, n: nat): (r: seq<Result<seq<Evaluation<V>>, Error>>)
    requires n <= |modelLists|
    ensures |r| == n
  {
    seq(n, i requires 0 <= i < n => if modelLists[i] == [] then Ok([]) else Err(SetupArity))
  }

  /** `make_roc_main(models, model_names, dms)` as written, with the `setup()` call that lacks its argument. */
  function MainOutcomeAsWritten<M, V>(modelLists: seq<seq<M>>, names: seq<string>, dms: seq<PatchDataset>)
    : Result<Dict<string, seq<Evaluation<V>>>, Error>
  {
    if |modelLists| != |names| then Err(NameMismatch)
    else Recorded(names, ListOutcomesAsWritten<M, V>(modelLists, Min3(|modelLists|, |names|, |dms|)))
  }

  /**
   * As written, `make_roc_main` with matching names succeeds only when every
   * zipped model list is empty; otherwise it raises the `TypeError` of
   * `setup()`, so the script's own call, with two non-empty lists, fails.
   */
  lemma MainOutcomeAsWrittenFails<M, V>(modelLists: seq<seq<M>>, names: seq<string>, dms: seq<PatchDataset>)
    requires |modelLists| == |names|
    ensures var n := Min3(|modelLists|, |names|, |dms|);
      MainOutcomeAsWritten<M, V>(modelLists, names, dms).Ok? <==> forall i :: 0 <= i < n ==> modelLists[i] == []
    ensures MainOutcomeAsWritten<M, V>(modelLists, names, dms).Err? ==>
      MainOutcomeAsWritten<M, V>(modelLists, names, dms).error == SetupArity
  {
    var n := Min3(|modelLists|, |names|, |dms|);
    var rs := ListOutcomesAsWritten<M, V>(modelLists, n);
    assert MainOutcomeAsWritten<M, V>(modelLists, names, dms) == Recorded(names, rs);
    RecordedSpec(names, rs);
    assert forall i :: 0 <= i < n ==> (rs[i].Ok? <==> modelLists[i] == []);
  }

  /** No evaluation raises `NameMismatch`. */
  lemma EvaluateNotNameMismatch<V>(g: int, samples: Dict<string, ImageEntry>, bs: seq<ScoredBatch<V>>)
    requires samples.Valid()
    ensures Evaluate(g, samples, bs) != Err(NameMismatch)
  {
    var acc := Accumulated(g, bs);
    if Stacked(acc).Ok? {
      var t := EmptyTable<V>(samples);
      assert FillOutcome(t, acc.outputs, acc.ids, acc.paths).1 != Err(NameMismatch);
      var t2 := FillOutcome(t, acc.outputs, acc.ids, acc.paths).0;
      match ImageLevel(t2, samples, t2.keys) {
        case Err(e) => ImageLevelNotNameMismatch(t2, samples, t2.keys);
        case Ok(_) =>
      }
    }
  }

  lemma {:induction false} ImageLevelNotNameMismatch<V>(t: Table<V>, gt: Dict<string, ImageEntry>, keys: seq<string>)
    ensures ImageLevel(t, gt, keys) != Err(NameMismatch)
  {
    if keys != [] {
      ImageLevelNotNameMismatch(t, gt, keys[..|keys| - 1]);
    }
  }

  /**
   * One list's models evaluate together exactly when each of them does;
   * then the evaluations are theirs, in order; a failure is never the name
   * check's.
   */
  lemma EvaluationsSpec<M, V>(models: seq<M>, ds: PatchDataset, run: (M, PatchDataset) -> seq<ScoredBatch<V>>)
    requires ds.Valid()
    ensures AllOk(Evaluations(models, ds, run)).Ok? <==>
      forall j :: 0 <= j < |models| ==> Evaluate(ds.groupSize, ds.samples, run(models[j], ds)).Ok?
    ensures AllOk(Evaluations(models, ds, run)).Ok? ==>
      var evs := AllOk(Evaluations(models, ds, run)).value;
      |evs| == |models| && forall j :: 0 <= j < |models| ==> evs[j] == Evaluate(ds.groupSize, ds.samples, run(models[j], ds)).value
    ensures AllOk(Evaluations(models, ds, run)) != Err(NameMismatch)
  {
    var evs := Evaluations(models, ds, run);
    AllOkSpec(evs);
    if AllOk(evs).Err? {
      var j :| 0 <= j < |evs| && evs[j] == Err(AllOk(evs).error);
      EvaluateNotNameMismatch(ds.groupSize, ds.samples, run(models[j], ds));
    }
  }

  /**
   * `make_roc_main` fails its assertion exactly when the model lists and
   * the names differ in number. Otherwise the zip stops at the shortest of
   * the three lists, and the call succeeds exactly when every model of
   * those lists evaluates.
   */
  lemma MainOutcomeFails<M, V>(modelLists: seq<seq<M>>, names: seq<string>, dms: seq<PatchDataset>,
                               run: (M, PatchDataset) -> seq<ScoredBatch<V>>)
    requires forall i :: 0 <= i < |dms| ==> dms[i].Valid()
    ensures MainOutcome(modelLists, names, dms, run) == Err(NameMismatch) <==> |modelLists| != |names|
    ensures |modelLists| == |names| ==>
      var n := if |names| <= |dms| then |names| else |dms|;
      (MainOutcome(modelLists, names, dms, run).Ok? <==> forall i, j :: 0 <= i < n && 0 <= j < |modelLists[i]| ==>
        Evaluate(dms[i].groupSize, dms[i].samples, run(modelLists[i][j], dms[i])).Ok?)
  {
    if |modelLists| == |names| {
      var n := Min3(|modelLists|, |names|, |dms|);
      var lo := ListOutcomes(modelLists, dms, run, n);
      RecordedSpec(names, lo);
      forall i | 0 <= i < n
        ensures lo[i] != Err(NameMismatch)
        ensures lo[i].Ok? <==> forall j :: 0 <= j < |modelLists[i]| ==> Evaluate(dms[i].groupSize, dms[i].samples, run(modelLists[i][j], dms[i])).Ok?
      {
        EvaluationsSpec(modelLists[i], dms[i], run);
      }
    }
  }

  /**
   * When `make_roc_main` succeeds, the record names are exactly the zipped
   * names, and each holds, in order, the evaluations of the models of the
   * last zipped list carrying that name.
   */
  lemma MainOutcomeRecords<M, V>(modelLists: seq<seq<M>>, names: seq<string>, dms: seq<PatchDataset>,
                                 run: (M, PatchDataset) -> seq<ScoredBatch<V>>)
    requires forall i :: 0 <= i < |dms| ==> dms[i].Valid()
    requires MainOutcome(modelLists, names, dms, run).Ok?
    ensures
      var n := if |names| <= |dms| then |names| else |dms|;
      var rec := MainOutcome(modelLists, names, dms, run).value;
      rec.Valid() &&
      (forall name :: name in rec.m <==> exists i :: 0 <= i < n && names[i] == name) &&
      forall i :: 0 <= i < n && (forall k :: i < k < n ==> names[k] != names[i]) ==>
        names[i] in rec.m && |rec.m[names[i]]| == |modelLists[i]| &&
        forall j :: 0 <= j < |modelLists[i]| ==>
          var ev := Evaluate(dms[i].groupSize, dms[i].samples, run(modelLists[i][j], dms[i]));
          ev.Ok? && rec.m[names[i]][j] == ev.value
  {
    var n := Min3(|modelLists|, |names|, |dms|);
    var lo := ListOutcomes(modelLists, dms, run, n);
    RecordedSpec(names, lo);
    var rec := MainOutcome(modelLists, names, dms, run).value;
    forall i | 0 <= i < n && (forall k :: i < k < n ==> names[k] != names[i])
      ensures names[i] in rec.m && |rec.m[names[i]]| == |modelLists[i]|
      ensures forall j :: 0 <= j < |modelLists[i]| ==>
        var ev := Evaluate(dms[i].groupSize, dms[i].samples, run(modelLists[i][j], dms[i]));
        ev.Ok? && rec.m[names[i]][j] == ev.value
    {
      assert rec.m[names[i]] == lo[i].value;
      EvaluationsSpec(modelLists[i], dms[i], run);
    }
  }

  /** `make_roc_main(models, model_names, dms)`: the loops over the zip and over each list's models. The plots are not modelled. */
  method MakeRocMain<M, V>(modelLists: seq<seq<M>>, names: seq<string>, dms: seq<PatchDataset>,
                           run: (M, PatchDataset) -> seq<ScoredBatch<V>>) returns (r: Result<Dict<string, seq<Evaluation<V>>>, Error>)
    requires forall i :: 0 <= i < |dms| ==> dms[i].Valid()
    ensures r == MainOutcome(modelLists, names, dms, run)
  {
    if |modelLists| != |names| {
      return Err(NameMismatch);
    }
    var n := Min3(|modelLists|, |names|, |dms|);
    ghost var lo := ListOutcomes(modelLists, dms, run, n);
    var recordDict: Dict<string, seq<Evaluation<V>>> := Empty();
    for i := 0 to n
      invariant Recorded(names, lo[..i]) == Ok(recordDict)
    {
      var evs := EvaluateList(modelLists[i], dms[i], run);
      RecordedStep(names, lo, i);
      if evs.Err? {
        RecordedStops(names, lo, i + 1);
        return Err(evs.error);
      }
      recordDict := recordDict.Put(names[i], evs.value);
    }
    assert lo[..n] == lo;
    r := Ok(recordDict);
  }

  /** The inner loop of `make_roc_main`: every model of one list, in order, on the data module's validation dataset. */
  method EvaluateList<M, V>(models: seq<M>, dm: PatchDataset, run: (M, PatchDataset) -> seq<ScoredBatch<V>>)
    returns (r: Result<seq<Evaluation<V>>, Error>)
    requires dm.Valid()
    ensures r == AllOk(Evaluations(models, dm, run))
  {
    ghost var evs := Evaluations(models, dm, run);
    var done: seq<Evaluation<V>> := [];
    for j := 0 to |models|
      invariant AllOk(evs[..j]) == Ok(done)
    {
      var ev := EvaluateModel(dm, run(models[j], dm));
      assert ev == evs[j];
      AllOkStep(evs, j);
      if ev.Err? {
        AllOkStops(evs, j + 1);
        return Err(ev.error);
      }
      done := done + [ev.value];
    }
    assert evs[..|models|] == evs;
    r := Ok(done);
  }

  /** With groups of more than one patch, `get_preds` as written accumulates exactly what the intended expansion does. */
  lemma {:induction false} AccumulatedAsWrittenGrouped<V>(g: int, bs: seq<ScoredBatch<V>>)
    requires g > 1
    ensures AccumulatedAsWritten(g, bs) == Ok(Accumulated(g, bs))
  {
    if bs != [] {
      AccumulatedAsWrittenGrouped(g, bs[..|bs| - 1]);
    }
  }
}

