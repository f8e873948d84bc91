/**
 * The patient-level validation callback: it expands every batch of bags
 * back to single patches, writes the per-patch outputs into the score
 * tables, and at the end of a validation epoch turns the tables into one
 * majority-vote prediction per image and an image-level accuracy, and then
 * starts over with empty tables.
 */
module PatientLevel {
  import opened Wrappers
  import opened Dicts
  import opened Text
  import opened Grouping
  import opened ScoreTables
  import opened PatchDatasets
  import opened Batches

  /** A row of `batch_outputs`: one logit per class (integers stand in for the floats). */
  type Logits = v: seq<int> | |v| > 0 witness [0]

  /** The exceptions the callback can raise. */
  datatype Error =
    | IndexError                 // `img_paths[0]` of an empty batch
    | LengthMismatch             // the assertion of `update_dicts`
    | MissingImage(id: string)   // `KeyError` on an image id the table lacks
    | NoScores(id: string)       // `torch.stack([])` for an image with no score
    | NoImages                   // `torch.stack([])` over no images at all

  // ----- separating the bags of a batch -----

  /**
   * The batch expansion of `on_train_batch_end` / `on_validation_batch_end`
   * as written: for `group_size == 1` it takes `list(img_paths[0])`, the
   * characters of the first path.
   */
  function ExpandAsWritten(g: int, b: Batch, outputs: seq<Logits>): Result<Flat<Logits>, Error> {
    if g > 1 then
      Ok(Flat(Repeat(b.imgIds, g), Flatten(SplitAll(b.imgPaths)), Repeat(outputs, g), Repeat(b.targets, g)))
    else if g == 1 then
      if |b.imgPaths| == 0 then Err(IndexError)
      else Ok(Flat(b.imgIds, Chars(b.imgPaths[0]), outputs, b.targets))
    else Ok(Flat(b.imgIds, b.imgPaths, outputs, b.targets))
  }

  /**
   * With `group_size == 1`, the code as written hands `update_dicts` as many
   * paths as the first path has characters: a batch of two one-patch samples
   * yields seven "paths", and the length assertion fails.
   */
  lemma ExpandAsWrittenSplitsFirstPath()
    ensures var b := Batch(["img1", "img2"], ["r/a.jpg", "r/b.jpg"], [0, 1]);
      var f := ExpandAsWritten(1, b, [[1, 0], [0, 1]]);
      f.Ok? && f.value.paths == ["r", "/", "a", ".", "j", "p", "g"] && |f.value.paths| != |f.value.ids| &&
      UpdateOutcome(Empty(), f.value).1 == Err(LengthMismatch)
  {
    var f := ExpandAsWritten(1, Batch(["img1", "img2"], ["r/a.jpg", "r/b.jpg"], [0, 1]), [[1, 0], [0, 1]]);
    assert f.value.paths == ["r", "/", "a", ".", "j", "p", "g"];
  }

  /** In general the as-written `group_size == 1` branch yields one "path" per character of the first path. */
  lemma ExpandAsWrittenSingle(b: Batch, outputs: seq<Logits>)
    requires |b.imgPaths| > 0
    ensures ExpandAsWritten(1, b, outputs).Ok?
    ensures |ExpandAsWritten(1, b, outputs).value.paths| == |b.imgPaths[0]|
    ensures ExpandAsWritten(1, b, outputs).value.ids == b.imgIds
  {
  }

  /**
   * A grouped sample's paths split into exactly `g` patch paths of its own
   * image, so batches drawn from the dataset meet the hypothesis of `ExpandAligned`.
   */
  lemma {:induction false} GroupedSampleSplits(keys: seq<string>, m: map<string, ImageEntry>, g: int, s: Sample)
    requires g >= 1
    requires forall k :: k in keys ==> k in m
    requires forall k, j :: k in m && 0 <= j < |m[k].patches| ==> Comma !in m[k].patches[j]
    requires s in Grouped(keys, m, g)
    ensures s.imageId in m && |Split(s.paths)| == g
    ensures forall r :: 0 <= r < g ==> Split(s.paths)[r] in m[s.imageId].patches
  {
    var init := keys[..|keys| - 1];
    var last := keys[|keys| - 1];
    if s in Grouped(init, m, g) {
      GroupedSampleSplits(init, m, g, s);
    } else {
      ImageSampleMembers(last, m[last], g, s);
    }
  }

  /** The same for the samples of one image. */
  lemma ImageSampleMembers(id: string, e: ImageEntry, g: int, s: Sample)
    requires g >= 1
    requires forall k :: 0 <= k < |e.patches| ==> Comma !in e.patches[k]
    requires s in ImageSamples(id, e, g)
    ensures s.imageId == id && |Split(s.paths)| == g
    ensures forall r :: 0 <= r < g ==> Split(s.paths)[r] in e.patches
  {
    var ims := ImageSamples(id, e, g);
    var j :| 0 <= j < |ims| && ims[j] == s;
    ImageSampleSlice(id, e, g, j);
    var lo := j * g;
    forall r | 0 <= r < g ensures Split(s.paths)[r] in e.patches {
      assert Split(s.paths)[r] == e.patches[lo + r];
    }
  }

  // ----- update_dicts -----

  /**
   * What `update_dicts` does to a table, and what it returns: on unequal
   * lengths the assertion fails and nothing is written; otherwise the writes
   * run in order up to the first image id the table lacks, where `KeyError`
   * stops them. Targets are only counted, never stored.
   */
  function UpdateOutcome(t: Table<Logits>, f: Flat<Logits>): (Table<Logits>, Result<(), Error>) {
    if !(|f.paths| == |f.outputs| && |f.outputs| == |f.targets| && |f.ids| == |f.paths|) then
      (t, Err(LengthMismatch))
    else
      var i := FirstMissing(t, f.ids, |f.ids|);
      (Fill(t, f.ids, f.paths, f.outputs, i), if i == |f.ids| then Ok(()) else Err(MissingImage(f.ids[i])))
  }

  /**
   * On a batch whose lists agree and whose image ids are all in the table,
   * `update_dicts` succeeds and afterwards `t[ids[i]][paths[i]]` is the
   * output of the last position naming that pair, while every pair the
   * batch does not name is as before.
   */
  lemma UpdateOutcomeWrites(t: Table<Logits>, f: Flat<Logits>)
    requires TableValid(t)
    requires |f.paths| == |f.ids| && |f.outputs| == |f.ids| && |f.targets| == |f.ids|
    requires forall i :: 0 <= i < |f.ids| ==> f.ids[i] in t.m
    ensures UpdateOutcome(t, f).1 == Ok(())
    ensures TableValid(UpdateOutcome(t, f).0) && UpdateOutcome(t, f).0.keys == t.keys
    ensures forall i :: 0 <= i < |f.ids| && (forall j :: i < j < |f.ids| ==> f.ids[j] != f.ids[i] || f.paths[j] != f.paths[i]) ==>
      f.paths[i] in UpdateOutcome(t, f).0.m[f.ids[i]].m && UpdateOutcome(t, f).0.m[f.ids[i]].m[f.paths[i]] == Some(f.outputs[i])
    ensures forall id, p :: id in t.m && (forall j :: 0 <= j < |f.ids| ==> f.ids[j] != id || f.paths[j] != p) ==>
      (p in UpdateOutcome(t, f).0.m[id].m <==> p in t.m[id].m) &&
      (p in t.m[id].m ==> UpdateOutcome(t, f).0.m[id].m[p] == t.m[id].m[p])
  {
    var n := |f.ids|;
    assert FirstMissing(t, f.ids, n) == n;
    forall i | 0 <= i < n && (forall j :: i < j < n ==> f.ids[j] != f.ids[i] || f.paths[j] != f.paths[i])
      ensures f.paths[i] in UpdateOutcome(t, f).0.m[f.ids[i]].m && UpdateOutcome(t, f).0.m[f.ids[i]].m[f.paths[i]] == Some(f.outputs[i])
    {
      FillLastWriteWins(t, f.ids, f.paths, f.outputs, n, i);
    }
    forall id, p | id in t.m && (forall j :: 0 <= j < n ==> f.ids[j] != id || f.paths[j] != p)
      ensures (p in UpdateOutcome(t, f).0.m[id].m <==> p in t.m[id].m) &&
        (p in t.m[id].m ==> UpdateOutcome(t, f).0.m[id].m[p] == t.m[id].m[p])
    {
      FillUntouched(t, f.ids, f.paths, f.outputs, n, id, p);
    }
  }

  // ----- score_dict -----

  /** `torch.argmax(v)`: the first position of a largest logit. */
  function ArgMax(v: Logits): (r: nat)
    ensures r < |v|
    ensures forall j :: 0 <= j < |v| ==> v[j] <= v[r]
    ensures forall j :: 0 <= j < r ==> v[j] < v[r]
  {
    if |v| == 1 then 0
    else
      var t := ArgMax(v[1..]);
      if v[0] >= v[1..][t] then 0 else 1 + t
  }

  /** `torch.argmax(img_yhat, dim=1)`: the predicted class of each patch. */
  function Votes(scores: seq<Logits>): (r: seq<nat>)
    ensures |r| == |scores| && forall i :: 0 <= i < |scores| ==> r[i] == ArgMax(scores[i])
  {
    seq(|scores|, i requires 0 <= i < |scores| => ArgMax(scores[i]))
  }

  /** How often `x` occurs in `s`. */
  function Count(s: seq<nat>, x: nat): nat {
    if s == [] then 0 else Count(s[..|s| - 1], x) + (if s[|s| - 1] == x then 1 else 0)
  }

  /** The best of the first `i` votes: most frequent, the smaller class on ties. */
  function MostFrequent(votes: seq<nat>, i: nat): nat
    requires 0 < i <= |votes|
  {
    if i == 1 then votes[0]
    else
      var b := MostFrequent(votes, i - 1);
      var c := votes[i - 1];
      if Count(votes, c) > Count(votes, b) || (Count(votes, c) == Count(votes, b) && c < b) then c else b
  }

  /** The best of the first `i` votes is one of them, and beats or ties every one of them, winning ties by being smaller. */
  lemma {:induction false} MostFrequentIsBest(votes: seq<nat>, i: nat)
    requires 0 < i <= |votes|
    ensures var r := MostFrequent(votes, i);
      r in votes[..i] &&
      (forall j :: 0 <= j < i ==> Count(votes, votes[j]) <= Count(votes, r)) &&
      (forall j :: 0 <= j < i && Count(votes, votes[j]) == Count(votes, r) ==> r <= votes[j])
  {
    if i > 1 {
      MostFrequentIsBest(votes, i - 1);
      assert votes[..i] == votes[..i - 1] + [votes[i - 1]];
    }
  }

  /** `torch.mode(votes).values`: a most frequent vote (the smallest one on ties). */
  function MajorityVote(votes: seq<nat>): (r: nat)
    requires |votes| > 0
  {
    MostFrequent(votes, |votes|)
  }

  /** The majority vote is one of the votes, and no class has more votes than it. */
  lemma MajorityVoteIsMode(votes: seq<nat>)
    requires |votes| > 0
    ensures MajorityVote(votes) in votes
    ensures forall x :: Count(votes, x) <= Count(votes, MajorityVote(votes))
    ensures forall x :: Count(votes, x) == Count(votes, MajorityVote(votes)) ==> MajorityVote(votes) <= x
  {
    var r := MajorityVote(votes);
    MostFrequentIsBest(votes, |votes|);
    assert votes[..|votes|] == votes;
    forall x ensures Count(votes, x) <= Count(votes, r) && (Count(votes, x) == Count(votes, r) ==> r <= x) {
      if x in votes {
        var j :| 0 <= j < |votes| && votes[j] == x;
      } else {
        CountAbsent(votes, x);
        CountPresent(votes, r);
      }
    }
  }

  lemma {:induction false} CountAbsent(s: seq<nat>, x: nat)
    requires x !in s
    ensures Count(s, x) == 0
  {
    if s != [] {
      CountAbsent(s[..|s| - 1], x);
    }
  }

  lemma {:induction false} CountPresent(s: seq<nat>, x: nat)
    requires x in s
    ensures Count(s, x) >= 1
  {
    var init := s[..|s| - 1];
    if s[|s| - 1] != x {
      assert x in init;
      CountPresent(init, x);
    }
  }

  /** One image's line of the report: its target label, its majority vote and its `None` count. */
  datatype Row = Row(target: int, vote: nat, noneCount: nat)

  /** `score_dict`'s outcome: one line per image in key order (its `y` and `y_hat` entries and the `None` count it prints), and the accuracy. */
  datatype Report = Report(rows: seq<Row>, accuracy: real)

  /** One image's line, or the exception it raises. */
  function ImageRow(t: Table<Logits>, samples: Dict<string, ImageEntry>, id: string): Result<Row, Error>
    requires id in samples.m
  {
    if id !in t.m then Err(MissingImage(id))
    else
      var inner := t.m[id];
      var scores := Collected(inner.keys, inner.m);
      if scores == [] then Err(NoScores(id))
      else Ok(Row(samples.m[id].classId, MajorityVote(Votes(scores)), NoneCount(inner.keys, inner.m)))
  }

  /** The lines of the images in `keys`, in order; the first failing image stops it. */
  function ImageRows(t: Table<Logits>, samples: Dict<string, ImageEntry>, keys: seq<string>): Result<seq<Row>, Error>
    requires forall k :: k in keys ==> k in samples.m
  {
    if keys == [] then Ok([])
    else
      match ImageRows(t, samples, keys[..|keys| - 1])
      case Err(e) => Err(e)
      case Ok(rows) =>
        match ImageRow(t, samples, keys[|keys| - 1])
        case Err(e) => Err(e)
        case Ok(row) => Ok(rows + [row])
  }

  /** How many positions agree. */
  function Correct(labels: seq<int>, preds: seq<nat>): nat
    requires |labels| == |preds|
  {
    if labels == [] then 0
    else Correct(labels[..|labels| - 1], preds[..|preds| - 1]) + (if labels[|labels| - 1] == preds[|preds| - 1] then 1 else 0)
  }

  /** `torchmetrics.functional.accuracy(preds, labels)`: the fraction of positions that agree. */
  function Accuracy(labels: seq<int>, preds: seq<nat>): real
    requires |labels| == |preds| > 0
  {
    Correct(labels, preds) as real / |labels| as real
  }

  /** Accuracy lies in [0, 1]; it is 1 exactly when every prediction is right and 0 exactly when none is. */
  lemma AccuracyBounds(labels: seq<int>, preds: seq<nat>)
    requires |labels| == |preds| > 0
    ensures 0.0 <= Accuracy(labels, preds) <= 1.0
    ensures Accuracy(labels, preds) == 1.0 <==> forall i :: 0 <= i < |labels| ==> labels[i] == preds[i]
    ensures Accuracy(labels, preds) == 0.0 <==> forall i :: 0 <= i < |labels| ==> labels[i] != preds[i]
  {
    CorrectCounts(labels, preds);
    RatioBounds(Correct(labels, preds), |labels|);
  }

  /** A count out of `n` read as a fraction: in [0, 1], 1 only for `n` and 0 only for none. */
  lemma RatioBounds(c: int, n: int)
    requires 0 <= c <= n && n > 0
    ensures 0.0 <= c as real / n as real <= 1.0
    ensures c as real / n as real == 1.0 <==> c == n
    ensures c as real / n as real == 0.0 <==> c == 0
  {
    var x := c as real / n as real;
    assert x * n as real == c as real;
  }

  lemma {:induction false} CorrectCounts(labels: seq<int>, preds: seq<nat>)
    requires |labels| == |preds|
    ensures Correct(labels, preds) <= |labels|
    ensures Correct(labels, preds) == |labels| <==> forall i :: 0 <= i < |labels| ==> labels[i] == preds[i]
    ensures Correct(labels, preds) == 0 <==> forall i :: 0 <= i < |labels| ==> labels[i] != preds[i]
  {
    if labels != [] {
      var n := |labels| - 1;
      CorrectCounts(labels[..n], preds[..n]);
      assert forall i :: 0 <= i < n ==> labels[..n][i] == labels[i] && preds[..n][i] == preds[i];
    }
  }

  function Labels(rows: seq<Row>): (r: seq<int>)
    ensures |r| == |rows| && forall i :: 0 <= i < |rows| ==> r[i] == rows[i].target
  {
    seq(|rows|, i requires 0 <= i < |rows| => rows[i].target)
  }

  function VotesOf(rows: seq<Row>): (r: seq<nat>)
    ensures |r| == |rows| && forall i :: 0 <= i < |rows| ==> r[i] == rows[i].vote
  {
    seq(|rows|, i requires 0 <= i < |rows| => rows[i].vote)
  }

  /** `score_dict(img_samples_score_dict, samples_dict)` with the raw-sum branch left out. */
  function ScoreDictSpec(t: Table<Logits>, samples: Dict<string, ImageEntry>): Result<Report, Error>
    requires samples.Valid()
  {
    match ImageRows(t, samples, samples.keys)
    case Err(e) => Err(e)
    case Ok(rows) =>
      if rows == [] then Err(NoImages)
      else Ok(Report(rows, Accuracy(Labels(rows), VotesOf(rows))))
  }

  /** The lines are produced exactly when every image is in the table with at least one score. */
  lemma {:induction false} ImageRowsOk(t: Table<Logits>, samples: Dict<string, ImageEntry>, keys: seq<string>)
    requires forall k :: k in keys ==> k in samples.m
    ensures ImageRows(t, samples, keys).Ok? <==> forall i :: 0 <= i < |keys| ==> ImageRow(t, samples, keys[i]).Ok?
    ensures ImageRows(t, samples, keys).Ok? ==>
      var rows := ImageRows(t, samples, keys).value;
      |rows| == |keys| && forall i :: 0 <= i < |keys| ==> rows[i] == ImageRow(t, samples, keys[i]).value
  {
    if keys != [] {
      var n := |keys| - 1;
      var init := keys[..n];
      ImageRowsOk(t, samples, init);
      assert forall i :: 0 <= i < n ==> init[i] == keys[i];
      var last := ImageRow(t, samples, keys[n]);
      var before := ImageRows(t, samples, init);
      if before.Ok? && last.Ok? {
        var rows := before.value + [last.value];
        assert ImageRows(t, samples, keys) == Ok(rows);
        forall i | 0 <= i < |keys| ensures ImageRow(t, samples, keys[i]).Ok? && rows[i] == ImageRow(t, samples, keys[i]).value {
          if i < n {
            assert rows[i] == before.value[i];
          }
        }
      } else if before.Ok? {
        assert ImageRows(t, samples, keys).Err?;
      } else {
        assert ImageRows(t, samples, keys).Err?;
        var i :| 0 <= i < n && !ImageRow(t, samples, init[i]).Ok?;
        assert !ImageRow(t, samples, keys[i]).Ok?;
      }
    }
  }

  /**
   * Scoring a table: it succeeds exactly when there is at least one image and
   * every image has a score; then there is one (label, vote) pair per image
   * of `samples`, in key order: the label is the image's own, the vote is the
   * majority of its patches' argmax classes, its `None` count and its scores
   * add up to its patches, and the accuracy is the fraction of images voted
   * right.
   */
  lemma ScoreDictReport(t: Table<Logits>, samples: Dict<string, ImageEntry>)
    requires TableValid(t) && samples.Valid()
    ensures ScoreDictSpec(t, samples).Ok? <==>
      |samples.keys| > 0 &&
      forall i :: 0 <= i < |samples.keys| ==>
        samples.keys[i] in t.m && Collected(t.m[samples.keys[i]].keys, t.m[samples.keys[i]].m) != []
    ensures ScoreDictSpec(t, samples).Ok? ==>
      var rep := ScoreDictSpec(t, samples).value;
      var keys := samples.keys;
      |rep.rows| == |keys| && rep.accuracy == Accuracy(Labels(rep.rows), VotesOf(rep.rows)) &&
      forall i :: 0 <= i < |keys| ==>
        keys[i] in t.m &&
        rep.rows[i].target == samples.m[keys[i]].classId &&
        rep.rows[i].vote == MajorityVote(Votes(Collected(t.m[keys[i]].keys, t.m[keys[i]].m))) &&
        rep.rows[i].noneCount + |Collected(t.m[keys[i]].keys, t.m[keys[i]].m)| == |t.m[keys[i]].keys|
  {
    var keys := samples.keys;
    ImageRowsOk(t, samples, keys);
    forall i | 0 <= i < |keys| && keys[i] in t.m
      ensures NoneCount(t.m[keys[i]].keys, t.m[keys[i]].m) + |Collected(t.m[keys[i]].keys, t.m[keys[i]].m)| == |t.m[keys[i]].keys|
    {
      CollectedPlusNone(t.m[keys[i]].keys, t.m[keys[i]].m);
    }
  }

  /** A freshly reset table cannot be scored: every image's scores are all `None`. */
  lemma ScoreDictOfEmptyTableFails(samples: Dict<string, ImageEntry>)
    requires samples.Valid()
    ensures TableValid(EmptyTable<Logits>(samples))
    ensures ScoreDictSpec(EmptyTable<Logits>(samples), samples).Err?
  {
    EmptyTableShape<Logits>(samples);
    var t := EmptyTable<Logits>(samples);
    ScoreDictReport(t, samples);
    if |samples.keys| > 0 {
      var id := samples.keys[0];
      EmptyInnerShape<Logits>(samples.m[id].patches);
      CollectedPlusNone(t.m[id].keys, t.m[id].m);
    }
  }

  /** What `on_validation_epoch_end` returns: its two logged majority-vote accuracies, or the exception. */
  datatype EpochResult = Skipped | Scored(trainAccuracy: real, valAccuracy: real) | Failed(error: Error)

  /** The callback object. `debug_mode`'s printing and the unused `all_patient_targets` are not modelled. */
  class PatientLevelValidation {
    var groupSize: int
    var trainDs: PatchDataset?
    var valDs: PatchDataset?
    var trainSamples: Dict<string, ImageEntry>
    var valSamples: Dict<string, ImageEntry>
    var trainScores: ScoreTable?<Logits>
    var valScores: ScoreTable?<Logits>

    /** After `setup`: the datasets are known, the samples dicts are theirs and the two tables are distinct objects. */
    ghost predicate Ready()
      reads this, trainScores, valScores
    {
      trainDs != null && valDs != null && trainScores != null && valScores != null &&
      trainScores != valScores &&
      trainDs.Valid() && valDs.Valid() &&
      trainSamples == trainDs.samples && valSamples == valDs.samples &&
      TableValid(trainScores.table) && TableValid(valScores.table)
    }

    /** `__init__(group_size)` */
    constructor (groupSize: int)
      ensures this.groupSize == groupSize
      ensures trainDs == null && valDs == null && trainScores == null && valScores == null
    {
      this.groupSize := groupSize;
      trainDs, valDs := null, null;
      trainSamples, valSamples := Empty(), Empty();
      trainScores, valScores := null, null;
    }

    /** `setup`: take the datasets' samples dicts and fresh all-`None` tables over them. */
    method Setup(trainDs: PatchDataset, valDs: PatchDataset)
      requires trainDs.Valid() && valDs.Valid()
      modifies this
      ensures Ready() && groupSize == old(groupSize)
      ensures this.trainDs == trainDs && this.valDs == valDs
      ensures fresh(trainScores) && fresh(valScores)
      ensures trainScores.table == EmptyTable(trainDs.samples) && valScores.table == EmptyTable(valDs.samples)
    {
      this.trainDs, this.valDs := trainDs, valDs;
      trainSamples := trainDs.GetSamplesDict();
      valSamples := valDs.GetSamplesDict();
      trainScores := trainDs.GetImgSamplesScoreDict();
      valScores := valDs.GetImgSamplesScoreDict();
      EmptyTableShape<Logits>(trainDs.samples);
      EmptyTableShape<Logits>(valDs.samples);
    }

    /** `on_train_batch_end`: expand the batch and write its outputs into the training table. */
    method OnTrainBatchEnd(b: Batch, outputs: seq<Logits>) returns (r: Result<(), Error>)
      requires Ready()
      modifies trainScores
      ensures Ready()
      ensures (trainScores.table, r) == UpdateOutcome(old(trainScores.table), Expand(groupSize, b, outputs))
      ensures valScores.table == old(valScores.table)
    {
      var f := Expand(groupSize, b, outputs);
      r := UpdateDicts(f.ids, f.paths, f.outputs, f.targets, trainScores);
    }

    /** `on_validation_batch_end`: the same for the validation table. */
    method OnValidationBatchEnd(b: Batch, outputs: seq<Logits>) returns (r: Result<(), Error>)
      requires Ready()
      modifies valScores
      ensures Ready()
      ensures (valScores.table, r) == UpdateOutcome(old(valScores.table), Expand(groupSize, b, outputs))
      ensures trainScores.table == old(trainScores.table)
    {
      var f := Expand(groupSize, b, outputs);
      r := UpdateDicts(f.ids, f.paths, f.outputs, f.targets, valScores);
    }

    /** `update_dicts`: check the lengths, then `t[img_id][patch_path] = patch_score` position by position. */
    method UpdateDicts(ids: seq<string>, paths: seq<string>, scores: seq<Logits>, targets: seq<int>, t: ScoreTable<Logits>)
      returns (r: Result<(), Error>)
      modifies t
      ensures (t.table, r) == UpdateOutcome(old(t.table), Flat(ids, paths, scores, targets))
    {
      if !(|paths| == |scores| && |scores| == |targets| && |ids| == |paths|) {
        return Err(LengthMismatch);
      }
      ghost var t0 := t.table;
      var n := |ids|;
      ghost var stop := FirstMissing(t0, ids, n);
      for i := 0 to n
        invariant i <= stop
        invariant t.table == Fill(t0, ids, paths, scores, i)
        invariant t.table.m.Keys == t0.m.Keys
      {
        if ids[i] !in t.table.m {
          assert stop == i;
          return Err(MissingImage(ids[i]));
        }
        assert ids[i] in t0.m;
        assert i < stop;
        t.table := Write(t.table, ids[i], paths[i], scores[i]);
      }
      assert stop == n;
      r := Ok(());
    }

    /** `score_dict`: one majority vote per image of `samples`, in key order, and the accuracy of the votes. */
    method ScoreDict(t: ScoreTable<Logits>, samples: Dict<string, ImageEntry>) returns (r: Result<Report, Error>)
      requires samples.Valid()
      ensures r == ScoreDictSpec(t.table, samples)
    {
      var rows: seq<Row> := [];
      var keys := samples.keys;
      for i := 0 to |keys|
        invariant ImageRows(t.table, samples, keys[..i]) == Ok(rows)
      {
        var imgId := keys[i];
        var imgY := samples.m[imgId].classId;
        ImageRowsStep(t.table, samples, keys, i);
        if imgId !in t.table.m {
          ImageRowsStopsAt(t.table, samples, keys, i);
          return Err(MissingImage(imgId));
        }
        var imgYhat, imgYhatNoneCount := CollectScores(t.table.m[imgId]);
        if imgYhat == [] {
          ImageRowsStopsAt(t.table, samples, keys, i);
          return Err(NoScores(imgId));
        }
        rows := rows + [Row(imgY, MajorityVote(Votes(imgYhat)), imgYhatNoneCount)];
      }
      assert keys[..|keys|] == keys;
      if rows == [] {
        return Err(NoImages);
      }
      var y, yHat := Labels(rows), VotesOf(rows);
      r := Ok(Report(rows, Accuracy(y, yHat)));
    }

    /** `on_validation_epoch_end`: score both tables unless sanity checking, then reset them to all `None`. */
    method OnValidationEpochEnd(sanityChecking: bool) returns (r: EpochResult)
      requires Ready()
      modifies this
      ensures Ready() && groupSize == old(groupSize) && trainDs == old(trainDs) && valDs == old(valDs)
      ensures sanityChecking ==> r == Skipped
      ensures !sanityChecking ==> r == match ScoreDictSpec(old(trainScores.table), old(trainSamples))
        case Err(e) => Failed(e)
        case Ok(tr) =>
          match ScoreDictSpec(old(valScores.table), old(valSamples))
          case Err(e) => Failed(e)
          case Ok(va) => Scored(tr.accuracy, va.accuracy)
      ensures r.Failed? ==> trainScores == old(trainScores) && valScores == old(valScores)
      ensures !r.Failed? ==>
        fresh(trainScores) && fresh(valScores) &&
        trainScores.table == EmptyTable(trainDs.samples) && valScores.table == EmptyTable(valDs.samples)
    {
      r := Skipped;
      if !sanityChecking {
        var trainRes := ScoreDict(trainScores, trainSamples);
        if trainRes.Err? {
          return Failed(trainRes.error);
        }
        var valRes := ScoreDict(valScores, valSamples);
        if valRes.Err? {
          return Failed(valRes.error);
        }
        r := Scored(trainRes.value.accuracy, valRes.value.accuracy);
      }
      trainSamples := trainDs.GetSamplesDict();
      valSamples := valDs.GetSamplesDict();
      trainScores := trainDs.GetImgSamplesScoreDict();
      valScores := valDs.GetImgSamplesScoreDict();
      EmptyTableShape<Logits>(trainDs.samples);
      EmptyTableShape<Logits>(valDs.samples);
    }
  }

  /** One more image: its failure ends the lines with that failure, its line is appended otherwise. */
  lemma ImageRowsStep(t: Table<Logits>, samples: Dict<string, ImageEntry>, keys: seq<string>, i: nat)
    requires forall k :: k in keys ==> k in samples.m
    requires i < |keys| && ImageRows(t, samples, keys[..i]).Ok?
    ensures ImageRows(t, samples, keys[..i + 1]) ==
      if ImageRow(t, samples, keys[i]).Err? then Err(ImageRow(t, samples, keys[i]).error)
      else Ok(ImageRows(t, samples, keys[..i]).value + [ImageRow(t, samples, keys[i]).value])
  {
    assert keys[..i + 1][..i] == keys[..i];
  }

  /** Where the scoring loop stops: the lines before image `i` were fine and image `i` failed. */
  lemma ImageRowsStopsAt(t: Table<Logits>, samples: Dict<string, ImageEntry>, keys: seq<string>, i: nat)
    requires samples.Valid() && keys == samples.keys && i < |keys|
    requires ImageRows(t, samples, keys[..i]).Ok?
    requires ImageRow(t, samples, keys[i]).Err?
    ensures ScoreDictSpec(t, samples) == Err(ImageRow(t, samples, keys[i]).error)
  {
    ImageRowsPrefixErr(t, samples, keys, i + 1);
    assert keys[..i + 1][..i] == keys[..i];
  }

  /** Once a prefix of the images fails, every longer one fails the same way. */
  lemma {:induction false} ImageRowsPrefixErr(t: Table<Logits>, samples: Dict<string, ImageEntry>, keys: seq<string>, n: nat)
    requires forall k :: k in keys ==> k in samples.m
    requires 0 < n <= |keys|
    requires ImageRows(t, samples, keys[..n]).Err?
    ensures ImageRows(t, samples, keys).Err? && ImageRows(t, samples, keys).error == ImageRows(t, samples, keys[..n]).error
    decreases |keys| - n
  {
    if n < |keys| {
      assert keys[..n + 1][..n] == keys[..n];
      ImageRowsPrefixErr(t, samples, keys, n + 1);
    } else {
      assert keys[..n] == keys;
    }
  }
}
