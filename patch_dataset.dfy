/**
 * `PatchDataset`: the index of a `root/class/image/patch` tree (one entry
 * per image folder with its patch paths and class label), the bags of
 * `group_size` comma-joined paths that the loader serves, the label table
 * and the empty patch-score table.
 */
module PatchDatasets {
  import opened Wrappers
  import opened Dicts
  import opened Text
  import opened Grouping
  import opened ScoreTables

  /** An image folder's entry in `samples`: its patch paths and its class label. */
  datatype ImageEntry = ImageEntry(patches: seq<string>, classId: int)

  /** One element of `grouped_samples`: `(image_id, "p1,p2,...", label)`. */
  datatype Sample = Sample(imageId: string, paths: string, classId: int)

  /** `os.listdir`, as a function of the directory path. */
  type Listing = string -> seq<string>

  // ----- class_to_idx -----

  /** `class_to_idx[class_name] = idx` for each `(idx, class_name)` of `enumerate(classes)`. */
  function ClassIndex(classes: seq<string>): map<string, int> {
    if classes == [] then map[]
    else ClassIndex(classes[..|classes| - 1])[classes[|classes| - 1] := |classes| - 1]
  }

  /**
   * Every listed class gets an index; the index of a class points back at a
   * position holding that class (so no two classes share an index); with
   * distinct names (as a directory listing has) the i-th class gets index i.
   */
  lemma {:induction false} ClassIndexSound(classes: seq<string>)
    ensures ClassIndex(classes).Keys == set c | c in classes
    ensures forall c :: c in ClassIndex(classes) ==>
      0 <= ClassIndex(classes)[c] < |classes| && classes[ClassIndex(classes)[c]] == c
    ensures forall c1, c2 ::
      (c1 in ClassIndex(classes) && c2 in ClassIndex(classes) && ClassIndex(classes)[c1] == ClassIndex(classes)[c2]) ==> c1 == c2
    ensures Distinct(classes) ==> forall i :: 0 <= i < |classes| ==> ClassIndex(classes)[classes[i]] == i
  {
    if classes != [] {
      var init := classes[..|classes| - 1];
      ClassIndexSound(init);
      assert classes == init + [classes[|classes| - 1]];
    }
  }

  lemma {:induction false} ClassIndexCovers(classes: seq<string>)
    ensures forall c :: c in classes ==> c in ClassIndex(classes)
  {
    ClassIndexSound(classes);
  }

  // ----- make_dataset -----

  /** `os.path.join(root, class, folder)`: the directory an image's patches are listed from. */
  function FolderDir(root: string, c: string, f: string): string {
    PathJoin(PathJoin(root, c), f)
  }

  /** The full paths of an image folder's patches, in listing order. */
  function PatchPaths(root: string, listdir: Listing, c: string, f: string): (r: seq<string>)
    ensures |r| == |listdir(FolderDir(root, c, f))|
  {
    var names := listdir(FolderDir(root, c, f));
    seq(|names|, k requires 0 <= k < |names| => PathJoin4(root, c, f, names[k]))
  }

  /** The `(folder, (paths, label))` assignments made for one class, in listing order. */
  function ClassEntries(root: string, listdir: Listing, c: string, classId: int): seq<(string, ImageEntry)> {
    var folders := listdir(PathJoin(root, c));
    seq(|folders|, j requires 0 <= j < |folders| =>
      (folders[j], ImageEntry(PatchPaths(root, listdir, c, folders[j]), classId)))
  }

  /** All assignments `dataset_dict[folder] = ...`, class by class. */
  function AllEntries(root: string, listdir: Listing, classes: seq<string>, cti: map<string, int>): seq<(string, ImageEntry)>
    requires forall c :: c in classes ==> c in cti
  {
    if classes == [] then []
    else AllEntries(root, listdir, classes[..|classes| - 1], cti) +
         ClassEntries(root, listdir, classes[|classes| - 1], cti[classes[|classes| - 1]])
  }

  lemma AllEntriesStep(root: string, listdir: Listing, classes: seq<string>, cti: map<string, int>, i: nat)
    requires i < |classes| && forall c :: c in classes ==> c in cti
    ensures AllEntries(root, listdir, classes[..i + 1], cti) ==
      AllEntries(root, listdir, classes[..i], cti) + ClassEntries(root, listdir, classes[i], cti[classes[i]])
  {
    assert classes[..i + 1][..i] == classes[..i];
  }

  /** One more folder of a class: its assignment extends the dict built so far. */
  lemma FolderStep(root: string, listdir: Listing, c: string, classId: int, before: seq<(string, ImageEntry)>, j: nat)
    requires j < |listdir(PathJoin(root, c))|
    ensures var ce := ClassEntries(root, listdir, c, classId);
      var f := listdir(PathJoin(root, c))[j];
      PutAll(Empty(), before + ce[..j + 1]) ==
        PutAll(Empty(), before + ce[..j]).Put(f, ImageEntry(PatchPaths(root, listdir, c, f), classId))
  {
    var ce := ClassEntries(root, listdir, c, classId);
    assert before + ce[..j + 1] == (before + ce[..j]) + [ce[j]];
    PutAllSnoc(Empty(), before + ce[..j], ce[j]);
  }

  /** Every `dataset_dict[folder] = ...` that `make_dataset` makes over the tree `listdir` describes, in order. */
  function Assignments(root: string, listdir: Listing): seq<(string, ImageEntry)> {
    var classes := listdir(root);
    ClassIndexSound(classes);
    AllEntries(root, listdir, classes, ClassIndex(classes))
  }

  /** The `samples` dict `make_dataset` returns for the tree `listdir` describes. */
  function DatasetDict(root: string, listdir: Listing): Dict<string, ImageEntry> {
    PutAll(Empty(), Assignments(root, listdir))
  }

  lemma {:induction false} AllEntriesFrom(root: string, listdir: Listing, classes: seq<string>, cti: map<string, int>, e: (string, ImageEntry))
    requires forall c :: c in classes ==> c in cti
    requires e in AllEntries(root, listdir, classes, cti)
    ensures exists c, f ::
      c in classes && f in listdir(PathJoin(root, c)) && e == (f, ImageEntry(PatchPaths(root, listdir, c, f), cti[c]))
  {
    var init := classes[..|classes| - 1];
    var c := classes[|classes| - 1];
    if e in AllEntries(root, listdir, init, cti) {
      AllEntriesFrom(root, listdir, init, cti, e);
    } else {
      var ce := ClassEntries(root, listdir, c, cti[c]);
      assert e in ce;
      var j :| 0 <= j < |ce| && ce[j] == e;
      assert c in classes;
    }
  }

  lemma {:induction false} AllEntriesCover(root: string, listdir: Listing, classes: seq<string>, cti: map<string, int>, c: string, f: string)
    requires forall c :: c in classes ==> c in cti
    requires c in classes && f in listdir(PathJoin(root, c))
    ensures exists i :: 0 <= i < |AllEntries(root, listdir, classes, cti)| && AllEntries(root, listdir, classes, cti)[i].0 == f
  {
    var init := classes[..|classes| - 1];
    var last := classes[|classes| - 1];
    var ai := AllEntries(root, listdir, init, cti);
    var a := AllEntries(root, listdir, classes, cti);
    if c in init {
      AllEntriesCover(root, listdir, init, cti, c, f);
      var i :| 0 <= i < |ai| && ai[i].0 == f;
      assert a[i] == ai[i];
    } else {
      assert c == last;
      var folders := listdir(PathJoin(root, c));
      var j :| 0 <= j < |folders| && folders[j] == f;
      assert a[|ai| + j].0 == f;
    }
  }

  /** Class `ci` is the last of `classes` whose listing holds folder `f`. */
  ghost predicate LastListing(root: string, listdir: Listing, classes: seq<string>, f: string, ci: int) {
    0 <= ci < |classes| && f in listdir(PathJoin(root, classes[ci])) &&
    forall cj :: ci < cj < |classes| ==> f !in listdir(PathJoin(root, classes[cj]))
  }

  /**
   * The last assignment to folder `f` is made by the last class whose listing
   * holds `f`, with that class's index and the folder's own patches.
   */
  lemma {:induction false} AllEntriesLast(root: string, listdir: Listing, classes: seq<string>, cti: map<string, int>, f: string, i: nat)
    requires forall c :: c in classes ==> c in cti
    requires i < |AllEntries(root, listdir, classes, cti)| && AllEntries(root, listdir, classes, cti)[i].0 == f
    requires forall j :: i < j < |AllEntries(root, listdir, classes, cti)| ==> AllEntries(root, listdir, classes, cti)[j].0 != f
    ensures exists ci :: LastListing(root, listdir, classes, f, ci) &&
                 AllEntries(root, listdir, classes, cti)[i].1 == ImageEntry(PatchPaths(root, listdir, classes[ci], f), cti[classes[ci]])
  {
    var init := classes[..|classes| - 1];
    var last := classes[|classes| - 1];
    var ai := AllEntries(root, listdir, init, cti);
    var ce := ClassEntries(root, listdir, last, cti[last]);
    var kvs := AllEntries(root, listdir, classes, cti);
    assert kvs == ai + ce;
    var folders := listdir(PathJoin(root, last));
    if f in folders {
      var j :| 0 <= j < |folders| && folders[j] == f;
      assert kvs[|ai| + j].0 == f;
      assert i >= |ai|;
      assert kvs[i] == ce[i - |ai|];
    } else {
      assert ai[i] == kvs[i];
      forall j | i < j < |ai|
        ensures ai[j].0 != f
      {
        assert ai[j] == kvs[j];
      }
      AllEntriesLast(root, listdir, init, cti, f, i);
      var ci :| LastListing(root, listdir, init, f, ci) &&
        ai[i].1 == ImageEntry(PatchPaths(root, listdir, init[ci], f), cti[init[ci]]);
      assert classes[ci] == init[ci];
      forall cj | ci < cj < |classes|
        ensures f !in listdir(PathJoin(root, classes[cj]))
      {
        if cj < |init| { assert classes[cj] == init[cj]; }
      }
    }
  }

  /**
   * The index of the tree: its keys are exactly the image folders listed under
   * the classes; each image holds the label `class_to_idx` of the LAST class
   * listing that folder (a later `dataset_dict[folder] = ...` overwrites an
   * earlier one), and its patches are `os.path.join(root, class, folder, patch)`
   * for that class's listing of the folder, in order.
   */
  lemma DatasetDictEntries(root: string, listdir: Listing)
    ensures DatasetDict(root, listdir).Valid()
    ensures forall f :: f in DatasetDict(root, listdir).m <==>
      exists c :: c in listdir(root) && f in listdir(PathJoin(root, c))
    ensures forall f :: f in DatasetDict(root, listdir).m ==>
      exists ci :: LastListing(root, listdir, listdir(root), f, ci) && listdir(root)[ci] in ClassIndex(listdir(root)) &&
        DatasetDict(root, listdir).m[f] == ImageEntry(PatchPaths(root, listdir, listdir(root)[ci], f), ClassIndex(listdir(root))[listdir(root)[ci]])
  {
    var classes := listdir(root);
    ClassIndexSound(classes);
    var cti := ClassIndex(classes);
    var kvs := AllEntries(root, listdir, classes, cti);
    var d := DatasetDict(root, listdir);
    PutAllValues(Empty(), kvs);
    forall f | f in d.m
      ensures exists ci :: LastListing(root, listdir, classes, f, ci) && classes[ci] in cti &&
                   d.m[f] == ImageEntry(PatchPaths(root, listdir, classes[ci], f), cti[classes[ci]])
    {
      var i := LastWith(kvs, f);
      assert d.m[f] == kvs[i].1;
      AllEntriesLast(root, listdir, classes, cti, f, i);
    }
    forall f | exists c :: c in classes && f in listdir(PathJoin(root, c))
      ensures f in d.m
    {
      var c :| c in classes && f in listdir(PathJoin(root, c));
      AllEntriesCover(root, listdir, classes, cti, c, f);
    }
  }

  /**
   * When no folder name repeats anywhere in the tree, the index's keys are the
   * folders in the order the loops visit them: class by class, each class's
   * folders in listing order.
   */
  lemma DatasetDictKeyOrder(root: string, listdir: Listing)
    requires forall i, j :: 0 <= i < j < |Assignments(root, listdir)| ==>
      Assignments(root, listdir)[i].0 != Assignments(root, listdir)[j].0
    ensures DatasetDict(root, listdir).keys == KeysOf(Assignments(root, listdir))
  {
    PutAllFreshKeys(Empty(), Assignments(root, listdir));
  }

  /** For patch and class names without `/` and a root without a trailing `/`, a stored path is `root/class/folder/patch`. */
  lemma PatchPathsPlain(root: string, listdir: Listing, c: string, f: string, k: nat)
    requires root != [] && root[|root| - 1] != '/'
    requires c != [] && '/' !in c && f != [] && '/' !in f
    requires k < |listdir(FolderDir(root, c, f))| && '/' !in listdir(FolderDir(root, c, f))[k]
    ensures PatchPaths(root, listdir, c, f)[k] == root + "/" + c + "/" + f + "/" + listdir(FolderDir(root, c, f))[k]
  {
    var p := listdir(FolderDir(root, c, f))[k];
    assert p == [] || p[0] in p;
    PathJoin4Plain(root, c, f, p);
  }

  // ----- group_dataset -----

  /** The samples of one image: one per full bag, carrying the image id and label. */
  function ImageSamples(id: string, e: ImageEntry, g: int): seq<Sample> {
    SamplesOf(id, e.classId, FullGroups(e.patches, g))
  }

  function SamplesOf(id: string, classId: int, groups: seq<seq<string>>): (r: seq<Sample>)
    ensures |r| == |groups|
  {
    seq(|groups|, j requires 0 <= j < |groups| => Sample(id, Join(groups[j]), classId))
  }

  /** `group_dataset(samples, g)`: the samples of the images, in key order. */
  function Grouped(keys: seq<string>, m: map<string, ImageEntry>, g: int): seq<Sample>
    requires forall k :: k in keys ==> k in m
  {
    if keys == [] then []
    else Grouped(keys[..|keys| - 1], m, g) + ImageSamples(keys[|keys| - 1], m[keys[|keys| - 1]], g)
  }

  /** The number of bags: `sum(len(paths) // g)` over the images (none for `g <= 0`). */
  function TotalGroups(keys: seq<string>, m: map<string, ImageEntry>, g: int): nat
    requires forall k :: k in keys ==> k in m
  {
    if keys == [] || g <= 0 then 0
    else TotalGroups(keys[..|keys| - 1], m, g) + |m[keys[|keys| - 1]].patches| / g
  }

  /** `__len__`: the grouped dataset has one sample per full bag of every image. */
  lemma {:induction false} GroupedLength(keys: seq<string>, m: map<string, ImageEntry>, g: int)
    requires forall k :: k in keys ==> k in m
    ensures |Grouped(keys, m, g)| == TotalGroups(keys, m, g)
  {
    if keys != [] {
      GroupedLength(keys[..|keys| - 1], m, g);
      FullGroupsShape(m[keys[|keys| - 1]].patches, g);
    }
  }

  /**
   * One image's samples: exactly `n / g` of them for `n` patches; each carries
   * the image id and label; each holds `g` comma-joined paths that split back
   * into patches `j*g .. j*g + g - 1` of the image, so that read in order they
   * are the image's first `(n / g) * g` patches.
   */
  lemma ImageSamplesShape(id: string, e: ImageEntry, g: int)
    requires g >= 1
    requires forall k :: 0 <= k < |e.patches| ==> Comma !in e.patches[k]
    ensures |ImageSamples(id, e, g)| == |e.patches| / g
    ensures forall j :: 0 <= j < |ImageSamples(id, e, g)| ==>
      ImageSamples(id, e, g)[j].imageId == id && ImageSamples(id, e, g)[j].classId == e.classId &&
      0 <= j * g && j * g + g <= |e.patches|
    ensures forall j :: 0 <= j < |ImageSamples(id, e, g)| ==>
      Split(ImageSamples(id, e, g)[j].paths) == e.patches[j * g..j * g + g]
    ensures 0 <= (|e.patches| / g) * g <= |e.patches|
    ensures Flatten(SplitPaths(ImageSamples(id, e, g))) == e.patches[..(|e.patches| / g) * g]
  {
    ImageSamplesFields(id, e, g);
    ImageSamplesFlatten(id, e, g);
  }

  lemma ImageSamplesFields(id: string, e: ImageEntry, g: int)
    requires g >= 1
    requires forall k :: 0 <= k < |e.patches| ==> Comma !in e.patches[k]
    ensures |ImageSamples(id, e, g)| == |e.patches| / g
    ensures forall j :: 0 <= j < |ImageSamples(id, e, g)| ==>
      ImageSamples(id, e, g)[j].imageId == id && ImageSamples(id, e, g)[j].classId == e.classId &&
      0 <= j * g && j * g + g <= |e.patches|
    ensures forall j :: 0 <= j < |ImageSamples(id, e, g)| ==>
      Split(ImageSamples(id, e, g)[j].paths) == e.patches[j * g..j * g + g]
  {
    FullGroupsCount(e.patches, g);
    forall j | 0 <= j < |ImageSamples(id, e, g)| {
      ImageSampleSlice(id, e, g, j);
    }
  }

  /** Sample `j` holds patches `j*g .. j*g + g - 1`. */
  lemma ImageSampleSlice(id: string, e: ImageEntry, g: int, j: nat)
    requires g >= 1
    requires forall k :: 0 <= k < |e.patches| ==> Comma !in e.patches[k]
    requires j < |ImageSamples(id, e, g)|
    ensures ImageSamples(id, e, g)[j].imageId == id && ImageSamples(id, e, g)[j].classId == e.classId &&
      0 <= j * g && j * g + g <= |e.patches|
    ensures Split(ImageSamples(id, e, g)[j].paths) == e.patches[j * g..j * g + g]
  {
    ImageSampleSplits(id, e, g, j);
    FullGroupsCount(e.patches, g);
    FullGroupsSlice(e.patches, g, j);
  }

  lemma ImageSamplesFlatten(id: string, e: ImageEntry, g: int)
    requires g >= 1
    requires forall k :: 0 <= k < |e.patches| ==> Comma !in e.patches[k]
    ensures 0 <= (|e.patches| / g) * g <= |e.patches|
    ensures Flatten(SplitPaths(ImageSamples(id, e, g))) == e.patches[..(|e.patches| / g) * g]
  {
    var fg := FullGroups(e.patches, g);
    var ims := ImageSamples(id, e, g);
    FullGroupsShape(e.patches, g);
    DivMulAtMost(|e.patches|, g);
    forall j | 0 <= j < |ims| ensures SplitPaths(ims)[j] == fg[j] {
      ImageSampleSplits(id, e, g, j);
    }
    assert SplitPaths(ims) == fg;
  }

  /** The comma-split paths of each sample, `[p.split(",") for p in paths]`. */
  function SplitPaths(samples: seq<Sample>): (r: seq<seq<string>>)
    ensures |r| == |samples| && forall j :: 0 <= j < |samples| ==> r[j] == Split(samples[j].paths)
  {
    seq(|samples|, j requires 0 <= j < |samples| => Split(samples[j].paths))
  }

  /** A sample's joined paths split back into its bag. */
  lemma ImageSampleSplits(id: string, e: ImageEntry, g: int, j: nat)
    requires g >= 1
    requires forall k :: 0 <= k < |e.patches| ==> Comma !in e.patches[k]
    requires j < |ImageSamples(id, e, g)|
    ensures j < |FullGroups(e.patches, g)| && Split(ImageSamples(id, e, g)[j].paths) == FullGroups(e.patches, g)[j]
  {
    var fg := FullGroups(e.patches, g);
    FullGroupsShape(e.patches, g);
    forall r | 0 <= r < |fg[j]| ensures Comma !in fg[j][r] {
      FullGroupsAt(e.patches, g, j, r);
    }
    SplitJoin(fg[j]);
  }

  /** Every sample of the grouped dataset belongs to an image of the dict and carries its label. */
  lemma {:induction false} GroupedSamplesFromImages(keys: seq<string>, m: map<string, ImageEntry>, g: int)
    requires forall k :: k in keys ==> k in m
    ensures forall s :: s in Grouped(keys, m, g) ==> s.imageId in keys && s.classId == m[s.imageId].classId
  {
    if keys != [] {
      GroupedSamplesFromImages(keys[..|keys| - 1], m, g);
    }
  }

  // ----- the score table get_img_samples_score_dict builds -----

  /** The assignments `d[p] = None` for each patch path, in order. */
  function NoneEntries<V>(patches: seq<string>): (r: seq<(string, Option<V>)>)
    ensures |r| == |patches| && forall i :: 0 <= i < |patches| ==> r[i] == (patches[i], None)
  {
    seq(|patches|, i requires 0 <= i < |patches| => (patches[i], None))
  }

  /** An image's inner table: every patch path mapped to `None`. */
  function EmptyInner<V>(patches: seq<string>): Dict<string, Option<V>> {
    PutAll(Empty(), NoneEntries(patches))
  }

  /** The assignments `t[img_id] = {...}` for each image, in key order. */
  function InnerEntries<V>(keys: seq<string>, m: map<string, ImageEntry>): (r: seq<(string, Dict<string, Option<V>>)>)
    requires forall k :: k in keys ==> k in m
    ensures |r| == |keys| && forall i :: 0 <= i < |keys| ==> r[i] == (keys[i], EmptyInner(m[keys[i]].patches))
  {
    seq(|keys|, i requires 0 <= i < |keys| => (keys[i], EmptyInner(m[keys[i]].patches)))
  }

  lemma EmptyInnerStep<V>(patches: seq<string>, k: nat)
    requires k < |patches|
    ensures EmptyInner<V>(patches[..k + 1]) == EmptyInner<V>(patches[..k]).Put(patches[k], None)
  {
    assert NoneEntries<V>(patches[..k + 1]) == NoneEntries<V>(patches[..k]) + [(patches[k], None)];
    PutAllSnoc(Empty(), NoneEntries<V>(patches[..k]), (patches[k], None));
  }

  lemma EmptyTableStep<V>(keys: seq<string>, m: map<string, ImageEntry>, i: nat)
    requires i < |keys| && forall k :: k in keys ==> k in m
    ensures PutAll(Empty(), InnerEntries<V>(keys[..i + 1], m)) ==
      PutAll(Empty(), InnerEntries<V>(keys[..i], m)).Put(keys[i], EmptyInner(m[keys[i]].patches))
  {
    var last := (keys[i], EmptyInner<V>(m[keys[i]].patches));
    assert InnerEntries<V>(keys[..i + 1], m) == InnerEntries<V>(keys[..i], m) + [last];
    PutAllSnoc(Empty(), InnerEntries<V>(keys[..i], m), last);
  }

  /** `get_img_samples_score_dict()`: every image of `samples`, every patch `None`. */
  function EmptyTable<V>(samples: Dict<string, ImageEntry>): Table<V>
    requires forall k :: k in samples.keys ==> k in samples.m
  {
    PutAll(Empty(), InnerEntries(samples.keys, samples.m))
  }

  /**
   * The empty score table: its images are the samples' image ids in the same
   * order; an image's patch keys are its patch paths (in order when they are
   * distinct); and every score is `None`.
   */
  lemma EmptyTableShape<V>(samples: Dict<string, ImageEntry>)
    requires samples.Valid()
    ensures TableValid(EmptyTable<V>(samples))
    ensures EmptyTable<V>(samples).keys == samples.keys
    ensures forall id :: id in samples.m ==>
      id in EmptyTable<V>(samples).m && EmptyTable<V>(samples).m[id] == EmptyInner(samples.m[id].patches)
  {
    EmptyTableKeys<V>(samples);
    EmptyTableInner<V>(samples);
  }

  lemma EmptyTableKeys<V>(samples: Dict<string, ImageEntry>)
    requires samples.Valid()
    ensures EmptyTable<V>(samples).keys == samples.keys
  {
    var ks := samples.keys;
    var kvs := InnerEntries<V>(ks, samples.m);
    assert forall i, j :: 0 <= i < j < |kvs| ==> kvs[i].0 != kvs[j].0 by {
      assert Distinct(ks);
    }
    PutAllFreshKeys(Empty(), kvs);
    assert KeysOf(kvs) == ks;
    assert EmptyTable<V>(samples).keys == [] + ks;
  }

  lemma EmptyTableInner<V>(samples: Dict<string, ImageEntry>)
    requires samples.Valid()
    ensures TableValid(EmptyTable<V>(samples))
    ensures forall id :: id in samples.m ==>
      id in EmptyTable<V>(samples).m && EmptyTable<V>(samples).m[id] == EmptyInner(samples.m[id].patches)
  {
    var ks := samples.keys;
    var kvs := InnerEntries<V>(ks, samples.m);
    var t := EmptyTable<V>(samples);
    PutAllValues(Empty(), kvs);
    forall id | id in t.m ensures id in samples.m && t.m[id].Valid() {
      var i :| 0 <= i < |kvs| && kvs[i].0 == id;
      EmptyTableAt<V>(samples, id);
    }
    forall id | id in samples.m {
      EmptyTableAt<V>(samples, id);
    }
  }

  /** The inner table of image `id` is its empty inner table. */
  lemma EmptyTableAt<V>(samples: Dict<string, ImageEntry>, id: string)
    requires samples.Valid() && id in samples.m
    ensures id in EmptyTable<V>(samples).m && EmptyTable<V>(samples).m[id] == EmptyInner(samples.m[id].patches)
    ensures EmptyInner<V>(samples.m[id].patches).Valid()
  {
    var ks := samples.keys;
    var kvs := InnerEntries<V>(ks, samples.m);
    PutAllValues(Empty(), kvs);
    var i :| 0 <= i < |ks| && ks[i] == id;
    assert kvs[i].0 == id;
    assert forall j :: i < j < |kvs| ==> kvs[j].0 != id by { assert Distinct(ks); }
    EmptyInnerShape<V>(samples.m[id].patches);
  }

  /** An image's empty inner table has its patch paths as keys (in order when distinct), all `None`. */
  lemma EmptyInnerShape<V>(patches: seq<string>)
    ensures EmptyInner<V>(patches).Valid()
    ensures forall p :: p in EmptyInner<V>(patches).m <==> p in patches
    ensures forall p :: p in EmptyInner<V>(patches).m ==> EmptyInner<V>(patches).m[p] == None
    ensures Distinct(patches) ==> EmptyInner<V>(patches).keys == patches
  {
    var kvs := NoneEntries<V>(patches);
    var d := EmptyInner<V>(patches);
    PutAllValues(Empty<string, Option<V>>(), kvs);
    forall p | p in d.m ensures p in patches && d.m[p] == None {
      var i := LastWith(kvs, p);
    }
    forall p | p in patches ensures p in d.m {
      var i :| 0 <= i < |patches| && patches[i] == p;
      assert kvs[i].0 == p;
    }
    if Distinct(patches) {
      PutAllFreshKeys(Empty<string, Option<V>>(), kvs);
      assert KeysOf(kvs) == patches;
    }
  }

  // ----- the dataset object -----

  /** The dataset: its index and bags are fixed when it is built. The image transform is not modelled. */
  class PatchDataset {
    const rootDir: string
    const groupSize: int
    const samples: Dict<string, ImageEntry>
    const classToIdx: map<string, int>
    const groupedSamples: seq<Sample>

    /** The fields as `__init__` leaves them. */
    ghost predicate Valid() {
      samples.Valid() && groupedSamples == Grouped(samples.keys, samples.m, groupSize)
    }

    /** `__init__(root_dir, group_size=group_size)` over the tree `listdir` describes. */
    constructor (rootDir: string, listdir: Listing, groupSize: int)
      ensures Valid()
      ensures this.rootDir == rootDir && this.groupSize == groupSize
      ensures samples == DatasetDict(rootDir, listdir)
      ensures classToIdx == ClassIndex(listdir(rootDir))
    {
      var s, cti := MakeDataset(rootDir, listdir);
      DatasetDictEntries(rootDir, listdir);
      var gs := GroupDataset(s, groupSize);
      this.rootDir := rootDir;
      this.groupSize := groupSize;
      samples := s;
      classToIdx := cti;
      groupedSamples := gs;
    }

    /** `make_dataset()`: the class-to-index map and the index of the tree, built by the nested loops. */
    static method MakeDataset(root: string, listdir: Listing) returns (samples: Dict<string, ImageEntry>, classToIdx: map<string, int>)
      ensures classToIdx == ClassIndex(listdir(root))
      ensures samples == DatasetDict(root, listdir)
    {
      var classes := listdir(root);
      classToIdx := ClassToIdx(classes);
      samples := Empty();
      assert classes[..0] == [];
      for i := 0 to |classes|
        invariant samples == PutAll(Empty(), AllEntries(root, listdir, classes[..i], classToIdx))
      {
        var c := classes[i];
        var before := AllEntries(root, listdir, classes[..i], classToIdx);
        var ce := ClassEntries(root, listdir, c, classToIdx[c]);
        var folders := listdir(PathJoin(root, c));
        assert before + ce[..0] == before;
        for j := 0 to |folders|
          invariant samples == PutAll(Empty(), before + ce[..j])
        {
          var f := folders[j];
          var names := listdir(PathJoin(PathJoin(root, c), f));
          var patchPaths := [];
          for k := 0 to |names|
            invariant patchPaths == PatchPaths(root, listdir, c, f)[..k]
          {
            patchPaths := patchPaths + [PathJoin4(root, c, f, names[k])];
          }
          assert patchPaths == PatchPaths(root, listdir, c, f);
          FolderStep(root, listdir, c, classToIdx[c], before, j);
          samples := samples.Put(f, ImageEntry(patchPaths, classToIdx[c]));
        }
        assert ce[..|folders|] == ce;
        AllEntriesStep(root, listdir, classes, classToIdx, i);
      }
      assert classes[..|classes|] == classes;
    }

    /** The first loop of `make_dataset`: `class_to_idx[class_name] = idx` over `enumerate(classes_list)`. */
    static method ClassToIdx(classes: seq<string>) returns (classToIdx: map<string, int>)
      ensures classToIdx == ClassIndex(classes)
      ensures forall c :: c in classes ==> c in classToIdx
    {
      classToIdx := map[];
      for idx := 0 to |classes|
        invariant classToIdx == ClassIndex(classes[..idx])
      {
        assert classes[..idx + 1][..idx] == classes[..idx];
        classToIdx := classToIdx[classes[idx] := idx];
      }
      assert classes[..|classes|] == classes;
      ClassIndexCovers(classes);
    }

    /** `group_dataset(dataset_dict, group_size)`: the bags of every image, in key order. */
    static method GroupDataset(dataset: Dict<string, ImageEntry>, groupSize: int) returns (grouped: seq<Sample>)
      requires dataset.Valid()
      ensures grouped == Grouped(dataset.keys, dataset.m, groupSize)
    {
      grouped := [];
      var keys := dataset.keys;
      for i := 0 to |keys|
        invariant grouped == Grouped(keys[..i], dataset.m, groupSize)
      {
        var imageId := keys[i];
        var entry := dataset.m[imageId];
        var start := grouped;
        var groupedList := ZipLongest(entry.patches, groupSize);
        for j := 0 to |groupedList|
          invariant grouped == start + SamplesOf(imageId, entry.classId, KeepComplete(groupedList[..j]))
        {
          var imageList := groupedList[j];
          KeepCompleteAppend(groupedList[..j], [imageList]);
          assert groupedList[..j + 1] == groupedList[..j] + [imageList];
          assert [imageList][1..] == [];
          if None !in imageList {
            assert Complete(imageList);
            grouped := grouped + [Sample(imageId, Join(Unwrap(imageList)), entry.classId)];
          } else {
            assert !Complete(imageList);
          }
        }
        assert groupedList[..|groupedList|] == groupedList;
        assert keys[..i + 1][..i] == keys[..i];
      }
      assert keys[..|keys|] == keys;
    }

    /** `__len__()`: the number of full bags over all images. */
    method Length() returns (n: nat)
      requires Valid()
      ensures n == TotalGroups(samples.keys, samples.m, groupSize)
    {
      n := |groupedSamples|;
      GroupedLength(samples.keys, samples.m, groupSize);
    }

    /** `get_samples_dict()`: the dataset's own index (not a copy), from which its bags were cut. */
    function GetSamplesDict(): (r: Dict<string, ImageEntry>)
      requires Valid()
      ensures r.Valid() && groupedSamples == Grouped(r.keys, r.m, groupSize)
    {
      samples
    }

    /** `get_label_dict()`: image id to label, over exactly the images of `samples`, in their order. */
    method GetLabelDict() returns (labels: Dict<string, int>)
      requires Valid()
      ensures labels.Valid() && labels.keys == samples.keys
      ensures forall id :: id in samples.m ==> id in labels.m && labels.m[id] == samples.m[id].classId
    {
      labels := Empty();
      var keys := samples.keys;
      for i := 0 to |keys|
        invariant labels.Valid() && labels.keys == keys[..i]
        invariant forall j :: 0 <= j < i ==> labels.m[keys[j]] == samples.m[keys[j]].classId
      {
        assert keys[i] !in keys[..i];
        labels := labels.Put(keys[i], samples.m[keys[i]].classId);
        assert keys[..i + 1] == keys[..i] + [keys[i]];
      }
      assert keys[..|keys|] == keys;
    }

    /** `get_img_samples_score_dict()`: a NEW table, all `None`, over the images and patches of `samples`. */
    method GetImgSamplesScoreDict<V>() returns (t: ScoreTable<V>)
      requires Valid()
      ensures fresh(t) && t.table == EmptyTable(samples)
    {
      var table: Table<V> := Empty();
      var keys := samples.keys;
      for i := 0 to |keys|
        invariant table == PutAll(Empty(), InnerEntries(keys[..i], samples.m))
      {
        var imgId := keys[i];
        var patches := samples.m[imgId].patches;
        var inner: Dict<string, Option<V>> := Empty();
        for k := 0 to |patches|
          invariant inner == EmptyInner(patches[..k])
        {
          EmptyInnerStep<V>(patches, k);
          inner := inner.Put(patches[k], None);
        }
        assert patches[..|patches|] == patches;
        EmptyTableStep<V>(keys, samples.m, i);
        table := table.Put(imgId, inner);
      }
      assert keys[..|keys|] == keys;
      t := new ScoreTable(table);
    }
  }
}
