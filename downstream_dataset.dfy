/**
 * The older downstream training dataset: every file path is parsed into
 * (split, class, patient) and bucketed; a patient's shuffled patches are cut
 * into full groups which become the entries of the index mapping, optionally
 * subsampled; patients with too few patches can be pruned.
 */
module Downstream {
  import opened Wrappers
  import opened Dicts
  import opened Text
  import opened Grouping

  /** `self.classes` */
  const Classes: seq<string> := ["dog", "fish"]

  /** `self.class_to_idx` */
  const ClassToIdx: map<string, int> := map["dog" := 0, "fish" := 1]

  /** The two splits `make_dataset_dict` creates. */
  const Splits: seq<string> := ["train", "val"]

  /** The four (split, class) buckets. */
  const BucketKeys: seq<(string, string)> := [("train", "dog"), ("train", "fish"), ("val", "dog"), ("val", "fish")]

  /** `data_dict[split][class]`: one insertion-ordered dict `patient_id -> paths` per (split, class) pair. */
  type Buckets = map<(string, string), Dict<string, seq<string>>>

  /** `re.findall(self.ultimate_re, path)`; the regular expression itself is not modelled. */
  type FindAll = string -> seq<string>

  /** The exceptions of the dataset. */
  datatype Error =
    | MatchCount(path: string, n: nat)   // the assertion of `get_set_class_patientid`
    | KeyError                           // an unknown split or class
    | ValueError                         // `random.sample` asked for a negative or too large subset

  /** Every bucket is a well-formed dict. */
  ghost predicate BucketsValid(b: Buckets) {
    forall key :: key in b ==> b[key].Valid()
  }

  /** The four empty buckets `{"train": {"dog": {}, "fish": {}}, "val": {"dog": {}, "fish": {}}}`. */
  function EmptyBuckets(): Buckets {
    map[("train", "dog") := Empty(), ("train", "fish") := Empty(),
        ("val", "dog") := Empty(), ("val", "fish") := Empty()]
  }

  /** The buckets are the (split, class) pairs, all empty. */
  lemma EmptyBucketsShape()
    ensures forall s, c :: (s, c) in EmptyBuckets() <==> s in Splits && c in Classes
    ensures forall key :: key in EmptyBuckets() <==> key in BucketKeys
    ensures BucketsValid(EmptyBuckets()) && forall key :: key in EmptyBuckets() ==> EmptyBuckets()[key] == Empty()
  {
  }

  /** `get_set_class_patientid(path)`: the regex matches, which must be exactly three. */
  function GetSetClassPatientId(findall: FindAll, path: string): (r: Result<seq<string>, Error>)
    ensures r.Ok? <==> |findall(path)| == 3
    ensures r.Ok? ==> r.value == findall(path) && |r.value| == 3
    ensures r.Err? ==> r.error == MatchCount(path, |findall(path)|)
  {
    var matches := findall(path);
    if |matches| == 3 then Ok(matches) else Err(MatchCount(path, |matches|))
  }

  /** The bucket and patient of a path with three matches: the class has its `/` removed. */
  function KeyOf(findall: FindAll, path: string): ((string, string), string)
    requires |findall(path)| == 3
  {
    var ms := findall(path);
    ((ms[0], RemoveChar(ms[1], '/')), ms[2])
  }

  /** `data_dict[split][class][patient]`: append the path, or start the patient's list with it. */
  function AddPath(b: Buckets, key: (string, string), pid: string, path: string): Buckets
    requires key in b
  {
    var d := b[key];
    b[key := d.Put(pid, if pid in d.m then d.m[pid] + [path] else [path])]
  }

  /** `make_dataset_dict()` over `all_filenames`, in order; the first bad path stops it. */
  function DatasetDict(findall: FindAll, paths: seq<string>): Result<Buckets, Error> {
    if paths == [] then Ok(EmptyBuckets())
    else
      var path := paths[|paths| - 1];
      match DatasetDict(findall, paths[..|paths| - 1])
      case Err(e) => Err(e)
      case Ok(b) =>
        match GetSetClassPatientId(findall, path)
        case Err(e) => Err(e)
        case Ok(_) =>
          var (key, pid) := KeyOf(findall, path);
          if key in b then Ok(AddPath(b, key, pid, path)) else Err(KeyError)
  }

  /** A path that parses into a known bucket. */
  predicate Bucketable(findall: FindAll, path: string) {
    |findall(path)| == 3 && KeyOf(findall, path).0 in BucketKeys
  }

  /** The paths of `paths`, in order, that belong to bucket `key` and patient `pid`. */
  function Bucket(findall: FindAll, paths: seq<string>, key: (string, string), pid: string): seq<string>
    requires forall i :: 0 <= i < |paths| ==> Bucketable(findall, paths[i])
  {
    if paths == [] then []
    else
      var path := paths[|paths| - 1];
      assert Bucketable(findall, paths[|paths| - 1]);
      Bucket(findall, paths[..|paths| - 1], key, pid) + (if KeyOf(findall, path) == (key, pid) then [path] else [])
  }

  /** The number of paths held by a dict of patients. */
  function DictSize(keys: seq<string>, m: map<string, seq<string>>): nat {
    if keys == [] then 0
    else
      var k := keys[|keys| - 1];
      DictSize(keys[..|keys| - 1], m) + (if k in m then |m[k]| else 0)
  }

  /** The number of paths held by the four buckets. */
  function BucketsSize(b: Buckets): nat {
    BucketSizeOf(b, BucketKeys)
  }

  function BucketSizeOf(b: Buckets, keys: seq<(string, string)>): nat {
    if keys == [] then 0
    else
      var key := keys[|keys| - 1];
      BucketSizeOf(b, keys[..|keys| - 1]) + (if key in b then DictSize(b[key].keys, b[key].m) else 0)
  }

  /** A dict size ignores a key the key list does not mention. */
  lemma {:induction false} DictSizeOther(keys: seq<string>, m: map<string, seq<string>>, k: string, v: seq<string>)
    requires k !in keys
    ensures DictSize(keys, m[k := v]) == DictSize(keys, m)
  {
    if keys != [] {
      DictSizeOther(keys[..|keys| - 1], m, k, v);
    }
  }

  /** Replacing the list of a key listed once changes the size by the difference in length. */
  lemma {:induction false} DictSizeUpdate(keys: seq<string>, m: map<string, seq<string>>, k: string, v: seq<string>)
    requires Distinct(keys) && k in keys && k in m
    ensures DictSize(keys, m[k := v]) + |m[k]| == DictSize(keys, m) + |v|
  {
    var n := |keys| - 1;
    var init := keys[..n];
    assert Distinct(init);
    if keys[n] == k {
      assert k !in init;
      DictSizeOther(init, m, k, v);
    } else {
      assert k in init;
      DictSizeUpdate(init, m, k, v);
    }
  }

  /** Replacing one bucket changes the total over distinct bucket keys by the difference in size. */
  lemma {:induction false} BucketSizeOfUpdate(b: Buckets, keys: seq<(string, string)>, key: (string, string), d: Dict<string, seq<string>>)
    requires Distinct(keys) && key in b
    ensures BucketSizeOf(b[key := d], keys) + (if key in keys then DictSize(b[key].keys, b[key].m) else 0) ==
      BucketSizeOf(b, keys) + (if key in keys then DictSize(d.keys, d.m) else 0)
  {
    if keys != [] {
      var init := keys[..|keys| - 1];
      assert Distinct(init);
      assert key in keys ==> key in init || key == keys[|keys| - 1];
      BucketSizeOfUpdate(b, init, key, d);
    }
  }

  /** Adding one path to a bucket adds one to the total. */
  lemma AddPathSize(b: Buckets, key: (string, string), pid: string, path: string)
    requires BucketsValid(b) && key in b
    ensures BucketsValid(AddPath(b, key, pid, path))
    ensures AddPath(b, key, pid, path).Keys == b.Keys
    ensures BucketsSize(AddPath(b, key, pid, path)) == BucketsSize(b) + (if key in BucketKeys then 1 else 0)
  {
    var d := b[key];
    var v := if pid in d.m then d.m[pid] + [path] else [path];
    var d2 := d.Put(pid, v);
    if pid in d.m {
      DictSizeUpdate(d.keys, d.m, pid, v);
    } else {
      assert d2.keys == d.keys + [pid];
      assert d2.keys[..|d2.keys| - 1] == d.keys;
      DictSizeOther(d.keys, d.m, pid, v);
    }
    assert DictSize(d2.keys, d2.m) == DictSize(d.keys, d.m) + 1;
    BucketSizeOfUpdate(b, BucketKeys, key, d2);
  }

  /** The buckets never change: each path goes into one of the four. */
  lemma {:induction false} DatasetDictKeys(findall: FindAll, paths: seq<string>)
    ensures DatasetDict(findall, paths).Ok? ==> DatasetDict(findall, paths).value.Keys == EmptyBuckets().Keys
  {
    if paths != [] {
      DatasetDictKeys(findall, paths[..|paths| - 1]);
    }
  }

  /** Empty buckets hold nothing. */
  lemma {:induction false} EmptySize(b: Buckets, keys: seq<(string, string)>)
    requires forall key :: key in b ==> b[key] == Empty()
    ensures BucketSizeOf(b, keys) == 0
  {
    if keys != [] {
      EmptySize(b, keys[..|keys| - 1]);
    }
  }

  /** Once a prefix fails, the whole list fails the same way. */
  lemma {:induction false} DatasetDictStops(findall: FindAll, paths: seq<string>, n: nat)
    requires n <= |paths| && DatasetDict(findall, paths[..n]).Err?
    ensures DatasetDict(findall, paths) == DatasetDict(findall, paths[..n])
  {
    if n < |paths| {
      var init := paths[..|paths| - 1];
      assert init[..n] == paths[..n];
      DatasetDictStops(findall, init, n);
    } else {
      assert paths[..n] == paths;
    }
  }

  /** The first path below `n` that does not parse into a known bucket, else `n`. */
  function FirstBad(findall: FindAll, paths: seq<string>, n: nat): (r: nat)
    requires n <= |paths|
    ensures r <= n
    ensures forall j :: 0 <= j < r ==> Bucketable(findall, paths[j])
    ensures r < n ==> !Bucketable(findall, paths[r])
  {
    if n == 0 then 0
    else if FirstBad(findall, paths, n - 1) < n - 1 then FirstBad(findall, paths, n - 1)
    else if Bucketable(findall, paths[n - 1]) then n
    else n - 1
  }

  /**
   * `make_dataset_dict` succeeds exactly when every path has three matches and
   * names a known split and class; otherwise it fails on the first path that
   * does not, with the assertion when the match count is wrong and with
   * `KeyError` when the bucket is unknown.
   */
  lemma {:induction false} DatasetDictOutcome(findall: FindAll, paths: seq<string>)
    ensures DatasetDict(findall, paths).Ok? <==> FirstBad(findall, paths, |paths|) == |paths|
    ensures DatasetDict(findall, paths).Err? ==>
      var i := FirstBad(findall, paths, |paths|);
      i < |paths| &&
      DatasetDict(findall, paths).error ==
        (if |findall(paths[i])| != 3 then MatchCount(paths[i], |findall(paths[i])|) else KeyError)
  {
    if paths != [] {
      var n := |paths| - 1;
      var init := paths[..n];
      DatasetDictOutcome(findall, init);
      FirstBadPrefix(findall, paths, n);
      if DatasetDict(findall, init).Ok? {
        DatasetDictKeys(findall, init);
        EmptyBucketsShape();
      }
    }
  }

  /** The first bad path of a prefix is found the same way in the whole list. */
  lemma {:induction false} FirstBadPrefix(findall: FindAll, paths: seq<string>, n: nat)
    requires n <= |paths|
    ensures FirstBad(findall, paths[..n], n) == FirstBad(findall, paths, n)
  {
    if n > 0 {
      FirstBadPrefix(findall, paths, n - 1);
      FirstBadPrefixOne(findall, paths, n - 1, n);
    }
  }

  lemma {:induction false} FirstBadPrefixOne(findall: FindAll, paths: seq<string>, k: nat, n: nat)
    requires k <= n <= |paths|
    ensures FirstBad(findall, paths[..n], k) == FirstBad(findall, paths, k)
  {
    if k > 0 {
      FirstBadPrefixOne(findall, paths, k - 1, n);
      assert paths[..n][k - 1] == paths[k - 1];
    }
  }

  /**
   * When it succeeds, the buckets are exactly the four of `EmptyBuckets`;
   * patient `pid` is in bucket `key` exactly when some path parses to them,
   * and then its list is those paths in input order; the buckets together
   * hold as many paths as the input.
   */
  lemma {:induction false} DatasetDictBuckets(findall: FindAll, paths: seq<string>)
    requires forall i :: 0 <= i < |paths| ==> Bucketable(findall, paths[i])
    ensures DatasetDict(findall, paths).Ok?
    ensures var b := DatasetDict(findall, paths).value;
      BucketsValid(b) && b.Keys == EmptyBuckets().Keys && BucketsSize(b) == |paths| &&
      forall key, pid :: key in b ==>
        (pid in b[key].m <==> Bucket(findall, paths, key, pid) != []) &&
        (pid in b[key].m ==> b[key].m[pid] == Bucket(findall, paths, key, pid))
  {
    if paths == [] {
      EmptyBucketsShape();
      EmptySize(EmptyBuckets(), BucketKeys);
    } else {
      var n := |paths| - 1;
      var init := paths[..n];
      var path := paths[n];
      assert forall j :: 0 <= j < n ==> init[j] == paths[j];
      DatasetDictBuckets(findall, init);
      var b := DatasetDict(findall, init).value;
      var (k0, p0) := KeyOf(findall, path);
      var b2 := AddPath(b, k0, p0, path);
      assert DatasetDict(findall, paths) == Ok(b2);
      AddPathSize(b, k0, p0, path);
      forall key, pid | key in b2
        ensures (pid in b2[key].m <==> Bucket(findall, paths, key, pid) != []) &&
          (pid in b2[key].m ==> b2[key].m[pid] == Bucket(findall, paths, key, pid))
      {
        assert Bucket(findall, paths, key, pid) ==
          Bucket(findall, init, key, pid) + (if (key, pid) == (k0, p0) then [path] else []);
        AddPathEntry(b, k0, p0, path, key, pid, Bucket(findall, init, key, pid));
      }
    }
  }

  /** One patient's list after adding a path: extended if the path is theirs, else as before. */
  lemma AddPathEntry(b: Buckets, k0: (string, string), p0: string, path: string,
                     key: (string, string), pid: string, before: seq<string>)
    requires k0 in b && key in b
    requires pid in b[key].m <==> before != []
    requires pid in b[key].m ==> b[key].m[pid] == before
    ensures var b2 := AddPath(b, k0, p0, path);
      var after := before + (if (key, pid) == (k0, p0) then [path] else []);
      key in b2 && (pid in b2[key].m <==> after != []) && (pid in b2[key].m ==> b2[key].m[pid] == after)
  {
  }

  // ----- the index mapping -----

  /** An entry of `train_index_mapping`: `{"label", "patient_id", "data_paths"}`. */
  datatype IndexEntry = IndexEntry(classId: int, patientIds: seq<string>, dataPaths: string)

  /** `[x] * n` */
  function Replicate(x: string, n: int): (r: seq<string>)
    ensures |r| == (if n > 0 then n else 0) && forall i :: 0 <= i < |r| ==> r[i] == x
  {
    seq(if n > 0 then n else 0, _ => x)
  }

  /** The entries of one patient's groups. */
  function EntriesOf(classId: int, pid: string, g: int, groups: seq<seq<string>>): (r: seq<IndexEntry>)
    ensures |r| == |groups|
    ensures forall j :: 0 <= j < |groups| ==> r[j] == IndexEntry(classId, Replicate(pid, g), Join(groups[j]))
  {
    seq(|groups|, j requires 0 <= j < |groups| => IndexEntry(classId, Replicate(pid, g), Join(groups[j])))
  }

  /** The entries of one patient whose patches were shuffled into `order`: one per full group. */
  function PatientEntries(classId: int, pid: string, g: int, order: seq<string>): seq<IndexEntry> {
    EntriesOf(classId, pid, g, FullGroups(order, g))
  }

  /** `orders[j]` is a reordering of the patch list of the `j`-th patient of `keys`. */
  ghost predicate Shuffled(keys: seq<string>, m: map<string, seq<string>>, orders: seq<seq<string>>) {
    |orders| == |keys| &&
    forall j :: 0 <= j < |keys| ==> keys[j] in m && multiset(orders[j]) == multiset(m[keys[j]])
  }

  /** The entries of the patients `keys` of one class, in key order. */
  function ClassEntries(classId: int, keys: seq<string>, g: int, orders: seq<seq<string>>): seq<IndexEntry>
    requires |orders| == |keys|
  {
    if keys == [] then []
    else
      var n := |keys| - 1;
      ClassEntries(classId, keys[..n], g, orders[..n]) + PatientEntries(classId, keys[n], g, orders[n])
  }

  /** One more patient, with its reordering, extends the entries of a class by that patient's entries. */
  lemma ClassEntriesStep(classId: int, keys: seq<string>, m: map<string, seq<string>>, g: int,
                         orders: seq<seq<string>>, order: seq<string>, pj: nat)
    requires pj < |keys| && Shuffled(keys[..pj], m, orders)
    requires keys[pj] in m && multiset(order) == multiset(m[keys[pj]])
    ensures Shuffled(keys[..pj + 1], m, orders + [order])
    ensures ClassEntries(classId, keys[..pj + 1], g, orders + [order]) ==
      ClassEntries(classId, keys[..pj], g, orders) + PatientEntries(classId, keys[pj], g, order)
  {
    assert keys[..pj + 1][..pj] == keys[..pj];
    assert (orders + [order])[..pj] == orders;
  }

  /** The buckets of `classes` exist in split `dtype`. */
  predicate HasClasses(b: Buckets, dtype: string, classes: seq<string>) {
    forall i :: 0 <= i < |classes| ==> classes[i] in ClassToIdx && (dtype, classes[i]) in b
  }

  /** Per class of `classes`, a reordering of each of its patients' lists. */
  ghost predicate ShuffledAll(b: Buckets, dtype: string, classes: seq<string>, orders: seq<seq<seq<string>>>) {
    HasClasses(b, dtype, classes) && |orders| == |classes| &&
    forall i :: 0 <= i < |classes| ==>
      Shuffled(b[(dtype, classes[i])].keys, b[(dtype, classes[i])].m, orders[i])
  }

  /** The index mapping before subsampling: the classes in order, each class's patients in key order. */
  function FullMapping(b: Buckets, dtype: string, g: int, classes: seq<string>, orders: seq<seq<seq<string>>>): seq<IndexEntry>
    requires HasClasses(b, dtype, classes) && |orders| == |classes|
    requires forall i :: 0 <= i < |classes| ==> |orders[i]| == |b[(dtype, classes[i])].keys|
  {
    if classes == [] then []
    else
      var n := |classes| - 1;
      var c := classes[n];
      FullMapping(b, dtype, g, classes[..n], orders[..n]) + ClassEntries(ClassToIdx[c], b[(dtype, c)].keys, g, orders[n])
  }

  /** Python's `int()` of a float: truncation toward zero. */
  function Truncate(x: real): int {
    if x >= 0.0 then x.Floor else -((-x).Floor)
  }

  /** `int(og_size * subset_size)`, with the product taken on exact reals rather than floats. */
  function NewSize(ogSize: nat, subsetSize: real): int {
    Truncate(ogSize as real * subsetSize)
  }

  /** `out` is `|picked|` entries of `full` drawn without replacement, at the positions `picked`. */
  ghost predicate Drawn(full: seq<IndexEntry>, picked: seq<nat>, out: seq<IndexEntry>) {
    |out| == |picked| && Distinct(picked) &&
    forall i :: 0 <= i < |picked| ==> picked[i] < |full| && out[i] == full[picked[i]]
  }

  /** A fraction in [0, 1] always leaves a sample size `random.sample` accepts. */
  lemma NewSizeInRange(ogSize: nat, subsetSize: real)
    requires 0.0 <= subsetSize <= 1.0
    ensures 0 <= NewSize(ogSize, subsetSize) <= ogSize
  {
    var x := ogSize as real * subsetSize;
    ScaleBelow(ogSize as real, subsetSize);
    assert x.Floor as real <= x;
    assert Truncate(x) == x.Floor;
  }

  /** Scaling a non-negative size by a fraction in [0, 1] stays in [0, size]. */
  lemma ScaleBelow(n: real, f: real)
    requires 0.0 <= n && 0.0 <= f <= 1.0
    ensures 0.0 <= n * f <= n
  {
    assert n - n * f == n * (1.0 - f);
  }

  /**
   * One patient's entries: `n / g` of them for `n` patches; each has the
   * class index, `g` copies of the patient id, and `g` comma-joined paths
   * that split back into group `j` of the shuffled list; read in order they
   * are the shuffled list's first `(n / g) * g` elements, so together they
   * use each patch at most as often as the patient has it.
   */
  lemma PatientEntriesShape(classId: int, pid: string, g: int, patches: seq<string>, order: seq<string>)
    requires g >= 1
    requires forall k :: 0 <= k < |patches| ==> Comma !in patches[k]
    requires multiset(order) == multiset(patches)
    ensures |PatientEntries(classId, pid, g, order)| == |patches| / g
    ensures forall j :: 0 <= j < |PatientEntries(classId, pid, g, order)| ==>
      var e := PatientEntries(classId, pid, g, order)[j];
      e.classId == classId && e.patientIds == Replicate(pid, g) && |e.patientIds| == g &&
      Split(e.dataPaths) == FullGroups(order, g)[j] && |Split(e.dataPaths)| == g
    ensures Flatten(FullGroups(order, g)) <= order && |Flatten(FullGroups(order, g))| == (|patches| / g) * g
    ensures multiset(Flatten(FullGroups(order, g))) <= multiset(patches)
  {
    var fg := FullGroups(order, g);
    ShuffledCommaFree(patches, order);
    FullGroupsShape(order, g);
    GroupsSplitJoin(order, g);
    var q := (|order| / g) * g;
    DivMulAtMost(|order|, g);
    PrefixMultiset(order, q);
  }

  /** A reordering has the same length and, like the original, no path with a comma. */
  lemma ShuffledCommaFree(patches: seq<string>, order: seq<string>)
    requires forall k :: 0 <= k < |patches| ==> Comma !in patches[k]
    requires multiset(order) == multiset(patches)
    ensures |order| == |patches|
    ensures forall k :: 0 <= k < |order| ==> Comma !in order[k]
  {
    assert |multiset(order)| == |multiset(patches)|;
    forall k | 0 <= k < |order| ensures Comma !in order[k] {
      assert order[k] in multiset(patches);
    }
  }

  /** The groups of comma-free paths come back from joining and splitting. */
  lemma GroupsSplitJoin(xs: seq<string>, g: int)
    requires g >= 1
    requires forall k :: 0 <= k < |xs| ==> Comma !in xs[k]
    ensures forall j :: 0 <= j < |FullGroups(xs, g)| ==> Split(Join(FullGroups(xs, g)[j])) == FullGroups(xs, g)[j]
  {
    var fg := FullGroups(xs, g);
    FullGroupsCount(xs, g);
    forall j | 0 <= j < |fg| ensures Split(Join(fg[j])) == fg[j] {
      FullGroupsAt(xs, g, j, 0);
      forall r | 0 <= r < |fg[j]| ensures Comma !in fg[j][r] {
        FullGroupsAt(xs, g, j, r);
      }
      SplitJoin(fg[j]);
    }
  }

  /** A prefix holds each element at most as often as the whole list. */
  lemma PrefixMultiset<T>(xs: seq<T>, q: nat)
    requires q <= |xs|
    ensures multiset(xs[..q]) <= multiset(xs)
  {
    assert xs == xs[..q] + xs[q..];
    assert multiset(xs) == multiset(xs[..q]) + multiset(xs[q..]);
  }

  /** `sum(len(patches) // g)` over the patients `keys`. */
  function GroupCount(keys: seq<string>, m: map<string, seq<string>>, g: int): nat {
    if keys == [] || g <= 0 then 0
    else
      var k := keys[|keys| - 1];
      GroupCount(keys[..|keys| - 1], m, g) + (if k in m then |m[k]| / g else 0)
  }

  /** The same summed over the classes of split `dtype`. */
  function MappingCount(b: Buckets, dtype: string, g: int, classes: seq<string>): nat {
    if classes == [] then 0
    else
      var c := classes[|classes| - 1];
      MappingCount(b, dtype, g, classes[..|classes| - 1]) +
        (if (dtype, c) in b then GroupCount(b[(dtype, c)].keys, b[(dtype, c)].m, g) else 0)
  }

  /** The paths of split `dtype` in the buckets of `classes` contain no comma. */
  ghost predicate CommaFree(b: Buckets, dtype: string, classes: seq<string>) {
    forall i, pid, k ::
      (0 <= i < |classes| && (dtype, classes[i]) in b && pid in b[(dtype, classes[i])].m &&
       0 <= k < |b[(dtype, classes[i])].m[pid]|) ==> Comma !in b[(dtype, classes[i])].m[pid][k]
  }

  /** `e` holds `g` paths, all of them paths of one patient of `m`, and `g` copies of that patient's id. */
  ghost predicate OfPatient(e: IndexEntry, m: map<string, seq<string>>, g: int) {
    |Split(e.dataPaths)| == g &&
    exists pid :: pid in m && e.patientIds == Replicate(pid, g) && forall r :: 0 <= r < g ==> Split(e.dataPaths)[r] in m[pid]
  }

  /** A class contributes `len(patches) // g` entries per patient; each entry holds `g` of that patient's paths. */
  lemma {:induction false} ClassEntriesShape(classId: int, keys: seq<string>, m: map<string, seq<string>>, g: int, orders: seq<seq<string>>)
    requires g >= 1 && Shuffled(keys, m, orders)
    requires forall pid, k :: pid in m && 0 <= k < |m[pid]| ==> Comma !in m[pid][k]
    ensures forall e :: e in ClassEntries(classId, keys, g, orders) ==> e.classId == classId && OfPatient(e, m, g)
  {
    if keys != [] {
      var n := |keys| - 1;
      var pid := keys[n];
      assert Shuffled(keys[..n], m, orders[..n]) by {
        forall j | 0 <= j < n ensures keys[..n][j] in m && multiset(orders[..n][j]) == multiset(m[keys[..n][j]]) {
          assert keys[..n][j] == keys[j] && orders[..n][j] == orders[j];
        }
      }
      ClassEntriesShape(classId, keys[..n], m, g, orders[..n]);
      var pe := PatientEntries(classId, pid, g, orders[n]);
      PatientEntriesShape(classId, pid, g, m[pid], orders[n]);
      forall e | e in pe ensures e.classId == classId && OfPatient(e, m, g) {
        var j :| 0 <= j < |pe| && pe[j] == e;
        PatientEntryPaths(orders[n], m[pid], g, j);
        assert forall r :: 0 <= r < g ==> Split(e.dataPaths)[r] in m[pid];
      }
    }
  }

  /** Every path of group `j` of a reordering is one of the patient's patches. */
  lemma PatientEntryPaths(order: seq<string>, patches: seq<string>, g: int, j: nat)
    requires g >= 1 && multiset(order) == multiset(patches)
    requires j < |FullGroups(order, g)|
    ensures forall r :: 0 <= r < |FullGroups(order, g)[j]| ==> FullGroups(order, g)[j][r] in patches
  {
    FullGroupsCount(order, g);
    forall r | 0 <= r < |FullGroups(order, g)[j]| ensures FullGroups(order, g)[j][r] in patches {
      FullGroupsAt(order, g, j, 0);
      FullGroupsAt(order, g, j, r);
      var k := j * g + r;
      assert order[k] in multiset(patches);
    }
  }

  /**
   * Before subsampling, the index mapping has `sum(len(patches) // g)`
   * entries over the patients of the listed classes; every entry carries the
   * index of its class, `g` copies of one patient id of that class, and `g`
   * comma-joined paths, each one of that patient's patches.
   */
  lemma {:induction false} FullMappingShape(b: Buckets, dtype: string, g: int, classes: seq<string>, orders: seq<seq<seq<string>>>)
    requires g >= 1 && BucketsValid(b) && ShuffledAll(b, dtype, classes, orders) && CommaFree(b, dtype, classes)
    ensures forall e :: e in FullMapping(b, dtype, g, classes, orders) ==>
      exists i :: 0 <= i < |classes| && e.classId == ClassToIdx[classes[i]] && OfPatient(e, b[(dtype, classes[i])].m, g)
  {
    if classes != [] {
      var n := |classes| - 1;
      var c := classes[n];
      var init := classes[..n];
      assert forall i :: 0 <= i < n ==> init[i] == classes[i];
      assert ShuffledAll(b, dtype, init, orders[..n]) by {
        forall i | 0 <= i < n ensures orders[..n][i] == orders[i] { }
      }
      FullMappingShape(b, dtype, g, init, orders[..n]);
      var d := b[(dtype, c)];
      forall pid, k | pid in d.m && 0 <= k < |d.m[pid]| ensures Comma !in d.m[pid][k] {
        assert classes[n] == c;
      }
      ClassEntriesShape(ClassToIdx[c], d.keys, d.m, g, orders[n]);
      var front := FullMapping(b, dtype, g, init, orders[..n]);
      var last := ClassEntries(ClassToIdx[c], d.keys, g, orders[n]);
      assert FullMapping(b, dtype, g, classes, orders) == front + last;
      forall e: IndexEntry | e in front + last
        ensures exists i :: 0 <= i < |classes| && e.classId == ClassToIdx[classes[i]] && OfPatient(e, b[(dtype, classes[i])].m, g)
      {
        if e in front {
          var i :| 0 <= i < n && e.classId == ClassToIdx[init[i]] && OfPatient(e, b[(dtype, init[i])].m, g);
          assert init[i] == classes[i];
        } else {
          assert classes[n] == c;
        }
      }
    }
  }

  /** One more class, with the reorderings of its patients, extends the mapping by that class's entries. */
  lemma FullMappingStep(b: Buckets, dtype: string, g: int, classes: seq<string>,
                        orders: seq<seq<seq<string>>>, classOrders: seq<seq<string>>, ci: nat)
    requires ci < |classes| && ShuffledAll(b, dtype, classes[..ci], orders)
    requires classes[ci] in ClassToIdx && (dtype, classes[ci]) in b
    requires Shuffled(b[(dtype, classes[ci])].keys, b[(dtype, classes[ci])].m, classOrders)
    ensures ShuffledAll(b, dtype, classes[..ci + 1], orders + [classOrders])
    ensures FullMapping(b, dtype, g, classes[..ci + 1], orders + [classOrders]) ==
      FullMapping(b, dtype, g, classes[..ci], orders) +
      ClassEntries(ClassToIdx[classes[ci]], b[(dtype, classes[ci])].keys, g, classOrders)
  {
    assert classes[..ci + 1][..ci] == classes[..ci];
    assert (orders + [classOrders])[..ci] == orders;
  }

  /** The number of entries of one class: `sum(len(patches) // g)` over its patients. */
  lemma {:induction false} ClassEntriesCount(classId: int, keys: seq<string>, m: map<string, seq<string>>, g: int, orders: seq<seq<string>>)
    requires Shuffled(keys, m, orders)
    ensures |ClassEntries(classId, keys, g, orders)| == GroupCount(keys, m, g)
  {
    if keys != [] {
      var n := |keys| - 1;
      assert Shuffled(keys[..n], m, orders[..n]) by {
        forall j | 0 <= j < n ensures keys[..n][j] in m && multiset(orders[..n][j]) == multiset(m[keys[..n][j]]) {
          assert keys[..n][j] == keys[j] && orders[..n][j] == orders[j];
        }
      }
      ClassEntriesCount(classId, keys[..n], m, g, orders[..n]);
      assert |orders[n]| == |m[keys[n]]| by {
        assert |multiset(orders[n])| == |multiset(m[keys[n]])|;
      }
      if g >= 1 {
        FullGroupsCount(orders[n], g);
      } else {
        FullGroupsShape(orders[n], g);
      }
    }
  }

  /** The number of entries before subsampling. */
  lemma {:induction false} FullMappingCount(b: Buckets, dtype: string, g: int, classes: seq<string>, orders: seq<seq<seq<string>>>)
    requires ShuffledAll(b, dtype, classes, orders)
    ensures |FullMapping(b, dtype, g, classes, orders)| == MappingCount(b, dtype, g, classes)
  {
    if classes != [] {
      var n := |classes| - 1;
      var c := classes[n];
      assert ShuffledAll(b, dtype, classes[..n], orders[..n]) by {
        assert forall i :: 0 <= i < n ==> classes[..n][i] == classes[i] && orders[..n][i] == orders[i];
      }
      FullMappingCount(b, dtype, g, classes[..n], orders[..n]);
      ClassEntriesCount(ClassToIdx[c], b[(dtype, c)].keys, b[(dtype, c)].m, g, orders[n]);
    }
  }

  /** What `__create_index_mapping__` may return for some shuffles `orders` and some subsample positions `picked`. */
  ghost predicate IndexMappingOutcome(b: Buckets, dtype: string, g: int, subsetSize: Option<real>,
                                      orders: seq<seq<seq<string>>>, picked: seq<nat>, r: Result<seq<IndexEntry>, Error>) {
    (r == Err(KeyError) <==> !HasClasses(b, dtype, Classes)) &&
    (HasClasses(b, dtype, Classes) ==>
      ShuffledAll(b, dtype, Classes, orders) &&
      var full := FullMapping(b, dtype, g, Classes, orders);
      match subsetSize
      case None => r == Ok(full)
      case Some(s) =>
        if NewSize(|full|, s) < 0 || NewSize(|full|, s) > |full| then r == Err(ValueError)
        else r.Ok? && |r.value| == NewSize(|full|, s) && Drawn(full, picked, r.value))
  }

  /** A class bucket missing from split `dtype` is the `KeyError` outcome. */
  lemma MissingClassOutcome(b: Buckets, dtype: string, g: int, subsetSize: Option<real>,
                            orders: seq<seq<seq<string>>>, picked: seq<nat>, ci: nat)
    requires ci < |Classes| && (dtype, Classes[ci]) !in b
    ensures IndexMappingOutcome(b, dtype, g, subsetSize, orders, picked, Err(KeyError))
  {
    assert !HasClasses(b, dtype, Classes);
  }

  /** With every class bucket present, the mapping, subsampled or not, is the outcome. */
  lemma MappedOutcome(b: Buckets, dtype: string, g: int, subsetSize: Option<real>,
                      orders: seq<seq<seq<string>>>, picked: seq<nat>, r: Result<seq<IndexEntry>, Error>)
    requires ShuffledAll(b, dtype, Classes, orders)
    requires subsetSize.None? ==> r == Ok(FullMapping(b, dtype, g, Classes, orders))
    requires subsetSize.Some? ==>
      var full := FullMapping(b, dtype, g, Classes, orders);
      var n := NewSize(|full|, subsetSize.value);
      if n < 0 || n > |full| then r == Err(ValueError)
      else r.Ok? && |r.value| == n && Drawn(full, picked, r.value)
    ensures IndexMappingOutcome(b, dtype, g, subsetSize, orders, picked, r)
  {
  }

  // ----- pruning -----

  /** The patients of `d` with fewer than `minPatches` patches. */
  function BadSet(d: Dict<string, seq<string>>, minPatches: int): set<string> {
    set p | p in d.m && |d.m[p]| < minPatches
  }

  /** `d` without the patients `out`, the others in their order. */
  function PruneBy(d: Dict<string, seq<string>>, out: set<string>): Dict<string, seq<string>> {
    Dict(Drop(d.keys, out), d.m - out)
  }

  /** The buckets after pruning split `dtype`: each class bucket loses its patients with too few patches. */
  function Pruned(b: Buckets, dtype: string, minPatches: int): Buckets {
    map key | key in b :: if key.0 == dtype && key.1 in Classes then PruneBy(b[key], BadSet(b[key], minPatches)) else b[key]
  }

  /**
   * After pruning, a patient stays in a class bucket of `dtype` exactly when
   * it has at least `minPatches` patches; a kept patient keeps its list; the
   * buckets stay well-formed; the other split is unchanged.
   */
  lemma PrunedShape(b: Buckets, dtype: string, minPatches: int)
    requires BucketsValid(b)
    ensures BucketsValid(Pruned(b, dtype, minPatches)) && Pruned(b, dtype, minPatches).Keys == b.Keys
    ensures forall key, pid :: key in b && key.0 == dtype && key.1 in Classes ==>
      (pid in Pruned(b, dtype, minPatches)[key].m <==> pid in b[key].m && |b[key].m[pid]| >= minPatches)
    ensures forall key, pid :: key in b && pid in Pruned(b, dtype, minPatches)[key].m ==>
      pid in b[key].m && Pruned(b, dtype, minPatches)[key].m[pid] == b[key].m[pid]
    ensures forall key :: key in b && key.0 != dtype ==> Pruned(b, dtype, minPatches)[key] == b[key]
  {
    var pb := Pruned(b, dtype, minPatches);
    forall key | key in b ensures pb[key].Valid() {
      var d := b[key];
      var out := BadSet(d, minPatches);
      DropMembers(d.keys, out);
      DropDistinct(d.keys, out);
    }
  }

  /** The patients the removal loop has popped from class `c`, among the first entries of `bad`. */
  function Removed(bad: seq<(string, string, nat)>, c: string): set<string> {
    set j | 0 <= j < |bad| && bad[j].0 == c :: bad[j].1
  }

  /** `[(cls, patient_id, len(paths)) for patient_id in keys if len(paths) < min]` */
  function BadIn(cls: string, keys: seq<string>, m: map<string, seq<string>>, minPatches: int): seq<(string, string, nat)> {
    if keys == [] then []
    else
      var p := keys[|keys| - 1];
      BadIn(cls, keys[..|keys| - 1], m, minPatches) +
        (if p in m && |m[p]| < minPatches then [(cls, p, |m[p]|)] else [])
  }

  /** `bad_patients` over the classes `classes` of split `dtype`. */
  function BadList(b: Buckets, dtype: string, classes: seq<string>, minPatches: int): seq<(string, string, nat)>
    requires forall i :: 0 <= i < |classes| ==> (dtype, classes[i]) in b
  {
    if classes == [] then []
    else
      var c := classes[|classes| - 1];
      BadList(b, dtype, classes[..|classes| - 1], minPatches) + BadIn(c, b[(dtype, c)].keys, b[(dtype, c)].m, minPatches)
  }

  lemma RemovedAppend(x: seq<(string, string, nat)>, y: seq<(string, string, nat)>, c: string)
    ensures Removed(x + y, c) == Removed(x, c) + Removed(y, c)
  {
    var xy := x + y;
    forall p | p in Removed(xy, c) ensures p in Removed(x, c) + Removed(y, c) {
      var j :| 0 <= j < |xy| && xy[j].0 == c && xy[j].1 == p;
      if j >= |x| {
        assert y[j - |x|] == xy[j];
      }
    }
    forall p | p in Removed(x, c) ensures p in Removed(xy, c) {
      var j :| 0 <= j < |x| && x[j].0 == c && x[j].1 == p;
      assert xy[j] == x[j];
    }
    forall p | p in Removed(y, c) ensures p in Removed(xy, c) {
      var j :| 0 <= j < |y| && y[j].0 == c && y[j].1 == p;
      assert xy[|x| + j] == y[j];
    }
  }

  /** One class's bad entries name only that class, and exactly its patients with too few patches. */
  lemma {:induction false} RemovedBadIn(cls: string, keys: seq<string>, m: map<string, seq<string>>, minPatches: int, c: string)
    ensures forall j :: 0 <= j < |BadIn(cls, keys, m, minPatches)| ==> BadIn(cls, keys, m, minPatches)[j].0 == cls
    ensures Removed(BadIn(cls, keys, m, minPatches), c) ==
      if c == cls then (set p | p in keys && p in m && |m[p]| < minPatches) else {}
  {
    if keys != [] {
      var n := |keys| - 1;
      var p := keys[n];
      RemovedBadIn(cls, keys[..n], m, minPatches, c);
      var tail: seq<(string, string, nat)> := if p in m && |m[p]| < minPatches then [(cls, p, |m[p]|)] else [];
      var init := BadIn(cls, keys[..n], m, minPatches);
      RemovedAppend(init, tail, c);
      assert keys == keys[..n] + [p];
      assert forall q :: q in keys <==> q in keys[..n] || q == p;
      var all := BadIn(cls, keys, m, minPatches);
      assert all == init + tail;
      forall j | 0 <= j < |all| ensures all[j].0 == cls {
        if j >= |init| { assert all[j] == tail[j - |init|]; } else { assert all[j] == init[j]; }
      }
      assert Removed(tail, c) == if c == cls && p in m && |m[p]| < minPatches then {p} else {} by {
        if p in m && |m[p]| < minPatches { assert tail[0] == (cls, p, |m[p]|); }
      }
    }
  }

  /** The whole bad list names only classes of `classes`, and for each exactly its patients with too few patches. */
  lemma {:induction false} RemovedBadList(b: Buckets, dtype: string, classes: seq<string>, minPatches: int, c: string)
    requires forall i :: 0 <= i < |classes| ==> (dtype, classes[i]) in b && b[(dtype, classes[i])].Valid()
    ensures forall j :: 0 <= j < |BadList(b, dtype, classes, minPatches)| ==> BadList(b, dtype, classes, minPatches)[j].0 in classes
    ensures Removed(BadList(b, dtype, classes, minPatches), c) ==
      if c in classes then BadSet(b[(dtype, c)], minPatches) else {}
  {
    if classes != [] {
      var n := |classes| - 1;
      var last := classes[n];
      var init := classes[..n];
      assert forall i :: 0 <= i < n ==> init[i] == classes[i];
      RemovedBadList(b, dtype, init, minPatches, c);
      var d := b[(dtype, last)];
      RemovedBadIn(last, d.keys, d.m, minPatches, c);
      RemovedAppend(BadList(b, dtype, init, minPatches), BadIn(last, d.keys, d.m, minPatches), c);
      assert forall x :: x in classes <==> x in init || x == last;
      var bl := BadList(b, dtype, classes, minPatches);
      var bi := BadList(b, dtype, init, minPatches);
      forall j | 0 <= j < |bl| ensures bl[j].0 in classes {
        if j >= |bi| {
          assert bl[j] == BadIn(last, d.keys, d.m, minPatches)[j - |bi|];
        } else {
          assert bl[j] == bi[j];
        }
      }
      if c == last {
        assert (set p | p in d.keys && p in d.m && |d.m[p]| < minPatches) == BadSet(d, minPatches);
        if c in init {
          assert BadSet(b[(dtype, c)], minPatches) + BadSet(d, minPatches) == BadSet(d, minPatches);
        }
      }
    }
  }

  /** The buckets after popping the patients `bad` names from their class buckets of split `dtype`. */
  function PopAll(b: Buckets, dtype: string, bad: seq<(string, string, nat)>): Buckets {
    map key | key in b :: if key.0 == dtype then PruneBy(b[key], Removed(bad, key.1)) else b[key]
  }

  lemma PopAllNone(b: Buckets, dtype: string)
    requires BucketsValid(b)
    ensures PopAll(b, dtype, []) == b
  {
    forall key | key in b ensures PopAll(b, dtype, [])[key] == b[key] {
      assert Removed([], key.1) == {};
      PruneByNone(b[key]);
    }
  }

  /** Popping the next listed patient is one `pop` on its bucket. */
  lemma PopAllStep(b: Buckets, dtype: string, bad: seq<(string, string, nat)>, x: (string, string, nat))
    requires (dtype, x.0) in b
    ensures var p := PopAll(b, dtype, bad);
      PopAll(b, dtype, bad + [x]) == p[(dtype, x.0) := p[(dtype, x.0)].Remove(x.1)]
  {
    var p := PopAll(b, dtype, bad);
    var key0 := (dtype, x.0);
    forall c ensures Removed(bad + [x], c) == Removed(bad, c) + (if c == x.0 then {x.1} else {}) {
      RemovedAppend(bad, [x], c);
      assert Removed([x], c) == if c == x.0 then {x.1} else {} by {
        if c == x.0 { assert [x][0] == x; }
      }
    }
    PruneByRemove(b[key0], Removed(bad, x.0), x.1);
    var lhs := PopAll(b, dtype, bad + [x]);
    var rhs := p[key0 := p[key0].Remove(x.1)];
    forall key | key in b ensures lhs[key] == rhs[key] {
      if key != key0 && key.0 == dtype {
        assert Removed(bad + [x], key.1) == Removed(bad, key.1);
      }
    }
    assert lhs.Keys == rhs.Keys;
  }

  /** Popping the whole bad list is the pruning. */
  lemma PopAllBad(b: Buckets, dtype: string, minPatches: int)
    requires BucketsValid(b) && HasClasses(b, dtype, Classes)
    ensures PopAll(b, dtype, BadList(b, dtype, Classes, minPatches)) == Pruned(b, dtype, minPatches)
  {
    var bad := BadList(b, dtype, Classes, minPatches);
    forall key | key in b ensures PopAll(b, dtype, bad)[key] == Pruned(b, dtype, minPatches)[key] {
      RemovedBadList(b, dtype, Classes, minPatches, key.1);
      if key.0 == dtype && key.1 !in Classes {
        PruneByNone(b[key]);
      }
    }
  }

  /** Popping one more patient from a pruned dict prunes one more. */
  lemma PruneByRemove(d: Dict<string, seq<string>>, out: set<string>, p: string)
    ensures PruneBy(d, out).Remove(p) == PruneBy(d, out + {p})
  {
    DropDrop(d.keys, out, {p});
    assert (d.m - out) - {p} == d.m - (out + {p});
  }

  /** Pruning nothing changes nothing. */
  lemma PruneByNone(d: Dict<string, seq<string>>)
    requires d.Valid()
    ensures PruneBy(d, {}) == d
  {
    DropNone(d.keys, {});
    assert d.m - {} == d.m;
  }

  /** `len(index_mapping)` as `__init__` leaves it: every full group, or the subsample's size. */
  function MappingLength(b: Buckets, dtype: string, g: int, subsetSize: Option<real>): int {
    var og := MappingCount(b, dtype, g, Classes);
    match subsetSize
    case None => og
    case Some(s) => NewSize(og, s)
  }

  // ----- the dataset object -----

  /** Patient bags for downstream training. The image transform and `__getitem__`'s image loading are not modelled. */
  class DownstreamTrainingDataset {
    const rootDir: string
    const datasetType: string
    const groupSize: int
    const subsetSize: Option<real>
    const minPatchesPerPatient: int
    var datasetDict: Buckets
    var indexMapping: seq<IndexEntry>
    /** The shuffles and the subsample positions `indexMapping` was drawn with. */
    ghost var orders: seq<seq<seq<string>>>
    ghost var picked: seq<nat>

    /** The buckets are well-formed. */
    ghost predicate Valid()
      reads this
    {
      BucketsValid(datasetDict)
    }

    /** `indexMapping` is what `__create_index_mapping__` builds from the current buckets. */
    ghost predicate Indexed()
      reads this
    {
      Valid() && IndexMappingOutcome(datasetDict, datasetType, groupSize, subsetSize, orders, picked, Ok(indexMapping))
    }

    constructor (rootDir: string, datasetType: string, groupSize: int, subsetSize: Option<real>, minPatchesPerPatient: int,
                 datasetDict: Buckets, indexMapping: seq<IndexEntry>, ghost orders: seq<seq<seq<string>>>, ghost picked: seq<nat>)
      ensures this.rootDir == rootDir && this.datasetType == datasetType && this.groupSize == groupSize
      ensures this.subsetSize == subsetSize && this.minPatchesPerPatient == minPatchesPerPatient
      ensures this.datasetDict == datasetDict && this.indexMapping == indexMapping
      ensures this.orders == orders && this.picked == picked
    {
      this.rootDir := rootDir;
      this.datasetType := datasetType;
      this.groupSize := groupSize;
      this.subsetSize := subsetSize;
      this.minPatchesPerPatient := minPatchesPerPatient;
      this.datasetDict := datasetDict;
      this.indexMapping := indexMapping;
      this.orders := orders;
      this.picked := picked;
    }

    /**
     * `__init__(root_dir, dataset_type=..., group_size=..., subset_size=..., min_patches_per_patient=...)`
     * over the files `allFilenames` that the directory globs list, with `findall`
     * the matcher of the path regex. Pruning is not called (it is commented out).
     */
    static method Init(rootDir: string, findall: FindAll, allFilenames: seq<string>, datasetType: string,
                       groupSize: int, subsetSize: Option<real>, minPatchesPerPatient: int)
      returns (r: Result<DownstreamTrainingDataset, Error>)
      ensures DatasetDict(findall, allFilenames).Err? ==> r == Err(DatasetDict(findall, allFilenames).error)
      ensures DatasetDict(findall, allFilenames).Ok? ==>
        var b := DatasetDict(findall, allFilenames).value;
        var og := MappingCount(b, datasetType, groupSize, Classes);
        (!HasClasses(b, datasetType, Classes) ==> r == Err(KeyError)) &&
        (HasClasses(b, datasetType, Classes) ==>
          (r.Err? <==> subsetSize.Some? && (NewSize(og, subsetSize.value) < 0 || NewSize(og, subsetSize.value) > og)) &&
          (r.Err? ==> r == Err(ValueError)))
      ensures r.Ok? ==>
        fresh(r.value) && r.value.Indexed() && Ok(r.value.datasetDict) == DatasetDict(findall, allFilenames) &&
        r.value.datasetType == datasetType && r.value.groupSize == groupSize && r.value.subsetSize == subsetSize &&
        r.value.minPatchesPerPatient == minPatchesPerPatient && r.value.rootDir == rootDir &&
        |r.value.indexMapping| == MappingLength(r.value.datasetDict, datasetType, groupSize, subsetSize)
    {
      var b := MakeDatasetDict(findall, allFilenames);
      if b.Err? {
        return Err(b.error);
      }
      DatasetDictOutcome(findall, allFilenames);
      DatasetDictBuckets(findall, allFilenames);
      var m, orders, picked := CreateIndexMapping(b.value, datasetType, groupSize, subsetSize);
      if HasClasses(b.value, datasetType, Classes) {
        FullMappingCount(b.value, datasetType, groupSize, Classes, orders);
      }
      if m.Err? {
        return Err(m.error);
      }
      var ds := new DownstreamTrainingDataset(rootDir, datasetType, groupSize, subsetSize, minPatchesPerPatient,
                                              b.value, m.value, orders, picked);
      r := Ok(ds);
    }

    /** `make_dataset_dict()`: every path is filed under its split, class and patient, in order. */
    static method MakeDatasetDict(findall: FindAll, allFilenames: seq<string>) returns (r: Result<Buckets, Error>)
      ensures r == DatasetDict(findall, allFilenames)
    {
      var b := EmptyBuckets();
      for i := 0 to |allFilenames|
        invariant DatasetDict(findall, allFilenames[..i]) == Ok(b)
      {
        var path := allFilenames[i];
        assert allFilenames[..i + 1][..i] == allFilenames[..i];
        var matches := GetSetClassPatientId(findall, path);
        if matches.Err? {
          DatasetDictStops(findall, allFilenames, i + 1);
          return Err(matches.error);
        }
        var ms := matches.value;
        var key := (ms[0], RemoveChar(ms[1], '/'));
        if key !in b {
          DatasetDictStops(findall, allFilenames, i + 1);
          return Err(KeyError);
        }
        b := AddPath(b, key, ms[2], path);
      }
      assert allFilenames[..|allFilenames|] == allFilenames;
      r := Ok(b);
    }

    /** `__create_index_mapping__()` on the buckets `b` of split `dtype`. */
    static method CreateIndexMapping(b: Buckets, dtype: string, g: int, subsetSize: Option<real>)
      returns (r: Result<seq<IndexEntry>, Error>, ghost orders: seq<seq<seq<string>>>, ghost picked: seq<nat>)
      requires BucketsValid(b)
      ensures IndexMappingOutcome(b, dtype, g, subsetSize, orders, picked, r)
    {
      var mapping: seq<IndexEntry> := [];
      orders, picked := [], [];
      for ci := 0 to |Classes|
        invariant HasClasses(b, dtype, Classes[..ci])
        invariant ShuffledAll(b, dtype, Classes[..ci], orders)
        invariant mapping == FullMapping(b, dtype, g, Classes[..ci], orders)
      {
        var c := Classes[ci];
        if (dtype, c) !in b {
          MissingClassOutcome(b, dtype, g, subsetSize, orders, picked, ci);
          return Err(KeyError), orders, picked;
        }
        var ce, classOrders := ClassIndexEntries(ClassToIdx[c], b[(dtype, c)], g);
        FullMappingStep(b, dtype, g, Classes, orders, classOrders, ci);
        mapping := mapping + ce;
        orders := orders + [classOrders];
      }
      assert Classes[..|Classes|] == Classes;
      if subsetSize.Some? {
        r, picked := Subsample(mapping, subsetSize.value);
      } else {
        r := Ok(mapping);
      }
      MappedOutcome(b, dtype, g, subsetSize, orders, picked, r);
    }

    /** `random.sample(mapping, int(len(mapping) * subset_size))`, which rejects a size below 0 or above the length. */
    static method Subsample(full: seq<IndexEntry>, subsetSize: real) returns (r: Result<seq<IndexEntry>, Error>, ghost picked: seq<nat>)
      ensures var n := NewSize(|full|, subsetSize);
        if n < 0 || n > |full| then r == Err(ValueError)
        else r.Ok? && |r.value| == n && Drawn(full, picked, r.value)
    {
      var ogSize := |full|;
      var newSize := NewSize(ogSize, subsetSize);
      if newSize < 0 || newSize > ogSize {
        return Err(ValueError), [];
      }
      ghost var first: seq<nat> := seq(newSize, i requires 0 <= i < newSize => i as nat);
      assert Distinct(first);
      var idx: seq<nat> :| |idx| == newSize && Distinct(idx) && forall i :: 0 <= i < |idx| ==> idx[i] < ogSize;
      picked := idx;
      r := Ok(seq(newSize, i requires 0 <= i < newSize => full[idx[i]]));
    }

    /** The entries of one class: its patients in key order. */
    static method ClassIndexEntries(classId: int, d: Dict<string, seq<string>>, g: int)
      returns (entries: seq<IndexEntry>, ghost orders: seq<seq<string>>)
      requires d.Valid()
      ensures Shuffled(d.keys, d.m, orders)
      ensures entries == ClassEntries(classId, d.keys, g, orders)
    {
      entries, orders := [], [];
      for pj := 0 to |d.keys|
        invariant Shuffled(d.keys[..pj], d.m, orders)
        invariant entries == ClassEntries(classId, d.keys[..pj], g, orders)
      {
        var pid := d.keys[pj];
        var pe, order := PatientIndexEntries(classId, pid, d.m[pid], g);
        ClassEntriesStep(classId, d.keys, d.m, g, orders, order, pj);
        entries := entries + pe;
        orders := orders + [order];
      }
      assert d.keys[..|d.keys|] == d.keys;
    }

    /** The entries of one patient: its patches shuffled (`random.sample`), then one entry per full group. */
    static method PatientIndexEntries(classId: int, pid: string, patches: seq<string>, g: int)
      returns (entries: seq<IndexEntry>, ghost order: seq<string>)
      ensures multiset(order) == multiset(patches)
      ensures entries == PatientEntries(classId, pid, g, order)
    {
      var shuffled: seq<string> :| multiset(shuffled) == multiset(patches);
      order := shuffled;
      var groupedList := ZipLongest(shuffled, g);
      entries := [];
      for j := 0 to |groupedList|
        invariant entries == EntriesOf(classId, pid, g, KeepComplete(groupedList[..j]))
      {
        var group := groupedList[j];
        KeepCompleteAppend(groupedList[..j], [group]);
        assert groupedList[..j + 1] == groupedList[..j] + [group];
        assert [group][1..] == [];
        if None !in group {
          assert Complete(group);
          entries := entries + [IndexEntry(classId, Replicate(pid, g), Join(Unwrap(group)))];
        } else {
          assert !Complete(group);
        }
      }
      assert groupedList[..|groupedList|] == groupedList;
    }

    /** `__len__()`: the number of entries of the index mapping. */
    method Length() returns (n: nat)
      requires Valid()
      ensures n == |indexMapping|
      ensures Indexed() ==> n == MappingLength(datasetDict, datasetType, groupSize, subsetSize)
    {
      n := |indexMapping|;
      if Indexed() {
        FullMappingCount(datasetDict, datasetType, groupSize, Classes, orders);
      }
    }

    /**
     * `remove_patients_with_less_than_min_patches()`: in split `datasetType`,
     * every patient with fewer than `minPatchesPerPatient` patches is popped.
     * A missing class bucket raises `KeyError` before anything is popped.
     */
    method RemovePatientsWithLessThanMinPatches() returns (r: Result<(), Error>)
      requires Valid()
      modifies this
      ensures Valid() && indexMapping == old(indexMapping)
      ensures r.Err? <==> !HasClasses(old(datasetDict), datasetType, Classes)
      ensures r.Err? ==> r == Err(KeyError) && datasetDict == old(datasetDict)
      ensures r.Ok? ==> datasetDict == Pruned(old(datasetDict), datasetType, minPatchesPerPatient)
    {
      var bad := FindBadPatients(datasetDict, datasetType, minPatchesPerPatient);
      if bad.Err? {
        return Err(KeyError);
      }
      ghost var orig := datasetDict;
      RemovedBadList(orig, datasetType, Classes, minPatchesPerPatient, "");
      PopPatients(bad.value);
      PopAllBad(orig, datasetType, minPatchesPerPatient);
      PrunedShape(orig, datasetType, minPatchesPerPatient);
      r := Ok(());
    }

    /** The first loop: `(cls, patient_id, len(paths))` for every patient with too few patches, class by class. */
    static method FindBadPatients(b: Buckets, dtype: string, minPatches: int) returns (r: Result<seq<(string, string, nat)>, Error>)
      requires BucketsValid(b)
      ensures r.Err? <==> !HasClasses(b, dtype, Classes)
      ensures r.Err? ==> r == Err(KeyError)
      ensures r.Ok? ==> r.value == BadList(b, dtype, Classes, minPatches)
    {
      var bad: seq<(string, string, nat)> := [];
      for ci := 0 to |Classes|
        invariant HasClasses(b, dtype, Classes[..ci])
        invariant bad == BadList(b, dtype, Classes[..ci], minPatches)
      {
        var cls := Classes[ci];
        if (dtype, cls) !in b {
          assert !HasClasses(b, dtype, Classes) by { assert Classes[ci] == cls; }
          return Err(KeyError);
        }
        var classBad := BadPatientsOf(cls, b[(dtype, cls)], minPatches);
        assert Classes[..ci + 1][..ci] == Classes[..ci];
        bad := bad + classBad;
      }
      assert Classes[..|Classes|] == Classes;
      r := Ok(bad);
    }

    /** The patients of one class bucket with too few patches, in key order. */
    static method BadPatientsOf(cls: string, d: Dict<string, seq<string>>, minPatches: int) returns (bad: seq<(string, string, nat)>)
      requires d.Valid()
      ensures bad == BadIn(cls, d.keys, d.m, minPatches)
    {
      bad := [];
      for pj := 0 to |d.keys|
        invariant bad == BadIn(cls, d.keys[..pj], d.m, minPatches)
      {
        var pid := d.keys[pj];
        assert d.keys[..pj + 1][..pj] == d.keys[..pj];
        if |d.m[pid]| < minPatches {
          bad := bad + [(cls, pid, |d.m[pid]|)];
        }
      }
      assert d.keys[..|d.keys|] == d.keys;
    }

    /** The second loop: pop each listed patient from its class bucket of split `datasetType`. */
    method PopPatients(bad: seq<(string, string, nat)>)
      requires Valid() && HasClasses(datasetDict, datasetType, Classes)
      requires forall j :: 0 <= j < |bad| ==> bad[j].0 in Classes
      modifies this
      ensures datasetDict == PopAll(old(datasetDict), datasetType, bad) && indexMapping == old(indexMapping)
    {
      ghost var orig := datasetDict;
      PopAllNone(orig, datasetType);
      for k := 0 to |bad|
        invariant datasetDict == PopAll(orig, datasetType, bad[..k]) && indexMapping == old(indexMapping)
      {
        var entry := bad[k];
        var key := (datasetType, entry.0);
        assert key in orig by { assert Classes[0] == "dog" && Classes[1] == "fish"; }
        PopAllStep(orig, datasetType, bad[..k], entry);
        assert bad[..k + 1] == bad[..k] + [entry];
        datasetDict := datasetDict[key := datasetDict[key].Remove(entry.1)];
      }
      assert bad[..|bad|] == bad;
    }
  }
}
