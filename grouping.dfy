/**
 * Chunking a list into bags of `group_size` with
 * `zip_longest(*(iter(xs),) * group_size)` and dropping the bag padded with
 * `None`; `repeat_interleave`; and flattening a list of lists.
 */
module Grouping {
  import opened Wrappers

  /** `s[i]` wrapped in `Some`, element by element. */
  function Lift<T>(s: seq<T>): (r: seq<Option<T>>)
    ensures |r| == |s| && forall i :: 0 <= i < |s| ==> r[i] == Some(s[i])
  {
    seq(|s|, i requires 0 <= i < |s| => Some(s[i]))
  }

  /** `n` copies of `None`. */
  function Nones<T>(n: nat): (r: seq<Option<T>>)
    ensures |r| == n && forall i :: 0 <= i < n ==> r[i] == None
  {
    seq(n, i => None)
  }

  /**
   * `list(zip_longest(*(iter(xs),) * g))`: consecutive tuples of `g` items;
   * the last is padded with `None` when `g` does not divide `|xs|`; no tuple
   * at all when `g <= 0` (an empty argument list).
   */
  function ZipLongest<T>(xs: seq<T>, g: int): seq<seq<Option<T>>>
    decreases |xs|
  {
    if g <= 0 || xs == [] then []
    else if |xs| >= g then [Lift(xs[..g])] + ZipLongest(xs[g..], g)
    else [Lift(xs) + Nones(g - |xs|)]
  }

  /** `None not in group` */
  predicate Complete<T>(group: seq<Option<T>>) {
    forall i :: 0 <= i < |group| ==> group[i].Some?
  }

  function Unwrap<T>(group: seq<Option<T>>): (r: seq<T>)
    requires Complete(group)
    ensures |r| == |group| && forall i :: 0 <= i < |group| ==> group[i] == Some(r[i])
  {
    seq(|group|, i requires 0 <= i < |group| => group[i].value)
  }

  /** The tuples without `None`, in order, as lists. */
  function KeepComplete<T>(groups: seq<seq<Option<T>>>): seq<seq<T>> {
    if groups == [] then []
    else (if Complete(groups[0]) then [Unwrap(groups[0])] else []) + KeepComplete(groups[1..])
  }

  lemma {:induction false} KeepCompleteAppend<T>(a: seq<seq<Option<T>>>, b: seq<seq<Option<T>>>)
    ensures KeepComplete(a + b) == KeepComplete(a) + KeepComplete(b)
  {
    if a != [] {
      var head := if Complete(a[0]) then [Unwrap(a[0])] else [];
      assert (a + b)[0] == a[0];
      assert (a + b)[1..] == a[1..] + b;
      KeepCompleteAppend(a[1..], b);
      calc {
        KeepComplete(a + b);
        head + KeepComplete(a[1..] + b);
        head + (KeepComplete(a[1..]) + KeepComplete(b));
        (head + KeepComplete(a[1..])) + KeepComplete(b);
        KeepComplete(a) + KeepComplete(b);
      }
    } else {
      assert a + b == b;
    }
  }

  /** The bags a list of patches yields: the complete tuples of `ZipLongest`. */
  function FullGroups<T>(xs: seq<T>, g: int): seq<seq<T>> {
    KeepComplete(ZipLongest(xs, g))
  }

  /** `[item for sublist in xss for item in sublist]` */
  function Flatten<T>(xss: seq<seq<T>>): seq<T> {
    if xss == [] then [] else xss[0] + Flatten(xss[1..])
  }

  lemma {:induction false} FlattenSnoc<T>(xss: seq<seq<T>>, x: seq<T>)
    ensures Flatten(xss + [x]) == Flatten(xss) + x
  {
    if xss != [] {
      assert (xss + [x])[1..] == xss[1..] + [x];
      FlattenSnoc(xss[1..], x);
    }
  }

  /** Euclidean division by `g` is unique. */
  lemma DivModUnique(a: int, g: int, q: int, r: int)
    requires g > 0 && 0 <= r < g && a == q * g + r
    ensures a / g == q && a % g == r
  {
    var q2, r2 := a / g, a % g;
    assert a == q2 * g + r2;
    if q2 > q {
      MulAtLeast(q2 - q, g);
    } else if q2 < q {
      MulAtLeast(q - q2, g);
    }
  }

  lemma MulAtLeast(x: int, g: int)
    requires x >= 1 && g >= 1
    ensures x * g >= g
  {
    assert x * g == (x - 1) * g + g;
  }

  /** Taking one bag's worth off the front lowers the quotient by one. */
  lemma DivStep(k: int, g: int)
    requires g > 0 && k >= g
    ensures (k - g) / g == k / g - 1 && (k - g) % g == k % g
  {
    var q, r := k / g, k % g;
    assert k - g == (q - 1) * g + r;
    DivModUnique(k - g, g, q - 1, r);
  }

  /**
   * Bagging: a list of `n` patches yields exactly `n / g` bags of `g` patches
   * (none when `g <= 0`); read in order they are the first `(n / g) * g`
   * patches; only the padded tail tuple, present when `g` does not divide
   * `n`, is dropped.
   */
  lemma FullGroupsShape<T>(xs: seq<T>, g: int)
    ensures g <= 0 ==> FullGroups(xs, g) == []
    ensures g >= 1 ==> |FullGroups(xs, g)| == |xs| / g
    ensures forall j :: 0 <= j < |FullGroups(xs, g)| ==> |FullGroups(xs, g)[j]| == g
    ensures g >= 1 ==> Flatten(FullGroups(xs, g)) == xs[..(|xs| / g) * g]
    ensures g >= 1 ==> |ZipLongest(xs, g)| == |FullGroups(xs, g)| + (if |xs| % g == 0 then 0 else 1)
  {
    if g >= 1 {
      FullGroupsCount(xs, g);
      FullGroupsUniform(xs, g);
      FullGroupsFlatten(xs, g);
    }
  }

  lemma {:induction false} FullGroupsCount<T>(xs: seq<T>, g: int)
    requires g >= 1
    decreases |xs|
    ensures |FullGroups(xs, g)| == |xs| / g
    ensures |ZipLongest(xs, g)| == |FullGroups(xs, g)| + (if |xs| % g == 0 then 0 else 1)
  {
    if |xs| >= g {
      FullGroupsCount(xs[g..], g);
      FullGroupsCons(xs, g);
      DivStep(|xs|, g);
    } else {
      FullGroupsShort(xs, g);
      DivModUnique(|xs|, g, 0, |xs|);
    }
  }

  lemma {:induction false} FullGroupsUniform<T>(xs: seq<T>, g: int)
    requires g >= 1
    decreases |xs|
    ensures forall j :: 0 <= j < |FullGroups(xs, g)| ==> |FullGroups(xs, g)[j]| == g
  {
    if |xs| >= g {
      FullGroupsUniform(xs[g..], g);
      FullGroupsCons(xs, g);
    } else {
      FullGroupsShort(xs, g);
    }
  }

  lemma {:induction false} FullGroupsFlatten<T>(xs: seq<T>, g: int)
    requires g >= 1
    decreases |xs|
    ensures Flatten(FullGroups(xs, g)) == xs[..(|xs| / g) * g]
  {
    if |xs| >= g {
      var rest := xs[g..];
      var m := (|rest| / g) * g;
      FullGroupsFlatten(rest, g);
      FullGroupsCons(xs, g);
      FlattenCons(xs[..g], FullGroups(rest, g));
      QuotientStep(|xs|, g);
      DivMulAtMost(|rest|, g);
      PrefixSplit(xs, g, m);
    } else {
      FullGroupsShort(xs, g);
      DivModUnique(|xs|, g, 0, |xs|);
    }
  }

  lemma FlattenCons<T>(x: seq<T>, xss: seq<seq<T>>)
    ensures Flatten([x] + xss) == x + Flatten(xss)
  {
    assert ([x] + xss)[1..] == xss;
  }

  /** One more full bag of `g` adds `g` to the covered prefix. */
  lemma QuotientStep(n: int, g: int)
    requires g > 0 && n >= g
    ensures (n / g) * g == g + ((n - g) / g) * g
  {
    DivStep(n, g);
    MulStep((n - g) / g, g);
  }

  lemma PrefixSplit<T>(xs: seq<T>, g: nat, m: nat)
    requires g + m <= |xs|
    ensures xs[..g + m] == xs[..g] + xs[g..][..m]
  {
  }

  /** A list with at least `g` patches: its first bag is its first `g` patches. */
  lemma FullGroupsCons<T>(xs: seq<T>, g: int)
    requires g >= 1 && |xs| >= g
    ensures FullGroups(xs, g) == [xs[..g]] + FullGroups(xs[g..], g)
    ensures |ZipLongest(xs, g)| == 1 + |ZipLongest(xs[g..], g)|
  {
    var head := Lift(xs[..g]);
    var zl := ZipLongest(xs, g);
    assert zl == [head] + ZipLongest(xs[g..], g);
    assert zl[1..] == ZipLongest(xs[g..], g);
    assert Complete(head);
    assert Unwrap(head) == xs[..g];
  }

  /** Fewer than `g` patches: one padded tuple (none if empty) and no bag. */
  lemma FullGroupsShort<T>(xs: seq<T>, g: int)
    requires g >= 1 && |xs| < g
    ensures FullGroups(xs, g) == []
    ensures |ZipLongest(xs, g)| == if xs == [] then 0 else 1
  {
    if xs != [] {
      var tail := Lift(xs) + Nones(g - |xs|);
      assert !Complete(tail) by { assert tail[|xs|] == None; }
      var zl := ZipLongest(xs, g);
      assert zl == [tail];
      assert zl[1..] == [];
      assert KeepComplete(zl) == [];
    }
  }

  /** `torch.repeat_interleave(xs, g)` / `np.repeat(xs, g)`: each element `g` times in a row. */
  function Repeat<T>(xs: seq<T>, g: nat): seq<T> {
    if xs == [] then [] else seq(g, i => xs[0]) + Repeat(xs[1..], g)
  }

  /** Element `k` of the repetition comes from element `k / g`. */
  lemma {:induction false} RepeatAt<T>(xs: seq<T>, g: nat)
    requires g > 0
    ensures |Repeat(xs, g)| == |xs| * g
    ensures forall k :: 0 <= k < |xs| * g ==> Repeat(xs, g)[k] == xs[k / g]
  {
    RepeatLength(xs, g);
    forall k | 0 <= k < |xs| * g {
      RepeatAtIndex(xs, g, k);
    }
  }

  /** Repetition only repeats: every element of the result is an element of the original. */
  lemma RepeatMembers<T>(xs: seq<T>, g: nat)
    ensures forall k :: 0 <= k < |Repeat(xs, g)| ==> Repeat(xs, g)[k] in xs
  {
    RepeatLength(xs, g);
    if g > 0 {
      forall k | 0 <= k < |Repeat(xs, g)| ensures Repeat(xs, g)[k] in xs {
        RepeatAtIndex(xs, g, k);
      }
    }
  }

  lemma {:induction false} RepeatLength<T>(xs: seq<T>, g: nat)
    ensures |Repeat(xs, g)| == |xs| * g
  {
    if xs != [] {
      RepeatLength(xs[1..], g);
      MulStep(|xs| - 1, g);
    }
  }

  lemma MulStep(n: int, g: int)
    ensures (n + 1) * g == n * g + g
  {
  }

  /** Position `q * g + r` of the repetition, for `r < g`, holds element `q`. */
  lemma {:induction false} RepeatAtOne<T>(xs: seq<T>, g: nat, q: nat, r: nat)
    requires q < |xs| && r < g
    ensures q * g + r < |Repeat(xs, g)| && Repeat(xs, g)[q * g + r] == xs[q]
  {
    RepeatLength(xs, g);
    var head := seq(g, i => xs[0]);
    assert Repeat(xs, g) == head + Repeat(xs[1..], g);
    if q == 0 {
      assert Repeat(xs, g)[r] == head[r];
    } else {
      var k := (q - 1) * g + r;
      MulStep(q - 1, g);
      assert q * g + r == g + k;
      RepeatAtOne(xs[1..], g, q - 1, r);
      assert Repeat(xs, g)[g + k] == Repeat(xs[1..], g)[k];
    }
  }

  lemma RepeatAtIndex<T>(xs: seq<T>, g: nat, k: nat)
    requires g > 0 && k < |xs| * g
    ensures k < |Repeat(xs, g)| && k / g < |xs| && Repeat(xs, g)[k] == xs[k / g]
  {
    var q, r := k / g, k % g;
    DivModParts(k, g);
    QuotientBelow(k, g, |xs|);
    RepeatAtOne(xs, g, q, r);
  }

  lemma DivModParts(k: int, g: int)
    requires g > 0
    ensures k == (k / g) * g + k % g && 0 <= k % g < g
  {
  }

  /** A quotient below `n`: `k < n * g` gives `k / g < n`. */
  lemma QuotientBelow(k: nat, g: int, n: nat)
    requires g > 0 && k < n * g
    ensures k / g < n
  {
    var q := k / g;
    assert k == q * g + k % g;
    if q >= n {
      MulMono(n, q, g);
    }
  }

  /** Flattening lists that all have `g` elements: position `k` is element `k % g` of list `k / g`. */
  lemma {:induction false} FlattenUniformAt<T>(xss: seq<seq<T>>, g: nat)
    requires g > 0
    requires forall j :: 0 <= j < |xss| ==> |xss[j]| == g
    ensures |Flatten(xss)| == |xss| * g
    ensures forall k :: 0 <= k < |xss| * g ==> Flatten(xss)[k] == xss[k / g][k % g]
  {
    FlattenUniformLength(xss, g);
    forall k | 0 <= k < |xss| * g {
      FlattenUniformAtOne(xss, g, k);
    }
  }

  lemma {:induction false} FlattenUniformLength<T>(xss: seq<seq<T>>, g: nat)
    requires forall j :: 0 <= j < |xss| ==> |xss[j]| == g
    ensures |Flatten(xss)| == |xss| * g
  {
    if xss != [] {
      FlattenUniformLength(xss[1..], g);
      MulStep(|xss| - 1, g);
    }
  }

  lemma FlattenUniformAtOne<T>(xss: seq<seq<T>>, g: nat, k: nat)
    requires g > 0 && k < |xss| * g
    requires forall j :: 0 <= j < |xss| ==> |xss[j]| == g
    ensures k < |Flatten(xss)| && k / g < |xss| && Flatten(xss)[k] == xss[k / g][k % g]
  {
    var q, r := k / g, k % g;
    DivModParts(k, g);
    QuotientBelow(k, g, |xss|);
    FlattenUniformAtPosition(xss, g, q, r);
  }

  /** Position `q * g + r` of the flattening, for `r < g`, is element `r` of list `q`. */
  lemma {:induction false} FlattenUniformAtPosition<T>(xss: seq<seq<T>>, g: nat, q: nat, r: nat)
    requires q < |xss| && r < g
    requires forall j :: 0 <= j < |xss| ==> |xss[j]| == g
    ensures q * g + r < |Flatten(xss)| && Flatten(xss)[q * g + r] == xss[q][r]
  {
    FlattenUniformLength(xss, g);
    FlattenCons(xss[0], xss[1..]);
    assert xss == [xss[0]] + xss[1..];
    if q == 0 {
      assert Flatten(xss)[r] == xss[0][r];
    } else {
      var k := (q - 1) * g + r;
      MulStep(q - 1, g);
      assert q * g + r == g + k;
      FlattenUniformAtPosition(xss[1..], g, q - 1, r);
      assert Flatten(xss)[g + k] == Flatten(xss[1..])[k];
    }
  }

  /** Element `r` of bag `j` is patch `j*g + r`. */
  lemma FullGroupsAt<T>(xs: seq<T>, g: int, j: nat, r: nat)
    requires g >= 1 && j < |xs| / g && r < g
    ensures 0 <= j * g + r < |xs| && j < |FullGroups(xs, g)| && |FullGroups(xs, g)[j]| == g
    ensures FullGroups(xs, g)[j][r] == xs[j * g + r]
  {
    MulMono(0, j, g);
    var fg := FullGroups(xs, g);
    var q := |xs| / g;
    var k := j * g + r;
    FullGroupsShape(xs, g);
    DivMulAtMost(|xs|, g);
    FlattenUniformAtPosition(fg, g, j, r);
    assert xs[..q * g][k] == xs[k];
  }

  /** Bag `j` is the slice of patches `j*g .. j*g + g - 1`. */
  lemma FullGroupsSlice<T>(xs: seq<T>, g: int, j: nat)
    requires g >= 1 && j < |xs| / g
    ensures 0 <= j * g && j * g + g <= |xs| && j < |FullGroups(xs, g)|
    ensures FullGroups(xs, g)[j] == xs[j * g..j * g + g]
  {
    var lo := j * g;
    FullGroupsAt(xs, g, j, g - 1);
    forall r | 0 <= r < g ensures FullGroups(xs, g)[j][r] == xs[lo..lo + g][r] {
      FullGroupsAt(xs, g, j, r);
    }
  }

  lemma DivMulAtMost(n: nat, g: int)
    requires g >= 1
    ensures 0 <= (n / g) * g <= n
  {
    var q, r := n / g, n % g;
    assert n == q * g + r;
    MulMono(0, q, g);
  }

  lemma MulMono(a: nat, b: nat, g: nat)
    requires a <= b
    ensures a * g <= b * g
  {
    assert b * g == a * g + (b - a) * g;
  }
}
