/**
 * The string operations the bookkeeping relies on: `",".join(...)`,
 * `s.split(",")`, `os.path.join` (POSIX) and `s.replace(c, "")`.
 */
module Text {

  /** The separator of patch paths inside one grouped sample. */
  const Comma: char := ','

  /** The first position of `c` in `s`, or `|s|` when there is none (`s.find(c)` with -1 as `|s|`). */
  function IndexOf(s: string, c: char): (i: nat)
    ensures i <= |s|
    ensures i < |s| ==> s[i] == c
    ensures forall j :: 0 <= j < i ==> s[j] != c
  {
    if s == [] then 0 else if s[0] == c then 0 else 1 + IndexOf(s[1..], c)
  }

  /** `",".join(ps)` */
  function Join(ps: seq<string>): string {
    if ps == [] then ""
    else if |ps| == 1 then ps[0]
    else ps[0] + [Comma] + Join(ps[1..])
  }

  /** `s.split(",")`: the pieces between commas, empty pieces included. */
  function Split(s: string): (r: seq<string>)
    decreases |s|
  {
    var i := IndexOf(s, Comma);
    if i == |s| then [s] else [s[..i]] + Split(s[i + 1..])
  }

  /** Splitting never yields an empty list, and no piece contains a comma. */
  lemma {:induction false} SplitPieces(s: string)
    decreases |s|
    ensures |Split(s)| >= 1
    ensures forall k :: 0 <= k < |Split(s)| ==> Comma !in Split(s)[k]
  {
    var i := IndexOf(s, Comma);
    if i < |s| {
      SplitPieces(s[i + 1..]);
      var rest := Split(s[i + 1..]);
      forall k | 0 <= k < |Split(s)| ensures Comma !in Split(s)[k] {
        if k > 0 { assert Split(s)[k] == rest[k - 1]; }
      }
    }
  }

  /** Joining the pieces of a split gives back the string. */
  lemma {:induction false} JoinSplit(s: string)
    decreases |s|
    ensures Join(Split(s)) == s
  {
    var i := IndexOf(s, Comma);
    if i < |s| {
      var rest := Split(s[i + 1..]);
      JoinSplit(s[i + 1..]);
      assert |rest| >= 1 by { SplitPieces(s[i + 1..]); }
      JoinAround(s, i, rest);
    }
  }

  /** With the text after comma `i` recovered by `rest`, prefixing the text before it recovers `s`. */
  lemma JoinAround(s: string, i: nat, rest: seq<string>)
    requires i < |s| && s[i] == Comma
    requires |rest| >= 1 && Join(rest) == s[i + 1..]
    ensures Join([s[..i]] + rest) == s
  {
    JoinCons(s[..i], rest);
    assert s == s[..i] + s[i..];
    assert s[i..] == [Comma] + s[i + 1..];
  }

  /** A join of two or more pieces is the first piece, a comma and the join of the rest. */
  lemma JoinCons(p: string, rest: seq<string>)
    requires |rest| >= 1
    ensures Join([p] + rest) == p + [Comma] + Join(rest)
  {
    assert ([p] + rest)[1..] == rest;
  }

  /** Splitting the join of at least one comma-free path gives back those paths. */
  lemma {:induction false} SplitJoin(ps: seq<string>)
    requires |ps| >= 1
    requires forall k :: 0 <= k < |ps| ==> Comma !in ps[k]
    ensures Split(Join(ps)) == ps
  {
    var first := ps[0];
    if |ps| == 1 {
      assert IndexOf(first, Comma) == |first|;
    } else {
      var s := first + [Comma] + Join(ps[1..]);
      assert IndexOf(s, Comma) == |first| by {
        IndexOfPrefix(first, Join(ps[1..]));
      }
      assert s[..|first|] == first;
      assert s[|first| + 1..] == Join(ps[1..]);
      SplitJoin(ps[1..]);
    }
  }

  lemma {:induction false} IndexOfPrefix(a: string, b: string)
    requires Comma !in a
    ensures IndexOf(a + [Comma] + b, Comma) == |a|
  {
    if a != [] {
      assert (a + [Comma] + b)[1..] == a[1..] + [Comma] + b;
      IndexOfPrefix(a[1..], b);
    }
  }

  /** `os.path.join(a, b)` on POSIX: an absolute `b` replaces `a`; otherwise one `/` between them. */
  function PathJoin(a: string, b: string): string {
    if |b| > 0 && b[0] == '/' then b
    else if a == [] || a[|a| - 1] == '/' then a + b
    else a + "/" + b
  }

  /** `os.path.join(root, c, f, p)`, which joins left to right. */
  function PathJoin4(root: string, c: string, f: string, p: string): string {
    PathJoin(PathJoin(PathJoin(root, c), f), p)
  }

  /** For a root without a trailing `/` and plain directory-entry names, the path is `root/c/f/p`. */
  lemma PathJoin4Plain(root: string, c: string, f: string, p: string)
    requires root != [] && root[|root| - 1] != '/'
    requires c != [] && c[0] != '/' && c[|c| - 1] != '/'
    requires f != [] && f[0] != '/' && f[|f| - 1] != '/'
    requires p == [] || p[0] != '/'
    ensures PathJoin4(root, c, f, p) == root + "/" + c + "/" + f + "/" + p
  {
    var rc := root + "/" + c;
    assert rc[|rc| - 1] == c[|c| - 1];
    var rcf := rc + "/" + f;
    assert rcf[|rcf| - 1] == f[|f| - 1];
  }

  /** `s.replace(c, "")` */
  function RemoveChar(s: string, c: char): (r: string)
    ensures c !in r
    ensures forall x :: x in r <==> x in s && x != c
    ensures c !in s ==> r == s
  {
    if s == [] then []
    else if s[0] == c then RemoveChar(s[1..], c)
    else [s[0]] + RemoveChar(s[1..], c)
  }
}
