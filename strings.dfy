/** Text operations the JavaScript code relies on: Array.prototype.join,
    String.prototype.indexOf (for a character and for a substring) and
    String.prototype.split on a one-character separator. */
module Strings {

  /** The concatenation of all parts, in order. */
  function Concat(parts: seq<string>): (r: string)
    ensures |parts| == 1 ==> r == parts[0]
  {
    if |parts| == 0 then "" else parts[0] + Concat(parts[1..])
  }

  lemma {:induction false} ConcatAppend(a: seq<string>, b: seq<string>)
    ensures Concat(a + b) == Concat(a) + Concat(b)
  {
    if |a| == 0 {
      assert a + b == b;
    } else {
      assert (a + b)[1..] == a[1..] + b;
      ConcatAppend(a[1..], b);
    }
  }

  /** parts.join(sep) */
  function Join(parts: seq<string>, sep: string): string
  {
    if |parts| == 0 then ""
    else if |parts| == 1 then parts[0]
    else parts[0] + sep + Join(parts[1..], sep)
  }

  /** s.indexOf(c): the first position of c in s, or -1. */
  function IndexOf(s: string, c: char): (r: int)
    ensures -1 <= r < |s|
    ensures r == -1 <==> c !in s
    ensures 0 <= r ==> s[r] == c && c !in s[..r]
  {
    if |s| == 0 then -1
    else if s[0] == c then 0
    else
      var k := IndexOf(s[1..], c);
      assert k >= 0 ==> s[..k + 1] == [s[0]] + s[1..][..k];
      if k < 0 then -1 else k + 1
  }

  /** True when pat occurs in s at position i. */
  predicate OccursAt(s: string, pat: string, i: nat)
  {
    i + |pat| <= |s| && s[i..i + |pat|] == pat
  }

  /** Five pieces joined one way or the other give the same text. */
  lemma Regroup(s1: string, s2: string, s3: string, s4: string, s5: string)
    ensures s1 + s2 + (s3 + s4 + s5) == s1 + s2 + s3 + s4 + s5
  {
  }

  /** A slice of the part after a prefix, indexed in the whole. */
  lemma SliceAfterPrefix(x: string, y: string, a: nat, b: nat)
    requires a <= b <= |y|
    ensures (x + y)[|x| + a..|x| + b] == y[a..b]
  {
  }

  /** An occurrence in the part after a prefix is an occurrence in the whole. */
  lemma OccursAfterPrefix(x: string, y: string, pat: string, a: nat)
    requires OccursAt(y, pat, a)
    ensures OccursAt(x + y, pat, |x| + a)
  {
    SliceAfterPrefix(x, y, a, a + |pat|);
  }

  /** s.indexOf(pat): the first position at which pat occurs in s, or -1. */
  function Find(s: string, pat: string): (r: int)
    ensures -1 <= r <= |s|
    ensures 0 <= r ==> OccursAt(s, pat, r)
    ensures forall j: nat :: j < |s| + 1 && (r < 0 || j < r) ==> !OccursAt(s, pat, j)
    decreases |s|
  {
    if |pat| > |s| then -1
    else if s[..|pat|] == pat then 0
    else if |s| == 0 then -1
    else
      var k := Find(s[1..], pat);
      assert forall j: nat :: 1 <= j <= |s| ==> (OccursAt(s, pat, j) <==> OccursAt(s[1..], pat, j - 1)) by {
        forall j: nat | 1 <= j <= |s| ensures OccursAt(s, pat, j) <==> OccursAt(s[1..], pat, j - 1) {
          if j + |pat| <= |s| {
            assert s[1..][j - 1..j - 1 + |pat|] == s[j..j + |pat|];
          }
        }
      }
      if k < 0 then -1 else k + 1
  }

  /** s.split(c) for a one-character separator. */
  function Split(s: string, c: char): (r: seq<string>)
    ensures |r| > 0
    ensures forall i :: 0 <= i < |r| ==> c !in r[i]
    decreases |s|
  {
    var i := IndexOf(s, c);
    if i < 0 then [s]
    else
      var first := s[..i];
      assert c !in first;
      [first] + Split(s[i + 1..], c)
  }

  /** The first c in a + [c] + rest is the one after a, when a has none. */
  lemma {:induction false} IndexOfAfter(a: string, c: char, rest: string)
    requires c !in a
    ensures IndexOf(a + [c] + rest, c) == |a|
  {
    if |a| > 0 {
      assert (a + [c] + rest)[1..] == a[1..] + [c] + rest;
      IndexOfAfter(a[1..], c, rest);
    }
  }

  /** Splitting at the first separator: the text before it is the first part. */
  lemma SplitAfter(a: string, c: char, rest: string)
    requires c !in a
    ensures Split(a + [c] + rest, c) == [a] + Split(rest, c)
  {
    var s := a + [c] + rest;
    IndexOfAfter(a, c, rest);
    assert s[..|a|] == a;
    assert s[|a| + 1..] == rest;
  }

  /** Splitting a join at its separator gives back the parts, when no part
      contains the separator. */
  lemma {:induction false} SplitJoin(parts: seq<string>, c: char)
    requires |parts| > 0
    requires forall i :: 0 <= i < |parts| ==> c !in parts[i]
    ensures Split(Join(parts, [c]), c) == parts
  {
    if |parts| == 1 {
      assert IndexOf(parts[0], c) == -1;
    } else {
      assert Join(parts, [c]) == parts[0] + [c] + Join(parts[1..], [c]);
      SplitAfter(parts[0], c, Join(parts[1..], [c]));
      SplitJoin(parts[1..], c);
      assert parts == [parts[0]] + parts[1..];
    }
  }
}
