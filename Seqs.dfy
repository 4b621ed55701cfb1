/**
  Facts about slicing and appending sequences, stated generically so that the element type's
  functions do not enter the proofs that use them.
*/
module Seqs {
  /** A suffix cut at two points. */
  lemma SliceThree<T>(s: seq<T>, i: nat, k: nat, e: nat)
    requires i <= k <= e <= |s|
    ensures s[i..] == s[i..k] + s[k..e] + s[e..]
  {
  }

  /** A sequence cut at three points. */
  lemma SliceFour<T>(s: seq<T>, a: nat, b: nat, c: nat)
    requires a <= b <= c <= |s|
    ensures s == s[..a] + s[a..b] + s[b..c] + s[c..]
  {
    assert s == s[..a] + s[a..];
    SliceThree(s, a, b, c);
  }

  /** Indexing a concatenation. */
  lemma AppendAt<T>(a: seq<T>, b: seq<T>, i: nat)
    requires i < |a| + |b|
    ensures (a + b)[i] == if i < |a| then a[i] else b[i - |a|]
  {
  }

  /** A prefix one element longer. */
  lemma TakeNext<T>(xs: seq<T>, n: nat)
    requires n < |xs|
    ensures xs[..n + 1] == xs[..n] + [xs[n]]
  {
  }
}
