/** Small facts about slicing concatenations, stated once so that the
    planner's layout proofs can name the piece they look at. */
module SeqFacts {
  /** The middle piece of a three-way concatenation is the slice at its offset. */
  lemma SliceMiddle<T>(a: seq<T>, b: seq<T>, c: seq<T>)
    ensures |a + b + c| == |a| + |b| + |c|
    ensures (a + b + c)[|a|..|a| + |b|] == b
    ensures (a + b + c)[..|a|] == a
    ensures (a + b + c)[|a| + |b|..] == c
  {
  }

  /** A window of a concatenation that lies in its second part. */
  lemma WindowRight<T>(a: seq<T>, b: seq<T>, i: nat, j: nat)
    requires i <= j <= |b|
    ensures (a + b)[|a| + i..|a| + j] == b[i..j]
  {
  }

  /** A window of a concatenation that lies in its first part. */
  lemma SliceLeft<T>(a: seq<T>, b: seq<T>)
    ensures (a + b)[0..|a|] == a
  {
  }

  /** A window of a suffix is a window of the whole, shifted. */
  lemma SuffixWindow<T>(s: seq<T>, d: nat, i: nat, j: nat)
    requires d + j <= |s| && i <= j
    ensures s[d..][i..j] == s[d + i..d + j]
  {
  }

  /** Concatenation regroups freely. */
  lemma ConcatAssoc<T>(x: seq<T>, y: seq<T>, z: seq<T>)
    ensures x + (y + z) == (x + y) + z
  {
  }
}
