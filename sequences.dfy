/*
 * Small facts about sequences that the proofs of the shell and the hex viewer
 * use to regroup concatenations and to move between a slice and the whole.
 */
module Sequences {

  /** Appending a piece to an accumulated sequence extends its tail. */
  lemma Regroup<T>(head: seq<T>, tail: seq<T>, piece: seq<T>, whole: seq<T>)
    requires whole == head + tail + piece
    ensures whole == head + (tail + piece)
  {
  }

  /** The first part of a concatenation. */
  lemma PrefixOfAppend<T>(x: seq<T>, y: seq<T>)
    ensures (x + y)[..|x|] == x
  {
  }

  /** A slice within the first part of a concatenation. */
  lemma SliceOfAppend<T>(x: seq<T>, y: seq<T>, a: nat, b: nat)
    requires a <= b <= |x|
    ensures (x + y)[a..b] == x[a..b]
  {
  }

  /** The start of the second part of a concatenation. */
  lemma SliceAfter<T>(x: seq<T>, y: seq<T>, b: nat)
    requires b <= |y|
    ensures (x + y)[|x|..|x| + b] == y[..b]
  {
  }

  /** The last element of a concatenation with a non-empty second part. */
  lemma LastOfAppend<T>(a: seq<T>, b: seq<T>)
    requires b != []
    ensures (a + b)[|a + b| - 1] == b[|b| - 1]
  {
  }

  /** Appending an element leaves the earlier ones where they were. */
  lemma EarlierElement<T>(s: seq<T>, init: seq<T>, last: T, k: nat)
    requires s == init + [last] && k < |init|
    ensures s[k] == init[k]
  {
  }

  /** A prefix of a prefix is a prefix, and it keeps its elements. */
  lemma PrefixOfPrefix<T>(s: seq<T>, n: nat, k: nat)
    requires k < n <= |s|
    ensures s[..n][..k] == s[..k] && s[..n][k] == s[k]
  {
  }

  /** A slice of a suffix is a slice of the whole. */
  lemma SliceOfSuffix<T>(s: seq<T>, i: nat, a: nat, b: nat)
    requires i + b <= |s| && a <= b
    ensures s[i..][a..b] == s[i + a..i + b] && s[i..][a..] == s[i + a..]
  {
  }

  /** A suffix is its first element followed by the rest. */
  lemma SuffixCons<T>(s: seq<T>, i: nat)
    requires i < |s|
    ensures s[i..] == [s[i]] + s[i + 1..]
  {
  }

  /** The first two elements of a slice are those of the whole at the same place. */
  lemma SliceStart<T>(s: seq<T>, a: nat, k: nat)
    requires 2 <= k && a + k <= |s|
    ensures s[a] == s[a..a + k][0] && s[a..a + 2] == s[a..a + k][..2]
  {
  }
}
