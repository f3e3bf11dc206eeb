/** Generic facts about sequences that the proofs of the other modules use
    to regroup, split and index concatenations. */
module Sequences {

  /** Concatenation is associative. */
  lemma ConcatAssoc<T>(a: seq<T>, b: seq<T>, c: seq<T>)
    ensures a + (b + c) == (a + b) + c
  {
  }

  /** A non-empty sequence is its front followed by its last element. */
  lemma SnocLast<T>(s: seq<T>)
    requires s != []
    ensures s == s[..|s| - 1] + [s[|s| - 1]]
  {
  }

  /** A sequence that grows at its end keeps its front. */
  lemma SnocRegroup<T>(h: seq<T>, m: seq<T>, x: T)
    ensures h + (m + [x]) == (h + m) + [x]
  {
  }

  /** The trace of three phases run one after the other. */
  lemma PhaseRegroup<T>(a: seq<T>, b: seq<T>, c: seq<T>, d: seq<T>)
    ensures ((a + b) + c) + d == a + ((b + c) + d)
  {
  }

  /** Step `j` of three phases run one after the other. */
  lemma PhaseAt<T>(a: seq<T>, b: seq<T>, c: seq<T>, j: nat)
    requires j < |a + b + c|
    ensures j < |a| ==> (a + b + c)[j] == a[j]
    ensures |a| <= j < |a| + |b| ==> (a + b + c)[j] == b[j - |a|]
    ensures |a| + |b| <= j ==> (a + b + c)[j] == c[j - |a| - |b|]
  {
  }

  /** A non-empty sequence has its head as a member. */
  lemma HeadMember<T>(s: seq<T>)
    ensures s == [] || s[0] in s
  {
  }

  /** A sequence is its own prefix of full length. */
  lemma FullPrefix<T>(s: seq<T>, n: nat)
    requires n == |s|
    ensures s[..n] == s
  {
  }

  /** A prefix of `a + b` no longer than `a` is a prefix of `a`. */
  lemma PrefixInFirst<T>(a: seq<T>, b: seq<T>, k: nat)
    requires k <= |a|
    ensures (a + b)[..k] == a[..k]
  {
  }

  /** A prefix of `a + b` longer than `a` is `a` and a prefix of `b`. */
  lemma PrefixInSecond<T>(a: seq<T>, b: seq<T>, k: nat)
    requires |a| <= k <= |a| + |b|
    ensures (a + b)[..k] == a + b[..k - |a|]
  {
  }

  /** The two halves of a concatenation. */
  lemma Halves<T>(a: seq<T>, b: seq<T>)
    ensures (a + b)[..|a|] == a && (a + b)[|a|..] == b
  {
  }

  /** Regroups `mkdir "$p/x"` into the head, `x` and a quote. */
  lemma RegroupMkdir<T>(m: seq<T>, q: seq<T>, p: seq<T>, x: seq<T>)
    ensures m + (q + (p + x) + q) == (m + q + p) + (x + q)
  {
  }

  /** Regroups `mv "$p/x" "$p/y"` into the head, `x`, a quote, the middle,
      `y` and a quote. */
  lemma RegroupMv<T>(m: seq<T>, q: seq<T>, p: seq<T>, sp: seq<T>, x: seq<T>, y: seq<T>)
    ensures m + (q + (p + x) + q) + sp + (q + (p + y) + q)
         == (m + q + p) + (x + q + ((sp + q + p) + (y + q)))
  {
  }
}
