/**
 * Small facts about sequence slicing and concatenation, proved once in
 * an empty context so that the proofs that use them stay cheap.
 */
module Seqs {

  /** A prefix one longer is the prefix and the next element. */
  lemma {:induction false} SliceSnoc<T>(s: seq<T>, i: nat)
    requires i < |s|
    ensures s[..i + 1] == s[..i] + [s[i]]
  {
  }

  /** The empty prefix and the whole sequence. */
  lemma {:induction false} PrefixEnds<T>(s: seq<T>)
    ensures s[..0] == [] && s[..|s|] == s
  {
  }

  /** The head and the tail of a concatenation with a non-empty front. */
  lemma {:induction false} ConsAppend<T>(a: seq<T>, b: seq<T>)
    requires a != []
    ensures (a + b)[0] == a[0] && (a + b)[1..] == a[1..] + b
  {
  }

  lemma {:induction false} AppendAssoc<T>(a: seq<T>, b: seq<T>, c: seq<T>)
    ensures (a + b) + c == a + (b + c)
  {
  }

  lemma {:induction false} AppendEmpty<T>(a: seq<T>)
    ensures a + [] == a && [] + a == a
  {
  }

  /** A slice of a slice is a slice of the whole. */
  lemma {:induction false} SliceOfSlice<T>(s: seq<T>, p: nat, e: nat, i: nat, j: nat)
    requires p <= i <= j <= e <= |s|
    ensures s[p..e][i - p..j - p] == s[i..j]
  {
    var t := s[p..e];
    forall k | 0 <= k < j - i
      ensures t[i - p..j - p][k] == s[i..j][k]
    {
      assert t[i - p + k] == s[i + k];
    }
  }

  /** Adjacent slices join. */
  lemma {:induction false} SliceConcat<T>(s: seq<T>, i: nat, j: nat, k: nat)
    requires i <= j <= k <= |s|
    ensures s[i..j] + s[j..k] == s[i..k]
  {
  }

  /**
   * `t` occurs in `s` at position `p`, stated element by element so that
   * the verifier unfolds it only a step at a time.
   */
  predicate At<T(==)>(s: seq<T>, p: nat, t: seq<T>)
    ensures At(s, p, t) ==> p + |t| <= |s|
    decreases |t|
  {
    if t == [] then p <= |s| else p < |s| && s[p] == t[0] && At(s, p + 1, t[1..])
  }

  /** An occurrence is a slice equal to `t`. */
  lemma {:induction false} AtSlice<T>(s: seq<T>, p: nat, t: seq<T>)
    ensures At(s, p, t) <==> p + |t| <= |s| && s[p..p + |t|] == t
    decreases |t|
  {
    if t != [] {
      AtSlice(s, p + 1, t[1..]);
      if p + |t| <= |s| {
        assert s[p..p + |t|] == [s[p]] + s[p + 1..p + 1 + |t[1..]|];
        assert t == [t[0]] + t[1..];
      }
    }
  }

  /** A sequence occurs in itself at the start. */
  lemma {:induction false} AtWhole<T>(s: seq<T>)
    ensures At(s, 0, s)
  {
    AtSlice(s, 0, s);
  }

  /** An occurrence of `a + b` is an occurrence of `a` followed by one of `b`. */
  lemma {:induction false} AtAppend<T>(s: seq<T>, p: nat, a: seq<T>, b: seq<T>)
    ensures At(s, p, a + b) <==> At(s, p, a) && At(s, p + |a|, b)
  {
    AtSlice(s, p, a + b);
    AtSlice(s, p, a);
    AtSlice(s, p + |a|, b);
    if At(s, p, a + b) {
      assert s[p..p + |a|] == (a + b)[..|a|];
      assert s[p + |a|..p + |a| + |b|] == (a + b)[|a|..];
    }
    if At(s, p, a) && At(s, p + |a|, b) {
      assert s[p..p + |a| + |b|] == s[p..p + |a|] + s[p + |a|..p + |a| + |b|];
    }
  }

  lemma {:induction false} AtIndex<T>(s: seq<T>, p: nat, t: seq<T>, i: nat)
    requires At(s, p, t) && i < |t|
    ensures p + |t| <= |s| && s[p + i] == t[i]
  {
    AtSlice(s, p, t);
    assert s[p..p + |t|][i] == s[p + i];
  }

  /** A stretch of an occurrence. */
  lemma {:induction false} AtSub<T>(s: seq<T>, p: nat, t: seq<T>, i: nat, j: nat)
    requires At(s, p, t) && i <= j <= |t|
    ensures p + |t| <= |s| && s[p + i..p + j] == t[i..j]
  {
    AtSlice(s, p, t);
    SliceOfSlice(s, p, p + |t|, p + i, p + j);
  }
}
