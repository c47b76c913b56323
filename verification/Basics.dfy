/** Small shared vocabulary: optional values, results and sequence helpers. */
module Basics {

  datatype Option<+T> = None | Some(value: T)

  datatype Result<+T, +E> = Success(value: T) | Failure(error: E)

  /** No value occurs at two positions. */
  ghost predicate Distinct<T>(s: seq<T>) {
    forall i, j :: 0 <= i < j < |s| ==> s[i] != s[j]
  }

  /** `s` is an initial part of `t`. */
  ghost predicate IsPrefix<T>(s: seq<T>, t: seq<T>) {
    |s| <= |t| && t[..|s|] == s
  }

  lemma PrefixTransitive<T>(a: seq<T>, b: seq<T>, c: seq<T>)
    requires IsPrefix(a, b) && IsPrefix(b, c)
    ensures IsPrefix(a, c)
  {
    assert c[..|a|] == c[..|b|][..|a|];
  }

  lemma EqualLengthPrefix<T>(a: seq<T>, b: seq<T>)
    requires IsPrefix(a, b)
    ensures |a| == |b| ==> a == b
  {
  }

  lemma Associates<T>(a: seq<T>, b: seq<T>, c: seq<T>)
    ensures a + (b + c) == (a + b) + c
  {
  }
}
