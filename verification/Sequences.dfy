/** Facts about slices and concatenation that the solver needs to be told. */
module Sequences {

  lemma Assoc<T>(a: seq<T>, b: seq<T>, c: seq<T>)
    ensures (a + b) + c == a + (b + c)
  {}

  /** A slice of a slice. */
  lemma SubSlice<T>(s: seq<T>, a: nat, c: nat, i: nat, j: nat)
    requires a <= c <= |s| && i <= j <= c - a
    ensures s[a..c][i..j] == s[a + i..a + j]
  {
    var u, v := s[a..c][i..j], s[a + i..a + j];
    forall k | 0 <= k < j - i ensures u[k] == v[k] { assert u[k] == s[a..c][i + k]; }
  }

  lemma SplitSlice<T>(s: seq<T>, a: nat, b: nat, c: nat)
    requires a <= b <= c <= |s|
    ensures s[a..c] == s[a..b] + s[b..c]
  {}
}
