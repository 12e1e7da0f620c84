/**
 Order-preserving subsequences: the shape of every result that the
 storefront obtains with `Array.prototype.filter`.
 */
module Seqs {

  /** `r` is obtained from `s` by deleting elements, keeping the rest in order. */
  predicate SubsequenceOf<T(==)>(r: seq<T>, s: seq<T>)
    decreases |s|
  {
    |r| == 0 ||
    (|s| > 0 && ((r[0] == s[0] && SubsequenceOf(r[1..], s[1..])) || SubsequenceOf(r, s[1..])))
  }

  /** A subsequence is never longer and holds only elements of the whole. */
  lemma {:induction false} SubsequenceBounds<T>(r: seq<T>, s: seq<T>)
    requires SubsequenceOf(r, s)
    ensures |r| <= |s|
    ensures forall x :: x in r ==> x in s
    decreases |s|
  {
    if |r| > 0 {
      if r[0] == s[0] && SubsequenceOf(r[1..], s[1..]) {
        SubsequenceBounds(r[1..], s[1..]);
        assert forall x :: x in r ==> x == r[0] || x in r[1..];
      } else {
        SubsequenceBounds(r, s[1..]);
      }
    }
  }
}
