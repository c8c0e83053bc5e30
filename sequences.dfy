/** Facts about sequences shared by the in-place passes over arrays. */
module Sequences {

  /** Replacing element `i` keeps the parts before and after it. */
  lemma UpdateSlices<T>(b: seq<T>, i: nat, x: T)
    requires i < |b|
    ensures b[i := x][..i] == b[..i] && b[i := x][i + 1..] == b[i + 1..]
    ensures b[i := x][..i + 1] == b[..i] + [x]
    ensures b[i := x] == b[..i] + [x] + b[i + 1..]
  {
  }
}
