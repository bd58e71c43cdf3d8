/** Facts about sequences that several modules use. */
module Sequences {
  predicate Distinct<T(==)>(xs: seq<T>) {
    forall i, j | 0 <= i < j < |xs| :: xs[i] != xs[j]
  }

  lemma AddAssoc<T>(xs: seq<T>, ys: seq<T>, zs: seq<T>)
    ensures xs + ys + zs == xs + (ys + zs)
  {
  }

  lemma UpdateFirst<T>(xs: seq<T>, x: T)
    requires xs != []
    ensures xs[0 := x] == [x] + xs[1..]
  {
  }

  lemma UpdateLater<T>(xs: seq<T>, j: nat, x: T)
    requires 0 < j < |xs|
    ensures xs[j := x] == [xs[0]] + xs[1..][j - 1 := x]
  {
  }

  lemma UpdateAmong<T>(xs: seq<T>, i: nat, x: T)
    requires i < |xs|
    ensures xs[i := x] == xs[..i] + ([x] + xs[i + 1..])
  {
  }

  lemma TakeOneMore<T>(xs: seq<T>, i: nat, ys: seq<T>)
    requires i < |xs|
    ensures xs[..i + 1] + ys == xs[..i] + ([xs[i]] + ys)
  {
  }
}
