/** Sums of a weight over a sequence: how a sum moves when the sequence changes in one place. */
module Totals {

  function Total<T>(xs: seq<T>, f: T -> nat): nat {
    if xs == [] then 0 else f(xs[0]) + Total(xs[1..], f)
  }

  lemma {:induction false} TotalConcat<T>(xs: seq<T>, ys: seq<T>, f: T -> nat)
    ensures Total(xs + ys, f) == Total(xs, f) + Total(ys, f)
  {
    if xs == [] {
      assert xs + ys == ys;
    } else {
      TotalConcat(xs[1..], ys, f);
      assert (xs + ys)[1..] == xs[1..] + ys;
    }
  }

  lemma TotalOne<T>(x: T, f: T -> nat)
    ensures Total([x], f) == f(x)
  {
    assert [x][1..] == [];
  }

  lemma TotalRemove<T>(xs: seq<T>, k: nat, f: T -> nat)
    requires k < |xs|
    ensures Total(xs, f) == Total(xs[..k] + xs[k + 1..], f) + f(xs[k])
  {
    assert xs == xs[..k] + ([xs[k]] + xs[k + 1..]);
    TotalConcat(xs[..k], [xs[k]] + xs[k + 1..], f);
    TotalConcat([xs[k]], xs[k + 1..], f);
    TotalConcat(xs[..k], xs[k + 1..], f);
    TotalOne(xs[k], f);
  }

  lemma TotalUpdate<T>(xs: seq<T>, k: nat, x: T, f: T -> nat)
    requires k < |xs|
    ensures Total(xs[k := x], f) + f(xs[k]) == Total(xs, f) + f(x)
  {
    TotalRemove(xs, k, f);
    TotalRemove(xs[k := x], k, f);
    assert xs[k := x][..k] + xs[k := x][k + 1..] == xs[..k] + xs[k + 1..];
  }

  lemma TotalAppend<T>(xs: seq<T>, x: T, f: T -> nat)
    ensures Total(xs + [x], f) == Total(xs, f) + f(x)
  {
    TotalConcat(xs, [x], f);
    TotalOne(x, f);
  }

  lemma TotalAtLeast<T>(xs: seq<T>, k: nat, f: T -> nat)
    requires k < |xs|
    ensures f(xs[k]) <= Total(xs, f)
  {
    TotalRemove(xs, k, f);
  }

  /** Two different places contribute both their weights. */
  lemma TotalAtLeastTwo<T>(xs: seq<T>, i: nat, k: nat, f: T -> nat)
    requires i < |xs| && k < |xs| && i != k
    ensures f(xs[i]) + f(xs[k]) <= Total(xs, f)
  {
    TotalRemove(xs, k, f);
    var rest := xs[..k] + xs[k + 1..];
    TotalAtLeast(rest, if i < k then i else i - 1, f);
  }

  lemma {:induction false} TotalAllZero<T>(xs: seq<T>, f: T -> nat)
    requires forall i :: 0 <= i < |xs| ==> f(xs[i]) == 0
    ensures Total(xs, f) == 0
  {
    if xs != [] {
      TotalAllZero(xs[1..], f);
    }
  }
}
