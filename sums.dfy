/** Python's built-in `sum` over a list of amounts, as a left fold over exact
    reals, and the facts about it that the allocation's conservation laws
    rest on. */
module Sums {

  /** `sum(xs)`: adds the amounts from the left, starting at zero. */
  function Sum(xs: seq<real>): real {
    if xs == [] then 0.0 else Sum(xs[..|xs| - 1]) + xs[|xs| - 1]
  }

  predicate AllNonNegative(xs: seq<real>) {
    forall i :: 0 <= i < |xs| ==> xs[i] >= 0.0
  }

  lemma SumAppend(xs: seq<real>, x: real)
    ensures Sum(xs + [x]) == Sum(xs) + x
  {
    assert (xs + [x])[..|xs|] == xs;
  }

  /** Scaling every amount by `c` scales the sum by `c`. */
  lemma {:induction false} SumScaled(xs: seq<real>, ys: seq<real>, c: real)
    requires |xs| == |ys|
    requires forall i :: 0 <= i < |xs| ==> ys[i] == xs[i] * c
    ensures Sum(ys) == Sum(xs) * c
  {
    if xs != [] {
      SumScaled(xs[..|xs| - 1], ys[..|ys| - 1], c);
    }
  }

  /** The sum of pointwise sums is the sum of the sums. */
  lemma {:induction false} SumPointwise(xs: seq<real>, ys: seq<real>, zs: seq<real>)
    requires |xs| == |ys| == |zs|
    requires forall i :: 0 <= i < |zs| ==> zs[i] == xs[i] + ys[i]
    ensures Sum(zs) == Sum(xs) + Sum(ys)
  {
    if zs != [] {
      SumPointwise(xs[..|xs| - 1], ys[..|ys| - 1], zs[..|zs| - 1]);
    }
  }

  /** `n` equal amounts `c` add up to `n * c`. */
  lemma {:induction false} SumConstant(xs: seq<real>, c: real)
    requires forall i :: 0 <= i < |xs| ==> xs[i] == c
    ensures Sum(xs) == |xs| as real * c
  {
    if xs != [] {
      SumConstant(xs[..|xs| - 1], c);
    }
  }

  /** Non-negative amounts have a non-negative sum that bounds each of
      them. */
  lemma {:induction false} SumNonNegative(xs: seq<real>)
    requires AllNonNegative(xs)
    ensures Sum(xs) >= 0.0
    ensures forall i :: 0 <= i < |xs| ==> xs[i] <= Sum(xs)
  {
    if xs != [] {
      var init := xs[..|xs| - 1];
      SumNonNegative(init);
      assert forall i :: 0 <= i < |init| ==> xs[i] == init[i];
    }
  }

  /** Non-negative amounts add up to zero exactly when every one of them is
      zero. */
  lemma SumZero(xs: seq<real>)
    requires AllNonNegative(xs)
    ensures Sum(xs) == 0.0 <==> forall i :: 0 <= i < |xs| ==> xs[i] == 0.0
  {
    SumNonNegative(xs);
    if forall i :: 0 <= i < |xs| ==> xs[i] == 0.0 {
      SumConstant(xs, 0.0);
    }
  }

  /** Dividing non-negative amounts by their non-zero sum gives fractions in
      [0, 1] that add up to 1. */
  lemma FractionsAddUp(xs: seq<real>, total: real, fs: seq<real>)
    requires AllNonNegative(xs) && total == Sum(xs) && total != 0.0
    requires |fs| == |xs|
    requires forall i :: 0 <= i < |xs| ==> fs[i] == xs[i] / total
    ensures forall i :: 0 <= i < |fs| ==> 0.0 <= fs[i] <= 1.0
    ensures Sum(fs) == 1.0
  {
    SumNonNegative(xs);
    forall i | 0 <= i < |xs|
      ensures 0.0 <= fs[i] <= 1.0
      ensures xs[i] == fs[i] * total
    {
      var x, f := xs[i], fs[i];
      assert 0.0 <= x <= total;
      FractionBounds(x, total, f);
    }
    ScaledBackIsOne(fs, xs, total);
  }

  /** Amounts that are `total` times the fractions, and add up to `total`,
      make the fractions add up to 1. */
  lemma ScaledBackIsOne(fs: seq<real>, xs: seq<real>, total: real)
    requires total == Sum(xs) && total != 0.0
    requires |xs| == |fs|
    requires forall i :: 0 <= i < |xs| ==> xs[i] == fs[i] * total
    ensures Sum(fs) == 1.0
  {
    SumScaled(fs, xs, total);
    UnitFactor(Sum(fs), total, Sum(xs));
  }

  lemma FractionBounds(x: real, total: real, f: real)
    requires 0.0 <= x <= total && total > 0.0
    requires f == x / total
    ensures 0.0 <= f <= 1.0
    ensures x == f * total
  {
  }

  lemma UnitFactor(x: real, c: real, y: real)
    requires c != 0.0 && y == x * c && y == c
    ensures x == 1.0
  {
  }

  /** Every amount multiplied by `c`. */
  function Scale(xs: seq<real>, c: real): (r: seq<real>)
    ensures |r| == |xs|
  {
    seq(|xs|, i requires 0 <= i < |xs| => xs[i] * c)
  }

  /** Handing out a charge in fractions that add up to 1 hands out exactly
      the charge. */
  lemma ShareOut(fs: seq<real>, c: real)
    requires Sum(fs) == 1.0
    ensures Sum(Scale(fs, c)) == c
  {
    SumScaled(fs, Scale(fs, c), c);
  }

  /** Amounts that are a base plus two shares add up to the base's sum plus
      the sums of the shares. */
  lemma SumOfThree(base: seq<real>, xs: seq<real>, ys: seq<real>, zs: seq<real>)
    requires |base| == |xs| == |ys| == |zs|
    requires forall i :: 0 <= i < |zs| ==> zs[i] == base[i] + (xs[i] + ys[i])
    ensures Sum(zs) == Sum(base) + Sum(xs) + Sum(ys)
  {
    var both := seq(|zs|, i requires 0 <= i < |zs| => xs[i] + ys[i]);
    SumPointwise(xs, ys, both);
    SumPointwise(base, both, zs);
  }
}
