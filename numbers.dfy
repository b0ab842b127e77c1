/**
 * Numbers as the pipeline sees them. PHP floats are modelled as reals; where
 * the source checks `is_nan`/`is_infinite`, its input is a `Float`, which also
 * has the two non-finite kinds. Rounding is not modelled.
 */
module Numbers {

  /** A PHP float as far as the finiteness checks can tell. */
  datatype Float = Finite(value: real) | NaN | Infinite(negative: bool)

  function Abs(x: real): real
  {
    if x < 0.0 then -x else x
  }

  /**
   * The running sum a `foreach` loop builds: `$sum += f($x)` over `xs`, left
   * to right.
   */
  function SumBy<T>(xs: seq<T>, f: T -> real): real
  {
    if xs == [] then 0.0 else SumBy(xs[..|xs| - 1], f) + f(xs[|xs| - 1])
  }

  /** `$sum / count($xs)`. */
  function MeanBy<T>(xs: seq<T>, f: T -> real): real
    requires xs != []
  {
    SumBy(xs, f) / (|xs| as real)
  }

  lemma {:induction false} SumByAppend<T>(xs: seq<T>, ys: seq<T>, f: T -> real)
    ensures SumBy(xs + ys, f) == SumBy(xs, f) + SumBy(ys, f)
  {
    if ys == [] {
      assert xs + ys == xs;
    } else {
      var init := ys[..|ys| - 1];
      assert (xs + ys)[..|xs + ys| - 1] == xs + init;
      SumByAppend(xs, init, f);
    }
  }

  /** The sum, hence the mean, does not depend on the order of the elements. */
  lemma {:induction false} SumByPermutation<T>(xs: seq<T>, ys: seq<T>, f: T -> real)
    requires multiset(xs) == multiset(ys)
    ensures SumBy(xs, f) == SumBy(ys, f)
  {
    if xs == [] {
      assert |ys| == |multiset(ys)| == 0;
    } else {
      var x := xs[|xs| - 1];
      assert x in multiset(ys);
      var j :| 0 <= j < |ys| && ys[j] == x;
      var rest := ys[..j] + ys[j + 1..];
      RemoveAt(xs, |xs| - 1);
      RemoveAt(ys, j);
      assert xs[..|xs| - 1] + xs[|xs|..] == xs[..|xs| - 1];
      SumByPermutation(xs[..|xs| - 1], rest, f);
      SumByRemove(ys, j, f);
    }
  }

  lemma RemoveAt<T>(ys: seq<T>, j: int)
    requires 0 <= j < |ys|
    ensures multiset(ys[..j] + ys[j + 1..]) == multiset(ys) - multiset{ys[j]}
  {
    assert ys == ys[..j] + [ys[j]] + ys[j + 1..];
  }

  /** Taking one element out of a sum. */
  lemma {:induction false} SumByRemove<T>(ys: seq<T>, j: int, f: T -> real)
    requires 0 <= j < |ys|
    ensures SumBy(ys, f) == SumBy(ys[..j] + ys[j + 1..], f) + f(ys[j])
  {
    var before, after, x := ys[..j], ys[j + 1..], ys[j];
    var upTo := before + [x];
    assert ys == upTo + after;
    SumByAppend(upTo, after, f);
    assert upTo[..|upTo| - 1] == before;
    assert SumBy(upTo, f) == SumBy(before, f) + f(x);
    SumByAppend(before, after, f);
  }

  /** The mean of a non-empty history lies between its smallest and its largest element. */
  lemma {:induction false} MeanByBetween<T>(xs: seq<T>, f: T -> real, lo: real, hi: real)
    requires xs != []
    requires forall i :: 0 <= i < |xs| ==> lo <= f(xs[i]) <= hi
    ensures lo <= MeanBy(xs, f) <= hi
  {
    SumByBounds(xs, f, lo, hi);
    var n := |xs| as real;
    assert lo * n <= SumBy(xs, f) <= hi * n;
  }

  lemma {:induction false} SumByBounds<T>(xs: seq<T>, f: T -> real, lo: real, hi: real)
    requires forall i :: 0 <= i < |xs| ==> lo <= f(xs[i]) <= hi
    ensures lo * (|xs| as real) <= SumBy(xs, f) <= hi * (|xs| as real)
  {
    if xs != [] {
      var init := xs[..|xs| - 1];
      assert forall i :: 0 <= i < |init| ==> init[i] == xs[i];
      SumByBounds(init, f, lo, hi);
    }
  }
}
