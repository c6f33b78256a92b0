/**
 The deviation aggregates MainPage shows under the shot list: the sum of the
 absolute deviations and the sum of the relative deviations (in percent).
 How one shot's deviation is computed is not part of this model, so the two
 per-shot deviations are parameters; magnitudes are reals in the generator's
 unit.
 */
module MainPageDeviation {
  import opened MainPage

  /** The reference sum, folding from the right. */
  function Sum(xs: seq<real>): real {
    if |xs| == 0 then 0.0 else xs[0] + Sum(xs[1..])
  }

  /** An array reduction with an initial accumulator, folding from the left as JavaScript's reduce does. */
  function Reduce(acc: real, xs: seq<real>): real
    decreases |xs|
  {
    if |xs| == 0 then acc else Reduce(acc + xs[0], xs[1..])
  }

  /** Folding from the left adds the accumulator to the reference sum. */
  lemma {:induction false} ReduceIsSum(acc: real, xs: seq<real>)
    ensures Reduce(acc, xs) == acc + Sum(xs)
    decreases |xs|
  {
    if |xs| > 0 {
      ReduceIsSum(acc + xs[0], xs[1..]);
    }
  }

  /** Appending one value to the sequence adds that value to the sum. */
  lemma {:induction false} SumAppend(xs: seq<real>, x: real)
    ensures Sum(xs + [x]) == Sum(xs) + x
    decreases |xs|
  {
    if |xs| == 0 {
      assert xs + [x] == [x];
    } else {
      assert (xs + [x])[1..] == xs[1..] + [x];
      SumAppend(xs[1..], x);
    }
  }

  /** A sum of non-negative values is non-negative. */
  lemma {:induction false} SumNonNegative(xs: seq<real>)
    requires forall i :: 0 <= i < |xs| ==> 0.0 <= xs[i]
    ensures 0.0 <= Sum(xs)
    decreases |xs|
  {
    if |xs| > 0 {
      SumNonNegative(xs[1..]);
    }
  }

  /** The deviation of every shot, in list order. */
  function Deviations(shots: seq<Shot>, deviation: Shot -> real): seq<real> {
    seq(|shots|, i requires 0 <= i < |shots| => deviation(shots[i]))
  }

  /**
   The sum of the absolute deviations, reduced from a zero start value: it
   is the plain sum of the per-shot deviations, zero for the empty list and
   never negative when no deviation is.
   */
  function AbsoluteDeviationSum(shots: seq<Shot>, absoluteDeviation: Shot -> real): (r: real)
    ensures r == Sum(Deviations(shots, absoluteDeviation))
    ensures |shots| == 0 ==> r == 0.0
    ensures (forall i :: 0 <= i < |shots| ==> 0.0 <= absoluteDeviation(shots[i])) ==> 0.0 <= r
  {
    var devs := Deviations(shots, absoluteDeviation);
    ReduceIsSum(0.0, devs);
    if forall i :: 0 <= i < |shots| ==> 0.0 <= absoluteDeviation(shots[i]) then
      SumNonNegative(devs);
      Reduce(0.0, devs)
    else
      Reduce(0.0, devs)
  }

  /** The sum of the relative deviations, reduced from zero and scaled to percent: 100 times the plain sum, zero for the empty list. */
  function RelativeDeviationSum(shots: seq<Shot>, relativeDeviation: Shot -> real): (r: real)
    ensures r == 100.0 * Sum(Deviations(shots, relativeDeviation))
    ensures |shots| == 0 ==> r == 0.0
  {
    var devs := Deviations(shots, relativeDeviation);
    ReduceIsSum(0.0, devs);
    Reduce(0.0, devs) * 100.0
  }

  /** Admitting one more shot adds exactly that shot's deviation to the absolute sum. */
  lemma AbsoluteDeviationSumAppend(shots: seq<Shot>, shot: Shot, absoluteDeviation: Shot -> real)
    ensures AbsoluteDeviationSum(shots + [shot], absoluteDeviation)
         == AbsoluteDeviationSum(shots, absoluteDeviation) + absoluteDeviation(shot)
  {
    assert Deviations(shots + [shot], absoluteDeviation) == Deviations(shots, absoluteDeviation) + [absoluteDeviation(shot)];
    SumAppend(Deviations(shots, absoluteDeviation), absoluteDeviation(shot));
  }
}
