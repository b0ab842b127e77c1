/**
 * The legacy trend calculator: the mean of the stored temperatures (or a
 * fallback when there are none) and a one-character trend sign with a
 * fixed 0.5 degree dead band.
 */
module DefaultTrendCalculators {
  import opened Wrappers
  import opened Numbers
  import opened LegacyEntities
  import opened LegacyRepositories
  import Trends
  import SimpleTrendCalculators

  const TrendHot: string := "+"
  const TrendCold: string := "-"
  const TrendStable: string := "="
  const Epsilon: real := 0.5

  function RowTemperature(m: StoredRow): real
  {
    m.record.temperature
  }

  /** What `calculateAverage` returns: the fallback for no measurements, otherwise sum / count. */
  function AverageOr(measurements: seq<StoredRow>, fallback: real): real
  {
    if measurements == [] then fallback else MeanBy(measurements, RowTemperature)
  }

  /** `calculateAverage($measurements, $fallback)`. */
  method CalculateAverage(measurements: seq<StoredRow>, fallback: real) returns (avg: real)
    ensures avg == AverageOr(measurements, fallback)
  {
    if measurements == [] {
      return fallback;
    }
    var sum := 0.0;
    for i := 0 to |measurements|
      invariant sum == SumBy(measurements[..i], RowTemperature)
    {
      assert measurements[..i + 1][..i] == measurements[..i];
      sum := sum + measurements[i].record.temperature;
    }
    assert measurements[..|measurements|] == measurements;
    return sum / |measurements| as real;
  }

  /** `calculateTrendSign($current, $avg)`: '+' above the band, '-' below it, '=' inside it or on its edge. */
  function TrendSign(current: real, avg: real): (sign: string)
    ensures sign == TrendHot <==> current - avg > Epsilon
    ensures sign == TrendCold <==> current - avg < -Epsilon
    ensures sign == TrendStable <==> -Epsilon <= current - avg <= Epsilon
  {
    var diff := current - avg;
    if diff > Epsilon then TrendHot
    else if diff < -Epsilon then TrendCold
    else TrendStable
  }

  /**
   * `calculateTrendSign` as the file stands: a stray token after the
   * `declare` statement stops the file from compiling, so loading the class
   * fails whatever the arguments.
   */
  function TrendSignAsWritten(current: real, avg: real): (r: Result<string>)
    ensures r.Err? && r.error.Unloadable?
  {
    Err(Unloadable("app/src/Service/Weather/DefaultTrendCalculator.php"))
  }

  /** A reading 8 degrees above the average gets no sign as written, where '+' is intended. */
  lemma StrayTokenCounterexample()
    ensures TrendSignAsWritten(20.0, 12.0).Err?
    ensures TrendSign(20.0, 12.0) == TrendHot
  {
  }

  /** The average lies between the smallest and the largest stored temperature, or is the fallback. */
  lemma AverageWithinReadings(measurements: seq<StoredRow>, fallback: real, lo: real, hi: real)
    requires forall i :: 0 <= i < |measurements| ==> lo <= measurements[i].record.temperature <= hi
    ensures measurements == [] ==> AverageOr(measurements, fallback) == fallback
    ensures measurements != [] ==> lo <= AverageOr(measurements, fallback) <= hi
  {
    if measurements != [] {
      MeanByBetween(measurements, RowTemperature, lo, hi);
    }
  }

  /** The order in which the repository returns the rows does not change the average. */
  lemma AverageIgnoresOrder(measurements: seq<StoredRow>, reordered: seq<StoredRow>, fallback: real)
    requires multiset(measurements) == multiset(reordered)
    ensures AverageOr(measurements, fallback) == AverageOr(reordered, fallback)
  {
    SumByPermutation(measurements, reordered, RowTemperature);
    assert |measurements| == |multiset(measurements)| == |reordered|;
  }

  /** Swapping the two arguments swaps '+' and '-'. */
  lemma SignIsAntisymmetric(a: real, b: real)
    ensures TrendSign(a, b) == TrendHot <==> TrendSign(b, a) == TrendCold
    ensures TrendSign(a, b) == TrendStable <==> TrendSign(b, a) == TrendStable
  {
  }

  /**
   * Against the newer calculator with a 0.5 threshold: the two agree on
   * every difference except exactly ±0.5, where this one says '=' and the
   * newer one says hotter or colder.
   */
  lemma SignVersusClassify(current: real, avg: real)
    ensures var d := current - avg; var verdict := SimpleTrendCalculators.Classify(Epsilon, d);
      Abs(d) != Epsilon ==>
        && (TrendSign(current, avg) == TrendHot <==> verdict == Trends.Hotter)
        && (TrendSign(current, avg) == TrendCold <==> verdict == Trends.Colder)
        && (TrendSign(current, avg) == TrendStable <==> verdict == Trends.Stable)
    ensures current - avg == Epsilon ==>
      TrendSign(current, avg) == TrendStable && SimpleTrendCalculators.Classify(Epsilon, current - avg) == Trends.Hotter
    ensures current - avg == -Epsilon ==>
      TrendSign(current, avg) == TrendStable && SimpleTrendCalculators.Classify(Epsilon, current - avg) == Trends.Colder
  {
  }

  function Stored(temperature: real): StoredRow
  {
    StoredRow(0, Record("sofia", temperature, 0))
  }

  /** The calculator's own examples: fallback 5.0 for no rows, 4.0 for [2, 4, 6], and the three signs. */
  lemma Examples()
    ensures AverageOr([], 5.0) == 5.0
    ensures AverageOr([Stored(2.0), Stored(4.0), Stored(6.0)], 0.0) == 4.0
    ensures TrendSign(6.0, 4.0) == TrendHot && TrendSign(2.0, 4.0) == TrendCold && TrendSign(4.2, 4.0) == TrendStable
  {
    var xs := [Stored(2.0), Stored(4.0), Stored(6.0)];
    assert xs[..2][..1][..0] == [];
    assert SumBy(xs[..1], RowTemperature) == 2.0;
    assert SumBy(xs[..2], RowTemperature) == 6.0;
    assert SumBy(xs, RowTemperature) == 12.0;
  }
}
