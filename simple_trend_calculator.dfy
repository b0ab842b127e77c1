/**
 * The domain trend calculator: the mean of the history, the delta of the
 * current reading against it, and a hotter / colder / stable verdict against
 * a configurable threshold.
 */
module SimpleTrendCalculators {
  import opened Wrappers
  import opened Numbers
  import opened Temperatures
  import opened Trends
  import opened TrendAnalyses
  import opened DomainMeasurements
  import Cities
  import MeasurementTimes

  const DefaultThreshold: real := 0.3

  datatype SimpleTrendCalculator = SimpleTrendCalculator(stableThreshold: real)

  /** The constructor: a negative threshold is refused, zero is allowed. */
  function NewSimpleTrendCalculator(threshold: real := DefaultThreshold): (r: Result<SimpleTrendCalculator>)
    ensures r.Ok? <==> threshold >= 0.0
    ensures r.Ok? ==> r.value.stableThreshold == threshold
    ensures r.Err? ==> r.error == InvalidArgument("Stable threshold cannot be negative.")
  {
    if threshold < 0.0 then Err(InvalidArgument("Stable threshold cannot be negative."))
    else Ok(SimpleTrendCalculator(threshold))
  }

  /** The arithmetic mean of the history's temperatures. */
  function HistoryMean(history: seq<WeatherMeasurement>): real
    requires history != []
  {
    MeanBy(history, Celsius)
  }

  /** The average a summary carries: none without history, the mean otherwise. */
  function HistoryAverage(history: seq<WeatherMeasurement>): Option<Temperature>
  {
    if history == [] then None else Some(Temperature(HistoryMean(history)))
  }

  /** The verdict for a delta: stable strictly inside the threshold, else by the delta's sign. */
  function Classify(threshold: real, delta: real): string
  {
    if Abs(delta) < threshold then Stable
    else if delta > 0.0 then Hotter
    else Colder
  }

  /** What `calculateTrend` computes. */
  function TrendOf(calculator: SimpleTrendCalculator, current: Temperature, history: seq<WeatherMeasurement>): Trend
  {
    if history == [] then Trend(Stable, 0.0)
    else
      var delta := Difference(current, Temperature(HistoryMean(history)));
      Trend(Classify(calculator.stableThreshold, delta), delta)
  }

  /**
   * What the tests call `analyze`: the trend together with the history
   * average. The class itself only offers `calculateTrend`.
   */
  function Analyze(calculator: SimpleTrendCalculator, current: Temperature, history: seq<WeatherMeasurement>): TrendAnalysis
  {
    TrendAnalysis(TrendOf(calculator, current, history), HistoryAverage(history))
  }

  /** `calculateTrend`: one pass summing the history, then the classification. */
  method CalculateTrend(calculator: SimpleTrendCalculator, current: Temperature, history: seq<WeatherMeasurement>)
    returns (trend: Trend)
    ensures trend == TrendOf(calculator, current, history)
  {
    if history == [] {
      return Trend(Stable, 0.0);
    }
    var sum := 0.0;
    var count := 0;
    for i := 0 to |history|
      invariant sum == SumBy(history[..i], Celsius)
      invariant count == i
    {
      assert history[..i + 1][..i] == history[..i];
      sum := sum + history[i].temperature.celsius;
      count := count + 1;
    }
    assert history[..|history|] == history;
    var average := Temperature(sum / count as real);
    var delta := Difference(current, average);
    if Abs(delta) < calculator.stableThreshold {
      return Trend(Stable, delta);
    }
    var direction := if delta > 0.0 then Hotter else Colder;
    return Trend(direction, delta);
  }

  /**
   * The threshold rule at its boundaries: strictly inside is stable, a delta of
   * exactly the threshold is not, and a zero delta under a zero threshold is colder.
   */
  lemma ClassifyBoundaries(threshold: real, delta: real)
    requires threshold >= 0.0
    ensures Classify(threshold, delta) == Stable <==> -threshold < delta < threshold
    ensures delta >= threshold && delta > 0.0 ==> Classify(threshold, delta) == Hotter
    ensures delta <= -threshold ==> Classify(threshold, delta) == Colder
    ensures Classify(threshold, threshold) != Stable && Classify(threshold, -threshold) == Colder
    ensures Classify(0.0, 0.0) == Colder
  {
  }

  /** Every trend the calculator produces satisfies the Trend constructor's checks. */
  lemma TrendOfIsValid(calculator: SimpleTrendCalculator, current: Temperature, history: seq<WeatherMeasurement>)
    ensures Valid(TrendOf(calculator, current, history))
    ensures NewTrend(TrendOf(calculator, current, history).direction, Finite(TrendOf(calculator, current, history).delta))
            == Ok(TrendOf(calculator, current, history))
  {
  }

  /** Reordering the history changes nothing: the mean is a sum. */
  lemma TrendOfPermutation(calculator: SimpleTrendCalculator, current: Temperature,
                           history: seq<WeatherMeasurement>, reordered: seq<WeatherMeasurement>)
    requires multiset(history) == multiset(reordered)
    ensures TrendOf(calculator, current, history) == TrendOf(calculator, current, reordered)
    ensures HistoryAverage(history) == HistoryAverage(reordered)
  {
    assert |history| == |multiset(history)| == |reordered|;
    SumByPermutation(history, reordered, Celsius);
  }

  /**
   * The analysis is internally consistent: an average exists exactly when there
   * is history, and then the trend's delta is the current reading minus it;
   * without history the trend is stable with a zero delta.
   */
  lemma AnalyzeConsistent(calculator: SimpleTrendCalculator, current: Temperature, history: seq<WeatherMeasurement>)
    ensures HasAverage(Analyze(calculator, current, history)) <==> history != []
    ensures history == [] ==> Analyze(calculator, current, history) == TrendAnalysis(Trend(Stable, 0.0), None)
    ensures history != [] ==>
      var a := Analyze(calculator, current, history);
      a.trend.delta == Difference(current, a.averageTemperature.value)
      && (IsStable(a.trend) <==> Abs(a.trend.delta) < calculator.stableThreshold)
  {
  }

  /** The mean lies within the range of the history's readings. */
  lemma AverageWithinRange(history: seq<WeatherMeasurement>, lo: real, hi: real)
    requires history != []
    requires forall i :: 0 <= i < |history| ==> lo <= Celsius(history[i]) <= hi
    ensures lo <= HistoryAverage(history).value.celsius <= hi
  {
    MeanByBetween(history, Celsius, lo, hi);
  }

  /** A reading of `celsius` degrees in one fixed city, used by the scenarios below. */
  function Reading(celsius: real, instant: int): WeatherMeasurement
  {
    WeatherMeasurement(None, Cities.City("Sofia"), Temperature(celsius), MeasurementTimes.MeasurementTime(instant))
  }

  lemma {:induction false} SumOfThree(a: real, b: real, c: real)
    ensures SumBy([Reading(a, 0), Reading(b, 1), Reading(c, 2)], Celsius) == a + b + c
  {
    var h := [Reading(a, 0), Reading(b, 1), Reading(c, 2)];
    assert h[..2][..1][..0] == [];
    assert SumBy(h[..2][..1], Celsius) == a;
    assert SumBy(h[..2], Celsius) == a + b;
  }

  /** History 10, 12, 14 and a current 20 under threshold 0.3: average 12, hotter by 8. */
  lemma ScenarioHotter()
    ensures var h := [Reading(10.0, 0), Reading(12.0, 1), Reading(14.0, 2)];
            Analyze(SimpleTrendCalculator(0.3), Temperature(20.0), h)
            == TrendAnalysis(Trend(Hotter, 8.0), Some(Temperature(12.0)))
  {
    SumOfThree(10.0, 12.0, 14.0);
  }

  /** History 18, 20, 22 and a current 18 under threshold 0.3: average 20, colder by 2. */
  lemma ScenarioColder()
    ensures var h := [Reading(18.0, 0), Reading(20.0, 1), Reading(22.0, 2)];
            Analyze(SimpleTrendCalculator(0.3), Temperature(18.0), h)
            == TrendAnalysis(Trend(Colder, -2.0), Some(Temperature(20.0)))
  {
    SumOfThree(18.0, 20.0, 22.0);
  }

  /** History 20, 20, 20 and a current 20.2 under threshold 0.5: average 20, stable. */
  lemma ScenarioStable()
    ensures var h := [Reading(20.0, 0), Reading(20.0, 1), Reading(20.0, 2)];
            var a := Analyze(SimpleTrendCalculator(0.5), Temperature(20.2), h);
            a.averageTemperature == Some(Temperature(20.0)) && IsStable(a.trend)
            && !IsHotter(a.trend) && !IsColder(a.trend)
  {
    SumOfThree(20.0, 20.0, 20.0);
  }
}
