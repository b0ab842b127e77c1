/**
 * The read use case: build the City, ask the provider for the current
 * reading, ask the history store for the last ten days, run the trend
 * calculator and compute the average.
 */
module GetCityWeather {
  import opened Wrappers
  import opened Temperatures
  import opened Trends
  import opened DomainMeasurements
  import opened WeatherSummaries
  import opened SimpleTrendCalculators
  import opened Ports
  import opened Numbers
  import Cities

  /** The fixed history window, in days. */
  const HistoryDays: int := 10

  /** The summary assembled from a city, its current reading and its history. */
  function Summarize(calculator: SimpleTrendCalculator, city: Cities.City, current: Temperature,
                     history: seq<WeatherMeasurement>): WeatherSummary
  {
    WeatherSummary(city, current, HistoryAverage(history), TrendOf(calculator, current, history))
  }

  /** `computeAverageOrNull`: null for an empty history, otherwise sum / count. */
  method ComputeAverageOrNull(measurements: seq<WeatherMeasurement>) returns (average: Option<Temperature>)
    ensures average == HistoryAverage(measurements)
  {
    if measurements == [] {
      return None;
    }
    var sum := 0.0;
    var count := 0;
    for i := 0 to |measurements|
      invariant sum == SumBy(measurements[..i], Celsius)
      invariant count == i
    {
      assert measurements[..i + 1][..i] == measurements[..i];
      sum := sum + measurements[i].temperature.celsius;
      count := count + 1;
    }
    assert measurements[..|measurements|] == measurements;
    return Some(Temperature(sum / count as real));
  }

  class GetCityWeatherService {
    const provider: ScriptedProvider
    const history: InMemoryHistory
    const calculator: SimpleTrendCalculator
    const trace: Trace

    /** Both ports report to the service's trace. */
    predicate Valid()
    {
      provider.trace == trace && history.trace == trace
    }

    constructor (provider: ScriptedProvider, history: InMemoryHistory, calculator: SimpleTrendCalculator)
      requires provider.trace == history.trace
      ensures Valid()
      ensures this.provider == provider && this.history == history && this.calculator == calculator
    {
      this.provider := provider;
      this.history := history;
      this.calculator := calculator;
      this.trace := provider.trace;
    }

    /** The answer to `getSummaryForCity($cityName)` when the store holds `saved`. */
    function Expected(cityName: string, saved: seq<WeatherMeasurement>, now: int): Result<WeatherSummary>
    {
      var city :- Cities.NewCity(cityName);
      var current :- provider.readings(city);
      if !history.online then Err(StoreUnavailable)
      else Ok(Summarize(calculator, city, current, Window(saved, city, HistoryDays, now)))
    }

    /** The port calls `getSummaryForCity($cityName)` makes, in order. */
    function ExpectedCalls(cityName: string): seq<Event>
    {
      match Cities.NewCity(cityName)
      case Err(_) => []
      case Ok(city) =>
        [TemperatureRequested(city)]
        + (if provider.readings(city).Ok? then [HistoryRequested(city, HistoryDays)] else [])
    }

    /** `getSummaryForCity($cityName)`. */
    method GetSummaryForCity(cityName: string, now: int) returns (r: Result<WeatherSummary>)
      requires Valid()
      modifies trace
      ensures r == Expected(cityName, history.saved, now)
      ensures trace.events == old(trace.events) + ExpectedCalls(cityName)
    {
      var city :- Cities.NewCity(cityName);
      var current :- provider.GetCurrentTemperature(city);
      var measurements :- history.FindMeasurementsForLastNDays(city, HistoryDays, now);
      var trend := CalculateTrend(calculator, current, measurements);
      var average := ComputeAverageOrNull(measurements);
      return Ok(WeatherSummary(city, current, average, trend));
    }
  }

  /**
   * What a successful answer carries: the City built from the raw name, the
   * provider's reading unchanged, an average exactly when the ten-day window
   * is non-empty, and the calculator's trend over that same window, so the
   * delta is the current reading minus the average. A blank name fails with
   * no port call at all.
   */
  lemma ExpectedSummary(svc: GetCityWeatherService, cityName: string, saved: seq<WeatherMeasurement>, now: int)
    ensures Cities.NewCity(cityName).Err? ==>
      svc.Expected(cityName, saved, now) == Err(InvalidArgument(Cities.EmptyNameMessage))
      && svc.ExpectedCalls(cityName) == []
    ensures svc.Expected(cityName, saved, now).Ok? ==>
      var s := svc.Expected(cityName, saved, now).value;
      var city := Cities.NewCity(cityName).value;
      var window := Window(saved, city, HistoryDays, now);
      && s.city == city
      && svc.provider.readings(city) == Ok(s.currentTemperature)
      && (HasAverage(s) <==> window != [])
      && s.trend == TrendOf(svc.calculator, s.currentTemperature, window)
      && (HasAverage(s) ==> s.trend.delta == Difference(s.currentTemperature, s.averageTemperature.value))
      && (!HasAverage(s) ==> s.trend == Trend(Stable, 0.0))
      && WeatherSummaries.Valid(s)
      && svc.ExpectedCalls(cityName) == [TemperatureRequested(city), HistoryRequested(city, HistoryDays)]
  {
    if svc.Expected(cityName, saved, now).Ok? {
      var city := Cities.NewCity(cityName).value;
      var current := svc.provider.readings(city).value;
      var window := Window(saved, city, HistoryDays, now);
      AnalyzeConsistent(svc.calculator, current, window);
      TrendOfIsValid(svc.calculator, current, window);
    }
  }

  /** The order in which the store returns the window does not affect the summary. */
  lemma SummaryIgnoresHistoryOrder(calculator: SimpleTrendCalculator, city: Cities.City, current: Temperature,
                                   history: seq<WeatherMeasurement>, reordered: seq<WeatherMeasurement>)
    requires multiset(history) == multiset(reordered)
    ensures Summarize(calculator, city, current, history) == Summarize(calculator, city, current, reordered)
  {
    TrendOfPermutation(calculator, current, history, reordered);
  }
}
