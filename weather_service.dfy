/** The legacy read path: current reading, the ten newest stored rows, their average and a sign. */
module LegacyWeatherServices {
  import opened Wrappers
  import opened Text
  import opened LegacyRepositories
  import opened FakeProviders
  import opened DefaultTrendCalculators
  import Trends

  const HistoryLimit: int := 10

  /** The record the service returns; `value` is the temperature's text, a space and the sign. */
  datatype WeatherResult = WeatherResult(city: string, temperature: real, trendSign: string, value: string)

  class WeatherService {
    const provider: FakeThirdPartyWeatherProvider
    const repository: MeasurementRepository
    const trace: Trace

    predicate Valid()
    {
      provider.trace == trace && repository.trace == trace
    }

    constructor (provider: FakeThirdPartyWeatherProvider, repository: MeasurementRepository)
      requires provider.trace == repository.trace
      ensures Valid() && this.provider == provider && this.repository == repository
    {
      this.provider := provider;
      this.repository := repository;
      this.trace := provider.trace;
    }

    /** `getCityWeather($city)` against the given provider map and stored rows; `show` is PHP's float-to-string. */
    function Expected(city: string, temperatures: map<string, real>, rows: seq<StoredRow>, show: Trends.Formatter): Result<WeatherResult>
    {
      var cityNorm := Lower(city);
      var current :- Answer(temperatures, cityNorm);
      var avg := AverageOr(Recent(rows, Lower(cityNorm), HistoryLimit), current);
      var sign := TrendSign(current, avg);
      Ok(WeatherResult(cityNorm, current, sign, show(current) + " " + sign))
    }

    /** `getCityWeather($city)`: the name is lower-cased once and that form goes to both collaborators. */
    method GetCityWeather(city: string, show: Trends.Formatter) returns (r: Result<WeatherResult>)
      requires Valid()
      modifies provider, trace
      ensures r == Expected(city, old(provider.temperatures), repository.rows, show)
      ensures trace.calls == old(trace.calls) + [ProviderCalled(Lower(city))]
        + (if r.Ok? then [RecentQueried(Lower(city), HistoryLimit)] else [])
      ensures provider.temperatures == old(provider.temperatures) && provider.callCount == old(provider.callCount) + 1
    {
      var cityNorm := Lower(city);
      var current :- provider.GetCurrentTemperature(cityNorm);
      var lastMeasurements := repository.FindLastNDaysForCity(cityNorm, HistoryLimit);
      var avg := CalculateAverage(lastMeasurements, current);
      var sign := TrendSign(current, avg);
      return Ok(WeatherResult(cityNorm, current, sign, show(current) + " " + sign));
    }
  }

  /**
   * A successful result carries the lower-cased name, the provider's
   * reading for it, and the sign of the reading against the average of the
   * ten newest rows for that name; with no stored rows the sign is '='.
   */
  lemma ResultFacts(city: string, temperatures: map<string, real>, rows: seq<StoredRow>, show: Trends.Formatter, svc: WeatherService)
    ensures var r := svc.Expected(city, temperatures, rows, show);
      r.Ok? ==>
        && r.value.city == Lower(city)
        && Lower(r.value.city) == r.value.city
        && Lower(city) in temperatures && r.value.temperature == temperatures[Lower(city)]
        && r.value.trendSign == TrendSign(r.value.temperature, AverageOr(Recent(rows, Lower(city), HistoryLimit), r.value.temperature))
        && r.value.trendSign in {TrendHot, TrendCold, TrendStable}
        && r.value.value == show(r.value.temperature) + " " + r.value.trendSign
        && ((forall x :: x in rows ==> x.record.city != Lower(city)) ==> r.value.trendSign == TrendStable)
    ensures svc.Expected(city, temperatures, rows, show).Err? <==> Lower(city) !in temperatures
  {
    LowerIdempotent(city);
  }
}
