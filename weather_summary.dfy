/** The WeatherSummary value object: what the read use case returns for one city. */
module WeatherSummaries {
  import opened Wrappers
  import opened Temperatures
  import Cities
  import Trends

  datatype WeatherSummary = WeatherSummary(
    city: Cities.City,
    currentTemperature: Temperature,
    averageTemperature: Option<Temperature>,
    trend: Trends.Trend)

  /** The invariants its parts were constructed with. */
  predicate Valid(s: WeatherSummary)
  {
    Cities.Valid(s.city) && Trends.Valid(s.trend)
  }

  predicate HasAverage(s: WeatherSummary)
  {
    s.averageTemperature.Some?
  }

  predicate IsStable(s: WeatherSummary)
  {
    Trends.IsStable(s.trend)
  }
}
