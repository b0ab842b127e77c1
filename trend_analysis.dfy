/** The TrendAnalysis value object: a trend and, when there was history, its average. */
module TrendAnalyses {
  import opened Wrappers
  import opened Temperatures
  import opened Trends

  datatype TrendAnalysis = TrendAnalysis(trend: Trend, averageTemperature: Option<Temperature>)

  predicate HasAverage(a: TrendAnalysis)
  {
    a.averageTemperature.Some?
  }
}
