/** The flat projection of a WeatherSummary used for API responses. */
module SummaryDtos {
  import opened Wrappers
  import opened WeatherSummaries
  import Cities
  import Trends

  datatype WeatherSummaryDto = WeatherSummaryDto(
    city: string,
    current: real,
    average: Option<real>,
    trendDirection: string,
    trendDelta: real,
    trendLabel: string)

  /** A JSON value as `toArray` builds it: scalars, null and nested ordered objects. */
  datatype Json =
    | JString(s: string)
    | JNumber(n: real)
    | JNull
    | JObject(fields: seq<(string, Json)>)

  /** `WeatherSummaryDto::fromDomain($summary)`; `show` renders the label's number. */
  function FromDomain(s: WeatherSummary, show: Trends.Formatter): (d: WeatherSummaryDto)
    ensures d.city == Cities.Value(s.city) && d.current == s.currentTemperature.celsius
    ensures d.average.None? <==> !HasAverage(s)
    ensures HasAverage(s) ==> d.average == Some(s.averageTemperature.value.celsius)
    ensures d.trendDirection == s.trend.direction && d.trendDelta == s.trend.delta
    ensures d.trendLabel == Trends.Label(s.trend, show)
  {
    WeatherSummaryDto(
      s.city.name,
      s.currentTemperature.celsius,
      if HasAverage(s) then Some(s.averageTemperature.value.celsius) else None,
      s.trend.direction,
      s.trend.delta,
      Trends.Label(s.trend, show))
  }

  function Keys(fields: seq<(string, Json)>): seq<string>
  {
    seq(|fields|, i requires 0 <= i < |fields| => fields[i].0)
  }

  /** The value under `key` in an object's field list, if present. */
  function Field(fields: seq<(string, Json)>, key: string): Option<Json>
  {
    if fields == [] then None
    else if fields[0].0 == key then Some(fields[0].1)
    else Field(fields[1..], key)
  }

  /** `toArray()`: four keys, the trend nested as three. */
  function ToArray(d: WeatherSummaryDto): (j: Json)
    ensures j.JObject? && Keys(j.fields) == ["city", "current", "average", "trend"]
    ensures Field(j.fields, "city") == Some(JString(d.city))
    ensures Field(j.fields, "current") == Some(JNumber(d.current))
    ensures Field(j.fields, "average") == Some(if d.average.Some? then JNumber(d.average.value) else JNull)
    ensures var t := Field(j.fields, "trend");
      && t.Some? && t.value.JObject?
      && Keys(t.value.fields) == ["direction", "delta", "label"]
      && Field(t.value.fields, "direction") == Some(JString(d.trendDirection))
      && Field(t.value.fields, "delta") == Some(JNumber(d.trendDelta))
      && Field(t.value.fields, "label") == Some(JString(d.trendLabel))
  {
    var trend := [
      ("direction", JString(d.trendDirection)),
      ("delta", JNumber(d.trendDelta)),
      ("label", JString(d.trendLabel))];
    var fields := [
      ("city", JString(d.city)),
      ("current", JNumber(d.current)),
      ("average", if d.average.Some? then JNumber(d.average.value) else JNull),
      ("trend", JObject(trend))];
    assert fields[1..][1..] == fields[2..] && fields[2..][1..] == fields[3..];
    assert Field(fields, "average") == Field(fields[2..], "average");
    assert Field(fields[1..], "trend") == Field(fields[2..], "trend") == Field(fields[3..], "trend");
    assert Field(fields, "trend") == Some(JObject(trend));
    assert trend[1..][1..] == trend[2..];
    assert Field(trend, "label") == Field(trend[2..], "label");
    JObject(fields)
  }

  /** The response's trend label is "stable" exactly when the summary is stable. */
  lemma ResponseLabel(s: WeatherSummary, show: Trends.Formatter)
    requires WeatherSummaries.Valid(s)
    ensures var t := Field(ToArray(FromDomain(s, show)).fields, "trend").value;
      Field(t.fields, "label") == Some(JString(Trends.Label(s.trend, show)))
      && (Trends.Label(s.trend, show) == "stable" <==> IsStable(s))
  {
    Trends.LabelStableIff(s.trend, show);
  }
}
