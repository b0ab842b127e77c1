/**
 * The write use case: fetch one reading for a city, stamp it with the
 * current time and save it through the history port.
 */
module ImportCityWeather {
  import opened Wrappers
  import opened Temperatures
  import opened DomainMeasurements
  import opened Ports
  import Cities
  import MeasurementTimes

  class ImportCityWeatherService {
    const provider: ScriptedProvider
    const history: InMemoryHistory
    const trace: Trace

    /** Both ports report to the service's trace. */
    predicate Valid()
    {
      provider.trace == trace && history.trace == trace
    }

    constructor (provider: ScriptedProvider, history: InMemoryHistory)
      requires provider.trace == history.trace
      ensures Valid()
      ensures this.provider == provider && this.history == history
    {
      this.provider := provider;
      this.history := history;
      this.trace := provider.trace;
    }

    /** The measurement `importForCity($cityName)` builds at time `now`: null id, the City, the reading, `now`. */
    function Built(cityName: string, now: int): Result<WeatherMeasurement>
    {
      var city :- Cities.NewCity(cityName);
      var temperature :- provider.readings(city);
      Ok(WeatherMeasurement(None, city, temperature, MeasurementTimes.MeasurementTime(now)))
    }

    /** The port calls `importForCity($cityName)` makes, in order. */
    function ImportCalls(cityName: string, now: int): seq<Event>
    {
      match Cities.NewCity(cityName)
      case Err(_) => []
      case Ok(city) =>
        [TemperatureRequested(city)]
        + (if Built(cityName, now).Ok? then [MeasurementSaved(Built(cityName, now).value)] else [])
    }

    /** `importForCity($cityName)`; the clock reading is the parameter `now`. */
    method ImportForCity(cityName: string, now: int) returns (r: Result<WeatherMeasurement>)
      requires Valid()
      modifies history, trace
      ensures r == if Built(cityName, now).Ok? && !history.online then Err(StoreUnavailable) else Built(cityName, now)
      ensures history.saved == old(history.saved) + (if r.Ok? then [r.value] else [])
      ensures trace.events == old(trace.events) + ImportCalls(cityName, now)
    {
      var city :- Cities.NewCity(cityName);
      var temperature :- provider.GetCurrentTemperature(city);
      var measurement := WeatherMeasurement(None, city, temperature, MeasurementTimes.MeasurementTime(now));
      var saved := history.SaveMeasurement(measurement);
      if saved.Fail? {
        return Err(saved.error);
      }
      return Ok(measurement);
    }
  }

  /**
   * A blank name fails with no port call; a provider failure is returned
   * as is and nothing is saved; otherwise the one measurement saved is the
   * one built from the City, the reading and `now`, with no id.
   */
  lemma ImportOutcome(svc: ImportCityWeatherService, cityName: string, now: int)
    ensures Cities.NewCity(cityName).Err? ==>
      svc.Built(cityName, now) == Err(InvalidArgument(Cities.EmptyNameMessage))
      && svc.ImportCalls(cityName, now) == []
    ensures Cities.NewCity(cityName).Ok? && svc.provider.readings(Cities.NewCity(cityName).value).Err? ==>
      var city := Cities.NewCity(cityName).value;
      && svc.Built(cityName, now) == Err(svc.provider.readings(city).error)
      && svc.ImportCalls(cityName, now) == [TemperatureRequested(city)]
    ensures svc.Built(cityName, now).Ok? ==>
      var m := svc.Built(cityName, now).value;
      var city := Cities.NewCity(cityName).value;
      && m.id == None
      && m.city == city
      && svc.provider.readings(city) == Ok(m.temperature)
      && m.measurementTime.instant == now
      && svc.ImportCalls(cityName, now) == [TemperatureRequested(city), MeasurementSaved(m)]
  {
  }
}
