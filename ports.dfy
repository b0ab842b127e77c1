/**
 * Stand-ins for the outbound ports of the newer code: the current-weather
 * provider and the history store. Both record the calls they receive in a
 * shared `Trace`, so that contracts can state which calls a use case makes
 * and in what order.
 */
module Ports {
  import opened Wrappers
  import opened Temperatures
  import opened DomainMeasurements
  import Cities

  const SecondsPerDay: int := 86400

  datatype Event =
    | TemperatureRequested(city: Cities.City)
    | HistoryRequested(city: Cities.City, days: int)
    | MeasurementSaved(measurement: WeatherMeasurement)

  /** The calls received by the ports, oldest first. Observation only. */
  class Trace {
    ghost var events: seq<Event>

    constructor ()
      ensures events == []
    {
      events := [];
    }
  }

  /** A current-weather provider whose answer for each city is fixed in advance (success or failure). */
  class ScriptedProvider {
    const readings: Cities.City -> Result<Temperature>
    const trace: Trace

    constructor (readings: Cities.City -> Result<Temperature>, trace: Trace)
      ensures this.readings == readings && this.trace == trace
    {
      this.readings := readings;
      this.trace := trace;
    }

    /** `getCurrentTemperature(City $city)`. */
    method GetCurrentTemperature(city: Cities.City) returns (r: Result<Temperature>)
      modifies trace
      ensures r == readings(city)
      ensures trace.events == old(trace.events) + [TemperatureRequested(city)]
    {
      r := readings(city);
      trace.events := trace.events + [TemperatureRequested(city)];
    }
  }

  /** Whether a saved measurement belongs in the answer to a query for `city` over the last `days` days. */
  predicate InWindow(m: WeatherMeasurement, city: Cities.City, days: int, now: int)
  {
    IsForCity(m, city) && m.measurementTime.instant >= now - days * SecondsPerDay
  }

  /**
   * The port's query: the saved measurements for `city` (compared as
   * `City::equals` does) taken at or after `now - days` days, in save order.
   */
  function Window(saved: seq<WeatherMeasurement>, city: Cities.City, days: int, now: int): (w: seq<WeatherMeasurement>)
    ensures forall m :: m in w ==> m in saved && InWindow(m, city, days, now)
    ensures forall m :: m in saved && InWindow(m, city, days, now) ==> m in w
    ensures |w| <= |saved|
  {
    if saved == [] then []
    else
      var last := saved[|saved| - 1];
      var w := Window(saved[..|saved| - 1], city, days, now);
      assert saved == saved[..|saved| - 1] + [last];
      if InWindow(last, city, days, now) then w + [last] else w
  }

  /**
   * The window keeps every occurrence: a measurement saved n times is in the
   * answer n times when it is in range and not at all otherwise.
   */
  lemma {:induction false} WindowCounts(saved: seq<WeatherMeasurement>, city: Cities.City, days: int, now: int)
    ensures forall m :: multiset(Window(saved, city, days, now))[m] ==
                        (if InWindow(m, city, days, now) then multiset(saved)[m] else 0)
  {
    if saved != [] {
      var last := saved[|saved| - 1];
      var earlier := saved[..|saved| - 1];
      WindowCounts(earlier, city, days, now);
      assert saved == earlier + [last];
      assert multiset(saved) == multiset(earlier) + multiset{last};
    }
  }

  /** An in-memory history store; when `online` is false every call fails. */
  class InMemoryHistory {
    var saved: seq<WeatherMeasurement>
    const online: bool
    const trace: Trace

    constructor (online: bool, trace: Trace)
      ensures saved == [] && this.online == online && this.trace == trace
    {
      saved := [];
      this.online := online;
      this.trace := trace;
    }

    /** `findMeasurementsForLastNDays(City $city, int $days)`. */
    method FindMeasurementsForLastNDays(city: Cities.City, days: int, now: int)
      returns (r: Result<seq<WeatherMeasurement>>)
      modifies trace
      ensures r == if online then Ok(Window(saved, city, days, now)) else Err(StoreUnavailable)
      ensures trace.events == old(trace.events) + [HistoryRequested(city, days)]
    {
      trace.events := trace.events + [HistoryRequested(city, days)];
      if !online {
        return Err(StoreUnavailable);
      }
      return Ok(Window(saved, city, days, now));
    }

    /** `saveMeasurement(WeatherMeasurement $measurement)`. */
    method SaveMeasurement(m: WeatherMeasurement) returns (o: Outcome)
      modifies this, trace
      ensures saved == if online then old(saved) + [m] else old(saved)
      ensures o == if online then Pass else Fail(StoreUnavailable)
      ensures trace.events == old(trace.events) + [MeasurementSaved(m)]
    {
      trace.events := trace.events + [MeasurementSaved(m)];
      if !online {
        return Fail(StoreUnavailable);
      }
      saved := saved + [m];
      return Pass;
    }
  }
}
