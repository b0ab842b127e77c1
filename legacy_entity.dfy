/**
 * The legacy ORM record: a mutable object whose typed properties start
 * uninitialised (None here) and are filled in by fluent setters.
 */
module LegacyEntities {
  import opened Wrappers

  /** The three columns a complete record carries; the time is in seconds. */
  datatype Record = Record(city: string, temperature: real, fetchedAt: int)

  class WeatherMeasurement {
    var id: Option<int>
    var city: Option<string>
    var temperature: Option<real>
    var fetchedAt: Option<int>

    /** `new WeatherMeasurement()`: id and city are null, temperature and fetchedAt are not yet set. */
    constructor ()
      ensures id == None && city == None && temperature == None && fetchedAt == None
    {
      id := None;
      city := None;
      temperature := None;
      fetchedAt := None;
    }

    /** Every column has been set, so the record can be stored. */
    predicate Complete()
      reads this
    {
      city.Some? && temperature.Some? && fetchedAt.Some?
    }

    function Contents(): (r: Record)
      reads this
      requires Complete()
      ensures r.city == city.value && r.temperature == temperature.value && r.fetchedAt == fetchedAt.value
    {
      Record(city.value, temperature.value, fetchedAt.value)
    }

    method GetId() returns (r: Option<int>)
      ensures r == id
    {
      return id;
    }

    method GetCity() returns (r: Option<string>)
      ensures r == city
    {
      return city;
    }

    /** `getTemperature()`: reading the typed property before it is set raises an \Error. */
    method GetTemperature() returns (r: Result<real>)
      ensures temperature.Some? ==> r == Ok(temperature.value)
      ensures temperature.None? ==> r == Err(Uninitialized("App\\Entity\\WeatherMeasurement::$temperature"))
    {
      if temperature.None? {
        return Err(Uninitialized("App\\Entity\\WeatherMeasurement::$temperature"));
      }
      return Ok(temperature.value);
    }

    /** `getFetchedAt()`: as `getTemperature()`. */
    method GetFetchedAt() returns (r: Result<int>)
      ensures fetchedAt.Some? ==> r == Ok(fetchedAt.value)
      ensures fetchedAt.None? ==> r == Err(Uninitialized("App\\Entity\\WeatherMeasurement::$fetchedAt"))
    {
      if fetchedAt.None? {
        return Err(Uninitialized("App\\Entity\\WeatherMeasurement::$fetchedAt"));
      }
      return Ok(fetchedAt.value);
    }

    /** `setCity($city)`: changes the city only and returns the same object. */
    method SetCity(c: string) returns (self: WeatherMeasurement)
      modifies this
      ensures self == this
      ensures city == Some(c)
      ensures id == old(id) && temperature == old(temperature) && fetchedAt == old(fetchedAt)
    {
      city := Some(c);
      return this;
    }

    /** `setTemperature($temperature)`: changes the temperature only and returns the same object. */
    method SetTemperature(t: real) returns (self: WeatherMeasurement)
      modifies this
      ensures self == this
      ensures temperature == Some(t)
      ensures id == old(id) && city == old(city) && fetchedAt == old(fetchedAt)
    {
      temperature := Some(t);
      return this;
    }

    /** `setFetchedAt($fetchedAt)`: changes the time only and returns the same object. */
    method SetFetchedAt(at: int) returns (self: WeatherMeasurement)
      modifies this
      ensures self == this
      ensures fetchedAt == Some(at)
      ensures id == old(id) && city == old(city) && temperature == old(temperature)
    {
      fetchedAt := Some(at);
      return this;
    }
  }

  /**
   * The chain `(new WeatherMeasurement())->setCity(..)->setTemperature(..)->setFetchedAt(..)`
   * that the legacy services use: a fresh, complete record with no id.
   */
  method Build(city: string, temperature: real, at: int) returns (m: WeatherMeasurement)
    ensures fresh(m)
    ensures m.Complete() && m.Contents() == Record(city, temperature, at) && m.id == None
  {
    var blank := new WeatherMeasurement();
    var withCity := blank.SetCity(city);
    var withTemperature := withCity.SetTemperature(temperature);
    m := withTemperature.SetFetchedAt(at);
  }

  /** A getter called after its setter returns what was set; the other getters are not affected. */
  method SetThenGet(m: WeatherMeasurement, t: real) returns (read: Result<real>, cityAfter: Option<string>)
    modifies m
    ensures read == Ok(t)
    ensures cityAfter == old(m.city)
  {
    var same := m.SetTemperature(t);
    read := same.GetTemperature();
    cityAfter := same.GetCity();
  }
}
