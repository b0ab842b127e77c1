/** The domain WeatherMeasurement entity: one reading for a city at an instant. */
module DomainMeasurements {
  import opened Wrappers
  import opened Temperatures
  import Cities
  import MeasurementTimes

  datatype WeatherMeasurement = WeatherMeasurement(
    id: Option<int>,
    city: Cities.City,
    temperature: Temperature,
    measurementTime: MeasurementTimes.MeasurementTime)

  /** The reading in degrees, as `temperature()->value()` gives it. */
  function Celsius(m: WeatherMeasurement): real
  {
    m.temperature.celsius
  }

  predicate IsForCity(m: WeatherMeasurement, city: Cities.City)
  {
    Cities.Equals(m.city, city)
  }

  predicate IsBefore(m: WeatherMeasurement, other: WeatherMeasurement)
  {
    MeasurementTimes.IsBefore(m.measurementTime, other.measurementTime)
  }

  predicate IsAfter(m: WeatherMeasurement, other: WeatherMeasurement)
  {
    MeasurementTimes.IsAfter(m.measurementTime, other.measurementTime)
  }

  /** Measurements are ordered by their instants; equal instants are neither before nor after. */
  lemma OrderFollowsTime(m1: WeatherMeasurement, m2: WeatherMeasurement)
    ensures IsBefore(m1, m2) <==> m1.measurementTime.instant < m2.measurementTime.instant
    ensures IsBefore(m1, m2) <==> IsAfter(m2, m1)
    ensures m1.measurementTime == m2.measurementTime ==> !IsBefore(m1, m2) && !IsAfter(m1, m2)
  {
  }
}
