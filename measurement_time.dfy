/** The MeasurementTime value object: an instant, here in whole seconds. */
module MeasurementTimes {

  datatype MeasurementTime = MeasurementTime(instant: int)

  predicate IsBefore(a: MeasurementTime, b: MeasurementTime)
  {
    a.instant < b.instant
  }

  predicate IsAfter(a: MeasurementTime, b: MeasurementTime)
  {
    a.instant > b.instant
  }

  /** Before and after are strict orders, each the converse of the other. */
  lemma OrderIsStrict(a: MeasurementTime, b: MeasurementTime)
    ensures IsBefore(a, b) <==> IsAfter(b, a)
    ensures !IsBefore(a, a) && !IsAfter(a, a)
    ensures !(IsBefore(a, b) && IsAfter(a, b))
  {
  }
}
