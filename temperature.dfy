/** The Temperature value object: a finite number of degrees Celsius. */
module Temperatures {
  import opened Wrappers
  import opened Numbers

  /** Default tolerance of `Temperature::equals`. */
  const DefaultEpsilon: real := 0.0001

  datatype Temperature = Temperature(celsius: real)

  /** `new Temperature($valueInCelsius)`: NaN and the infinities are rejected. */
  function NewTemperature(x: Float): (r: Result<Temperature>)
    ensures r.Ok? <==> x.Finite?
    ensures r.Ok? ==> Value(r.value) == x.value
    ensures r.Err? ==> r.error.InvalidArgument?
  {
    if x.Finite? then Ok(Temperature(x.value))
    else Err(InvalidArgument("Temperature must be a finite numeric value."))
  }

  function Value(t: Temperature): real
  {
    t.celsius
  }

  predicate IsAbove(t: Temperature, other: Temperature)
  {
    t.celsius > other.celsius
  }

  predicate IsBelow(t: Temperature, other: Temperature)
  {
    t.celsius < other.celsius
  }

  function Difference(t: Temperature, other: Temperature): real
  {
    t.celsius - other.celsius
  }

  /** `equals($other, $epsilon)`: strictly closer than `epsilon`. */
  predicate Equals(t: Temperature, other: Temperature, epsilon: real := DefaultEpsilon)
  {
    Abs(Difference(t, other)) < epsilon
  }

  /** The comparisons are strict and mirror each other; the difference is antisymmetric. */
  lemma ComparisonsAgree(a: Temperature, b: Temperature)
    ensures IsAbove(a, b) <==> IsBelow(b, a)
    ensures !(IsAbove(a, b) && IsBelow(a, b))
    ensures a == b ==> !IsAbove(a, b) && !IsBelow(a, b)
    ensures IsAbove(a, b) <==> Difference(a, b) > 0.0
    ensures Difference(a, b) == -Difference(b, a) && Difference(a, a) == 0.0
  {
  }

  /** Approximate equality is symmetric, and reflexive exactly when the tolerance is positive. */
  lemma EqualsWithin(a: Temperature, b: Temperature, epsilon: real)
    ensures Equals(a, b, epsilon) <==> -epsilon < a.celsius - b.celsius < epsilon
    ensures Equals(a, b, epsilon) <==> Equals(b, a, epsilon)
    ensures Equals(a, a, epsilon) <==> epsilon > 0.0
    ensures Equals(a, a) && (Equals(a, b) <==> Abs(a.celsius - b.celsius) < 0.0001)
  {
  }
}
