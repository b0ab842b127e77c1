/** The Trend value object: a direction word and the signed delta it was derived from. */
module Trends {
  import opened Wrappers
  import opened Numbers

  const Hotter: string := "hotter"
  const Colder: string := "colder"
  const Stable: string := "stable"

  /** PHP's rendering of a number as text (`sprintf('%.1f', ...)`), left abstract. */
  type Formatter = real -> string

  datatype Trend = Trend(direction: string, delta: real)

  predicate IsDirection(d: string)
  {
    d == Hotter || d == Colder || d == Stable
  }

  predicate Valid(t: Trend)
  {
    IsDirection(t.direction)
  }

  /** `new Trend($direction, $deltaInCelsius)`: the direction is checked first, then the delta. */
  function NewTrend(direction: string, delta: Float): (r: Result<Trend>)
    ensures r.Ok? <==> IsDirection(direction) && delta.Finite?
    ensures r.Ok? ==> r.value.direction == direction && r.value.delta == delta.value && Valid(r.value)
    ensures !IsDirection(direction) ==> r == Err(InvalidArgument("Invalid trend direction: " + direction))
    ensures IsDirection(direction) && !delta.Finite? ==> r == Err(InvalidArgument("Delta must be a finite numeric value."))
  {
    if !IsDirection(direction) then Err(InvalidArgument("Invalid trend direction: " + direction))
    else if !delta.Finite? then Err(InvalidArgument("Delta must be a finite numeric value."))
    else Ok(Trend(direction, delta.value))
  }

  predicate IsHotter(t: Trend)
  {
    t.direction == Hotter
  }

  predicate IsColder(t: Trend)
  {
    t.direction == Colder
  }

  predicate IsStable(t: Trend)
  {
    t.direction == Stable
  }

  /** A constructed Trend answers yes to exactly one of the three questions. */
  lemma ExactlyOneDirection(t: Trend)
    requires Valid(t)
    ensures (if IsHotter(t) then 1 else 0) + (if IsColder(t) then 1 else 0) + (if IsStable(t) then 1 else 0) == 1
  {
  }

  /** `label()`, and `__toString()`, which returns it. */
  function Label(t: Trend, show: Formatter): string
  {
    if IsStable(t) then Stable
    else (if IsHotter(t) then Hotter else Colder) + " by " + show(Abs(t.delta)) + "°C"
  }

  /** The label is "stable" exactly for stable trends. */
  lemma LabelStableIff(t: Trend, show: Formatter)
    ensures Label(t, show) == Stable <==> IsStable(t)
  {
    if !IsStable(t) {
      assert |Label(t, show)| > |Stable|;
    }
  }

  /** A moving trend's label is its direction word, " by ", then the magnitude of the delta. */
  lemma LabelOfMovingTrend(t: Trend, show: Formatter)
    requires Valid(t) && !IsStable(t)
    ensures Label(t, show) == t.direction + " by " + show(Abs(t.delta)) + "°C"
    ensures Label(t, show)[..|t.direction| + 4] == t.direction + " by "
  {
  }

  /** The label depends on the size of the delta, not on its sign. */
  lemma LabelIgnoresSign(direction: string, delta: real, show: Formatter)
    ensures Label(Trend(direction, delta), show) == Label(Trend(direction, -delta), show)
  {
    assert Abs(delta) == Abs(-delta);
  }
}
