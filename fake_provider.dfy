/**
 * The legacy in-memory provider: temperatures keyed by lower-cased city
 * name, and a counter of lookups.
 */
module FakeProviders {
  import opened Wrappers
  import opened Text
  import opened LegacyRepositories

  /** The map the constructor builds from its `[city => temperature]` argument, entry by entry. */
  function Seeded(initial: seq<(string, real)>): map<string, real>
  {
    if initial == [] then map[]
    else
      var last := initial[|initial| - 1];
      Seeded(initial[..|initial| - 1])[Lower(last.0) := last.1]
  }

  /** The exception a lookup of `city` raises when the map has no reading for it. */
  function Missing(city: string): Error
  {
    Runtime("No fake temperature set for '" + city + "'")
  }

  /** The answer to a lookup of `city` in `temperatures`. */
  function Answer(temperatures: map<string, real>, city: string): (r: Result<real>)
    ensures r.Ok? <==> Lower(city) in temperatures
    ensures r.Ok? ==> r.value == temperatures[Lower(city)]
    ensures r.Err? ==> r.error == Missing(city)
  {
    var key := Lower(city);
    if key in temperatures then Ok(temperatures[key])
    else Err(Missing(city))
  }

  class FakeThirdPartyWeatherProvider {
    var temperatures: map<string, real>
    var callCount: nat
    const trace: Trace

    /** Seeds the entries in order, so of two names equal after lower-casing the later one wins. */
    constructor (trace: Trace, initial: seq<(string, real)>)
      ensures temperatures == Seeded(initial) && callCount == 0 && this.trace == trace
    {
      temperatures := map[];
      callCount := 0;
      this.trace := trace;
      new;
      for i := 0 to |initial|
        invariant temperatures == Seeded(initial[..i]) && callCount == 0
      {
        assert initial[..i + 1][..i] == initial[..i];
        SetTemperature(initial[i].0, initial[i].1);
      }
      assert initial[..|initial|] == initial;
    }

    /** `setTemperature($city, $temp)`: stores under the lower-cased name; the counter is untouched. */
    method SetTemperature(city: string, temp: real)
      modifies this
      ensures temperatures == old(temperatures)[Lower(city) := temp]
      ensures callCount == old(callCount)
    {
      temperatures := temperatures[Lower(city) := temp];
    }

    /** `getCurrentTemperature($city)`: counts the call, including one that then throws. */
    method GetCurrentTemperature(city: string) returns (r: Result<real>)
      modifies this, trace
      ensures r == Answer(temperatures, city)
      ensures temperatures == old(temperatures) && callCount == old(callCount) + 1
      ensures trace.calls == old(trace.calls) + [ProviderCalled(city)]
    {
      callCount := callCount + 1;
      trace.calls := trace.calls + [ProviderCalled(city)];
      r := Answer(temperatures, city);
    }

    method GetCallCount() returns (n: nat)
      ensures n == callCount
    {
      return callCount;
    }
  }

  /** The seeded map holds exactly the lower-cased names of the initial entries. */
  lemma {:induction false} SeededKeys(initial: seq<(string, real)>)
    ensures forall k :: k in Seeded(initial) <==> exists i :: 0 <= i < |initial| && Lower(initial[i].0) == k
  {
    if initial != [] {
      var prefix := initial[..|initial| - 1];
      SeededKeys(prefix);
      forall k | k in Seeded(initial)
        ensures exists i :: 0 <= i < |initial| && Lower(initial[i].0) == k
      {
        if k != Lower(initial[|initial| - 1].0) {
          assert k in Seeded(prefix);
          var i :| 0 <= i < |prefix| && Lower(prefix[i].0) == k;
          assert initial[i] == prefix[i];
        }
      }
      forall k, i | 0 <= i < |initial| && Lower(initial[i].0) == k
        ensures k in Seeded(initial)
      {
        if i < |prefix| {
          assert prefix[i] == initial[i];
        }
      }
    }
  }

  /** An entry not overridden by a later entry with the same lower-cased name keeps its temperature. */
  lemma {:induction false} SeededLastWins(initial: seq<(string, real)>, i: int)
    requires 0 <= i < |initial|
    requires forall j :: i < j < |initial| ==> Lower(initial[j].0) != Lower(initial[i].0)
    ensures Lower(initial[i].0) in Seeded(initial) && Seeded(initial)[Lower(initial[i].0)] == initial[i].1
  {
    if i < |initial| - 1 {
      var prefix := initial[..|initial| - 1];
      assert prefix[i] == initial[i];
      forall j | i < j < |prefix|
        ensures Lower(prefix[j].0) != Lower(prefix[i].0)
      {
        assert prefix[j] == initial[j];
      }
      SeededLastWins(prefix, i);
    }
  }

  /** Names that agree after lower-casing get the same temperature. */
  lemma AnswerIgnoresCase(temperatures: map<string, real>, a: string, b: string)
    requires Lower(a) == Lower(b)
    ensures Answer(temperatures, a).Ok? == Answer(temperatures, b).Ok?
    ensures Answer(temperatures, a).Ok? ==> Answer(temperatures, a).value == Answer(temperatures, b).value
  {
  }

  /** 'Sofia' and 'sofia' both read the seeded 4.0, and two lookups count two calls. */
  method CaseInsensitiveScenario() returns (first: Result<real>, second: Result<real>, calls: nat)
    ensures first == Ok(4.0) && second == Ok(4.0) && calls == 2
  {
    var trace := new Trace();
    var provider := new FakeThirdPartyWeatherProvider(trace, [("sofia", 4.0)]);
    assert Lower("sofia") == "sofia" && Lower("Sofia") == "sofia";
    first := provider.GetCurrentTemperature("Sofia");
    second := provider.GetCurrentTemperature("sofia");
    calls := provider.GetCallCount();
  }

  /** A later `setTemperature('SOFIA', ..)` overrides the seeded 'sofia'; a missing city throws naming the raw name. */
  method OverrideAndMissingScenario() returns (overridden: Result<real>, missing: Result<real>, calls: nat)
    ensures overridden == Ok(10.5)
    ensures missing == Err(Runtime("No fake temperature set for 'Plovdiv'"))
    ensures calls == 2
  {
    var trace := new Trace();
    var provider := new FakeThirdPartyWeatherProvider(trace, [("sofia", 4.0)]);
    provider.SetTemperature("SOFIA", 10.5);
    assert Lower("SOFIA") == "sofia" && Lower("sofia") == "sofia" && Lower("Plovdiv") == "plovdiv";
    overridden := provider.GetCurrentTemperature("sofia");
    missing := provider.GetCurrentTemperature("Plovdiv");
    calls := provider.GetCallCount();
  }
}
