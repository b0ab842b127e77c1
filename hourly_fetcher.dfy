/** The legacy batch job: fetch and store one reading per city, in list order. */
module HourlyFetchers {
  import opened Wrappers
  import opened Text
  import opened LegacyEntities
  import opened LegacyRepositories
  import opened FakeProviders

  /** Whether the provider map has a reading for `city` once lower-cased. */
  predicate Known(temperatures: map<string, real>, city: string)
  {
    Lower(city) in temperatures
  }

  /** The index of the first city with no reading, or the number of cities if there is none. */
  function FirstUnknown(temperatures: map<string, real>, cities: seq<string>): (k: nat)
    ensures k <= |cities|
    ensures forall j :: 0 <= j < k ==> Known(temperatures, cities[j])
    ensures k < |cities| ==> !Known(temperatures, cities[k])
  {
    if cities == [] || !Known(temperatures, cities[0]) then 0
    else 1 + FirstUnknown(temperatures, cities[1..])
  }

  /** The records stored for `cities`, all known, each stamped `now`. */
  function Fetched(temperatures: map<string, real>, cities: seq<string>, now: int): (records: seq<Record>)
    requires forall j :: 0 <= j < |cities| ==> Known(temperatures, cities[j])
    ensures |records| == |cities|
  {
    seq(|cities|, j requires 0 <= j < |cities| && Known(temperatures, cities[j]) => Record(Lower(cities[j]), temperatures[Lower(cities[j])], now))
  }

  /** The store after saving `records` one by one, each with a flush. */
  function SaveAll(s: Store, records: seq<Record>): Store
  {
    if records == [] then s
    else SaveStore(SaveAll(s, records[..|records| - 1]), records[|records| - 1], true)
  }

  /** The collaborator calls a successful refresh of each of `cities` makes. */
  function RefreshCalls(temperatures: map<string, real>, cities: seq<string>, now: int): seq<Call>
    requires forall j :: 0 <= j < |cities| ==> Known(temperatures, cities[j])
  {
    if cities == [] then []
    else
      var last := cities[|cities| - 1];
      assert Known(temperatures, last);
      RefreshCalls(temperatures, cities[..|cities| - 1], now)
        + [ProviderCalled(Lower(last)), Saved(Record(Lower(last), temperatures[Lower(last)], now), true)]
  }

  class HourlyWeatherFetcher {
    const provider: FakeThirdPartyWeatherProvider
    const repository: MeasurementRepository
    const trace: Trace

    predicate Valid()
    {
      provider.trace == trace && repository.trace == trace
    }

    constructor (provider: FakeThirdPartyWeatherProvider, repository: MeasurementRepository)
      requires provider.trace == repository.trace
      ensures Valid() && this.provider == provider && this.repository == repository
    {
      this.provider := provider;
      this.repository := repository;
      this.trace := provider.trace;
    }

    /** `refreshCity($city)` at time `now`: one provider call with the lower-cased name, then one save. */
    method RefreshCity(city: string, now: int) returns (o: Outcome)
      requires Valid()
      modifies provider, repository, trace
      ensures provider.temperatures == old(provider.temperatures) && provider.callCount == old(provider.callCount) + 1
      ensures var key := Lower(city);
        Known(old(provider.temperatures), city) ==>
          var record := Record(key, old(provider.temperatures)[key], now);
          && o == Pass
          && repository.State() == SaveStore(old(repository.State()), record, true)
          && trace.calls == old(trace.calls) + [ProviderCalled(key), Saved(record, true)]
      ensures !Known(old(provider.temperatures), city) ==>
          && o == Fail(Missing(Lower(city)))
          && repository.State() == old(repository.State())
          && trace.calls == old(trace.calls) + [ProviderCalled(Lower(city))]
    {
      var cityNorm := Lower(city);
      LowerIdempotent(city);
      var temp := provider.GetCurrentTemperature(cityNorm);
      if temp.Err? {
        return Fail(temp.error);
      }
      var measurement := Build(cityNorm, temp.value, now);
      repository.Save(measurement, true);
      return Pass;
    }

    /**
     * `refreshMany($cities)`: refreshes each city in order and stops at the
     * first failure, which it reports; the cities after it are not touched.
     */
    method RefreshMany(cities: seq<string>, now: int) returns (o: Outcome)
      requires Valid()
      modifies provider, repository, trace
      ensures provider.temperatures == old(provider.temperatures)
      ensures var temperatures := old(provider.temperatures); var k := FirstUnknown(temperatures, cities);
        && o == (if k == |cities| then Pass else Fail(Missing(Lower(cities[k]))))
        && repository.State() == SaveAll(old(repository.State()), Fetched(temperatures, cities[..k], now))
        && trace.calls == old(trace.calls) + RefreshCalls(temperatures, cities[..k], now)
             + (if k < |cities| then [ProviderCalled(Lower(cities[k]))] else [])
        && provider.callCount == old(provider.callCount) + (if k < |cities| then k + 1 else k)
    {
      ghost var temperatures := provider.temperatures;
      for i := 0 to |cities|
        invariant provider.temperatures == temperatures
        invariant forall j :: 0 <= j < i ==> Known(temperatures, cities[j])
        invariant repository.State() == SaveAll(old(repository.State()), Fetched(temperatures, cities[..i], now))
        invariant trace.calls == old(trace.calls) + RefreshCalls(temperatures, cities[..i], now)
        invariant provider.callCount == old(provider.callCount) + i
      {
        var done := RefreshCity(cities[i], now);
        if done.Fail? {
          assert FirstUnknown(temperatures, cities) == i;
          return done;
        }
        RefreshStep(temperatures, cities, i, now, old(repository.State()));
      }
      assert cities[..|cities|] == cities;
      return Pass;
    }
  }

  /** Refreshing one more known city adds one save and its two calls. */
  lemma RefreshStep(temperatures: map<string, real>, cities: seq<string>, i: int, now: int, s: Store)
    requires 0 <= i < |cities|
    requires forall j :: 0 <= j <= i ==> Known(temperatures, cities[j])
    ensures Known(temperatures, cities[i])
    ensures var key := Lower(cities[i]);
      var record := Record(key, temperatures[key], now);
      && SaveAll(s, Fetched(temperatures, cities[..i + 1], now))
           == SaveStore(SaveAll(s, Fetched(temperatures, cities[..i], now)), record, true)
      && RefreshCalls(temperatures, cities[..i + 1], now)
           == RefreshCalls(temperatures, cities[..i], now) + [ProviderCalled(key), Saved(record, true)]
  {
    assert cities[..i + 1][..i] == cities[..i];
    assert Fetched(temperatures, cities[..i + 1], now)[..i] == Fetched(temperatures, cities[..i], now);
  }

  /** An empty list makes no call and stores nothing. */
  lemma NothingToRefresh(temperatures: map<string, real>, s: Store, now: int)
    ensures FirstUnknown(temperatures, []) == 0
    ensures SaveAll(s, Fetched(temperatures, [], now)) == s
    ensures RefreshCalls(temperatures, [], now) == []
  {
  }

  /** Each successful city adds one flushed row, so the stored rows grow by one per city refreshed. */
  lemma {:induction false} SaveAllGrowsRows(s: Store, records: seq<Record>)
    requires s.pending == []
    ensures SaveAll(s, records).pending == []
    ensures |SaveAll(s, records).rows| == |s.rows| + |records|
    ensures SaveAll(s, records).rows[..|s.rows|] == s.rows
    ensures forall i :: 0 <= i < |records| ==> SaveAll(s, records).rows[|s.rows| + i].record == records[i]
  {
    if records != [] {
      var init := records[..|records| - 1];
      SaveAllGrowsRows(s, init);
      var before := SaveAll(s, init);
      assert before.rows[..|s.rows|] == s.rows;
      forall i | 0 <= i < |records|
        ensures SaveAll(s, records).rows[|s.rows| + i].record == records[i]
      {
        if i < |init| {
          assert records[i] == init[i];
        }
      }
    }
  }
}
