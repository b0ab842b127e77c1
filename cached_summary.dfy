/**
 * The read-through cache in front of the read use case: one Redis entry
 * per normalised city name, holding the summary as five scalar fields.
 */
module CachedSummaries {
  import opened Wrappers
  import opened Numbers
  import opened Text
  import opened Temperatures
  import opened WeatherSummaries
  import opened Ports
  import opened GetCityWeather
  import Cities
  import Trends

  const KeyPrefix: string := "weather:summary:"
  const DefaultTtl: int := 300

  /** The JSON object stored under a key: city, current, average (or null), trend_direction, trend_delta. */
  datatype Payload = Payload(city: string, current: real, average: Option<real>, trendDirection: string, trendDelta: real)

  /** A stored value and the instant from which Redis no longer returns it. */
  datatype Entry = Entry(payload: Payload, expiresAt: int)

  /** The key for a raw city name. */
  function CacheKey(cityName: string): (key: string)
    ensures |key| == |KeyPrefix| + |Trim(cityName)|
    ensures key[..|KeyPrefix|] == KeyPrefix && key[|KeyPrefix|..] == Lower(Trim(cityName))
  {
    KeyPrefix + Lower(Trim(cityName))
  }

  /** The payload written on a miss. */
  function Encode(s: WeatherSummary): (p: Payload)
    ensures p.average.None? <==> !HasAverage(s)
    ensures HasAverage(s) ==> p.average == Some(s.averageTemperature.value.celsius)
    ensures p.city == Cities.Value(s.city) && p.current == s.currentTemperature.celsius
    ensures p.trendDirection == s.trend.direction && p.trendDelta == s.trend.delta
  {
    Payload(
      s.city.name,
      s.currentTemperature.celsius,
      if HasAverage(s) then Some(s.averageTemperature.value.celsius) else None,
      s.trend.direction,
      s.trend.delta)
  }

  /** The summary rebuilt on a hit through the value objects' constructors, which may refuse the fields. */
  function Decode(p: Payload): (r: Result<WeatherSummary>)
    ensures r.Ok? ==> WeatherSummaries.Valid(r.value)
    ensures r.Ok? <==> Cities.NewCity(p.city).Ok? && Trends.IsDirection(p.trendDirection)
  {
    var city :- Cities.NewCity(p.city);
    // A JSON number is always finite, so these two constructions cannot fail.
    var current := NewTemperature(Finite(p.current)).value;
    var average := match p.average
      case None => None
      case Some(a) => Some(NewTemperature(Finite(a)).value);
    var trend :- Trends.NewTrend(p.trendDirection, Finite(p.trendDelta));
    Ok(WeatherSummary(city, current, average, trend))
  }

  /** Reading back what was written gives the same summary. */
  lemma RoundTrip(s: WeatherSummary)
    requires WeatherSummaries.Valid(s)
    ensures Decode(Encode(s)) == Ok(s)
  {
    var name := s.city.name;
    TrimKeepsTrimmed(name);
    assert !IsTrimmable(name[0]);
  }

  /** What `GET key` answers at time `now`: the payload if the key is set and not yet expired. */
  function LookupIn(entries: map<string, Entry>, key: string, now: int): (p: Option<Payload>)
    ensures p.Some? <==> key in entries && now < entries[key].expiresAt
    ensures p.Some? ==> p.value == entries[key].payload
  {
    if key in entries && now < entries[key].expiresAt then Some(entries[key].payload) else None
  }

  /** Every stored payload can be read back into a summary. */
  predicate WellFormed(entries: map<string, Entry>)
  {
    forall k :: k in entries ==> Decode(entries[k].payload).Ok?
  }

  /** The Redis server, reduced to a key/value map with expiry. */
  class Redis {
    var entries: map<string, Entry>

    constructor ()
      ensures entries == map[]
    {
      entries := map[];
    }

    function Lookup(key: string, now: int): Option<Payload>
      reads this
    {
      LookupIn(entries, key, now)
    }

    /** `get($key)`; false in PHP is None here. */
    method Get(key: string, now: int) returns (p: Option<Payload>)
      ensures p == LookupIn(entries, key, now)
    {
      p := LookupIn(entries, key, now);
    }

    /** `setex($key, $ttl, $value)`: Redis refuses a TTL that is not positive and stores nothing. */
    method Setex(key: string, ttl: int, payload: Payload, now: int) returns (o: Outcome)
      modifies this
      ensures o.Pass? <==> ttl > 0
      ensures o.Fail? ==> o.error == InvalidArgument("invalid expire time in 'setex' command")
      ensures entries == if ttl > 0 then old(entries)[key := Entry(payload, now + ttl)] else old(entries)
    {
      if ttl <= 0 {
        return Fail(InvalidArgument("invalid expire time in 'setex' command"));
      }
      entries := entries[key := Entry(payload, now + ttl)];
      return Pass;
    }
  }

  class CachedGetCityWeatherService {
    const inner: GetCityWeatherService
    const redis: Redis
    const ttlSeconds: int

    constructor (inner: GetCityWeatherService, redis: Redis, ttlSeconds: int := DefaultTtl)
      ensures this.inner == inner && this.redis == redis && this.ttlSeconds == ttlSeconds
    {
      this.inner := inner;
      this.redis := redis;
      this.ttlSeconds := ttlSeconds;
    }

    /** The entries after a miss for `cityName` that the inner service answered with `r`. */
    function AfterMiss(before: map<string, Entry>, cityName: string, r: Result<WeatherSummary>, now: int): map<string, Entry>
    {
      if r.Ok? && ttlSeconds > 0 then before[CacheKey(cityName) := Entry(Encode(r.value), now + ttlSeconds)]
      else before
    }

    /**
     * `getSummaryForCity($cityName)`. A hit rebuilds the stored summary and
     * touches nothing else; a miss calls the inner service once with the raw
     * name, stores its summary for `ttlSeconds` and returns it unchanged.
     * The answer of `setex` is ignored, as in PHP.
     */
    method GetSummaryForCity(cityName: string, now: int) returns (r: Result<WeatherSummary>)
      requires inner.Valid()
      modifies redis, inner.trace
      ensures var hit := old(redis.Lookup(CacheKey(cityName), now));
        hit.Some? ==>
          && r == Decode(hit.value)
          && redis.entries == old(redis.entries)
          && inner.trace.events == old(inner.trace.events)
      ensures var hit := old(redis.Lookup(CacheKey(cityName), now));
        var computed := inner.Expected(cityName, inner.history.saved, now);
        hit.None? ==>
          && r == computed
          && redis.entries == AfterMiss(old(redis.entries), cityName, computed, now)
          && inner.trace.events == old(inner.trace.events) + inner.ExpectedCalls(cityName)
      ensures WellFormed(old(redis.entries)) ==> WellFormed(redis.entries)
      ensures WellFormed(old(redis.entries)) && r.Ok? ==> WeatherSummaries.Valid(r.value)
    {
      var key := CacheKey(Text.Trim(cityName));
      assert key == CacheKey(cityName) by {
        TrimIdempotent(cityName);
      }
      var cached := redis.Get(key, now);
      if cached.Some? {
        return Decode(cached.value);
      }
      r := Miss(cityName, key, now);
    }

    /** The miss path: compute through the inner service and store the summary under `key`. */
    method Miss(cityName: string, key: string, now: int) returns (r: Result<WeatherSummary>)
      requires inner.Valid() && key == CacheKey(cityName)
      modifies redis, inner.trace
      ensures var computed := inner.Expected(cityName, inner.history.saved, now);
        && r == computed
        && redis.entries == AfterMiss(old(redis.entries), cityName, computed, now)
        && inner.trace.events == old(inner.trace.events) + inner.ExpectedCalls(cityName)
      ensures WellFormed(old(redis.entries)) ==> WellFormed(redis.entries)
      ensures r.Ok? ==> WeatherSummaries.Valid(r.value)
    {
      ghost var before := redis.entries;
      r := inner.GetSummaryForCity(cityName, now);
      if r.Err? {
        return;
      }
      ExpectedSummary(inner, cityName, inner.history.saved, now);
      RoundTrip(r.value);
      var _ := redis.Setex(key, ttlSeconds, Encode(r.value), now);
      assert redis.entries == AfterMiss(before, cityName, r, now);
    }
  }

  /** Two raw names share an entry exactly when the Cities built from them are equal. */
  lemma SameKeyIffEqualCities(a: string, b: string)
    requires Cities.NewCity(a).Ok? && Cities.NewCity(b).Ok?
    ensures CacheKey(a) == CacheKey(b) <==> Cities.Equals(Cities.NewCity(a).value, Cities.NewCity(b).value)
  {
    if CacheKey(a) == CacheKey(b) {
      assert Lower(Trim(a)) == CacheKey(a)[|KeyPrefix|..];
    }
  }

  /**
   * After a miss stores `s` for `a`, a lookup for any name with the same
   * normalised form made before the entry expires returns `s`.
   */
  lemma EquivalentNameHitsStoredEntry(entries: map<string, Entry>, a: string, b: string,
                                      s: WeatherSummary, now: int, later: int, ttl: int)
    requires WeatherSummaries.Valid(s)
    requires Lower(Trim(a)) == Lower(Trim(b))
    requires now <= later < now + ttl
    ensures var after := entries[CacheKey(a) := Entry(Encode(s), now + ttl)];
      LookupIn(after, CacheKey(b), later).Some?
      && Decode(LookupIn(after, CacheKey(b), later).value) == Ok(s)
  {
    RoundTrip(s);
  }

  /**
   * Two calls with equivalent names, the first a miss: the second returns
   * what the first returned and makes no further port call.
   */
  method TwoCallsOneComputation(svc: CachedGetCityWeatherService, first: string, second: string, now: int, later: int)
    returns (r1: Result<WeatherSummary>, r2: Result<WeatherSummary>)
    requires svc.inner.Valid()
    requires Lower(Trim(first)) == Lower(Trim(second))
    requires now <= later < now + svc.ttlSeconds
    requires svc.redis.Lookup(CacheKey(first), now).None?
    modifies svc.redis, svc.inner.trace
    ensures r1.Ok? ==> r2 == r1
    ensures r1.Ok? ==> svc.inner.trace.events == old(svc.inner.trace.events) + svc.inner.ExpectedCalls(first)
  {
    r1 := svc.GetSummaryForCity(first, now);
    if r1.Ok? {
      ExpectedSummary(svc.inner, first, svc.inner.history.saved, now);
      EquivalentNameHitsStoredEntry(old(svc.redis.entries), first, second, r1.value, now, later, svc.ttlSeconds);
    }
    r2 := svc.GetSummaryForCity(second, later);
  }
}
