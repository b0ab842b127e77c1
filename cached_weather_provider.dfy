/**
 * The legacy provider decorator: the newest stored row for a city is used
 * while it is at most `ttlSeconds` old; otherwise the inner provider is
 * asked and its reading is stored.
 */
module LegacyCachedProviders {
  import opened Wrappers
  import opened Text
  import opened LegacyEntities
  import opened LegacyRepositories
  import opened FakeProviders

  const DefaultTtl: int := 3600

  /** The stored row may be served: it exists and its age is at most the TTL (the boundary is a hit). */
  predicate IsFresh(latest: Option<StoredRow>, now: int, ttl: int)
  {
    latest.Some? && now - latest.value.record.fetchedAt <= ttl
  }

  class CachedWeatherProvider {
    const inner: FakeThirdPartyWeatherProvider
    const repository: MeasurementRepository
    const ttlSeconds: int
    const trace: Trace

    predicate Valid()
    {
      inner.trace == trace && repository.trace == trace
    }

    constructor (inner: FakeThirdPartyWeatherProvider, repository: MeasurementRepository, ttlSeconds: int := DefaultTtl)
      requires inner.trace == repository.trace
      ensures Valid() && this.inner == inner && this.repository == repository && this.ttlSeconds == ttlSeconds
    {
      this.inner := inner;
      this.repository := repository;
      this.ttlSeconds := ttlSeconds;
      this.trace := inner.trace;
    }

    /** `getCurrentTemperature($city)` at time `now`. */
    method GetCurrentTemperature(city: string, now: int) returns (r: Result<real>)
      requires Valid()
      modifies inner, repository, trace
      ensures inner.temperatures == old(inner.temperatures)
      ensures var key := Lower(city); var latest := Latest(old(repository.rows), key);
        IsFresh(latest, now, ttlSeconds) ==>
          && r == Ok(latest.value.record.temperature)
          && repository.State() == old(repository.State())
          && inner.callCount == old(inner.callCount)
          && trace.calls == old(trace.calls) + [LatestQueried(key)]
      ensures var key := Lower(city); var latest := Latest(old(repository.rows), key);
        !IsFresh(latest, now, ttlSeconds) ==>
          && r == Answer(old(inner.temperatures), key)
          && inner.callCount == old(inner.callCount) + 1
          && repository.State() == (if r.Ok? then SaveStore(old(repository.State()), Record(key, r.value, now), true)
                                    else old(repository.State()))
          && trace.calls == old(trace.calls) + [LatestQueried(key), ProviderCalled(key)]
               + (if r.Ok? then [Saved(Record(key, r.value, now), true)] else [])
    {
      var key := Lower(city);
      LowerIdempotent(city);
      var latest := repository.FindLatestForCity(key);
      if latest.Some? {
        var ageSeconds := now - latest.value.record.fetchedAt;
        if ageSeconds <= ttlSeconds {
          return Ok(latest.value.record.temperature);
        }
      }
      var freshTemp :- inner.GetCurrentTemperature(key);
      var measurement := Build(key, freshTemp, now);
      repository.Save(measurement, true);
      return Ok(freshTemp);
    }
  }

  /** A row written after every other row of its city and no older than them is the one found. */
  lemma {:induction false} LatestFindsNewestAppended(rows: seq<StoredRow>, row: StoredRow, key: string)
    requires row.record.city == key
    requires forall x :: x in rows && x.record.city == key ==> x.record.fetchedAt <= row.record.fetchedAt
    ensures Latest(rows + [row], key) == Some(row)
  {
    assert (rows + [row])[..|rows|] == rows;
  }

  /**
   * After a miss at `now` stores reading `t` (with nothing queued and no
   * row of the city from the future), a call at `later` no more than the
   * TTL after `now` is a hit that returns `t`.
   */
  lemma SecondCallHits(s: Store, key: string, t: real, now: int, later: int, ttl: int)
    requires s.pending == []
    requires forall x :: x in s.rows && x.record.city == key ==> x.record.fetchedAt <= now
    requires now <= later <= now + ttl
    ensures var latest := Latest(SaveStore(s, Record(key, t, now), true).rows, key);
      IsFresh(latest, later, ttl) && latest.value.record.temperature == t
  {
    var after := SaveStore(s, Record(key, t, now), true);
    var row := StoredRow(s.nextId, Record(key, t, now));
    assert after.rows == s.rows + [row];
    LatestFindsNewestAppended(s.rows, row, key);
  }

  /** The age boundary: exactly `ttl` seconds old is still served, one second more is not. */
  lemma FreshnessBoundary(row: StoredRow, ttl: int)
    ensures IsFresh(Some(row), row.record.fetchedAt + ttl, ttl)
    ensures !IsFresh(Some(row), row.record.fetchedAt + ttl + 1, ttl)
  {
  }
}
