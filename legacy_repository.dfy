/**
 * An in-memory stand-in for the legacy Doctrine repository: stored rows
 * with database ids, a queue of persisted but unflushed records, and the
 * two queries the legacy services use.
 */
module LegacyRepositories {
  import opened Wrappers
  import opened Text
  import opened LegacyEntities

  datatype StoredRow = StoredRow(id: int, record: Record)

  /** The calls the legacy collaborators receive, oldest first. */
  datatype Call =
    | ProviderCalled(city: string)
    | LatestQueried(city: string)
    | RecentQueried(city: string, limit: int)
    | Saved(record: Record, flush: bool)

  class Trace {
    ghost var calls: seq<Call>

    constructor ()
      ensures calls == []
    {
      calls := [];
    }
  }

  /** The repository's contents: flushed rows, persisted records awaiting a flush, and the next id. */
  datatype Store = Store(rows: seq<StoredRow>, pending: seq<Record>, nextId: int)

  /** Ids are assigned in increasing order and are all below `nextId`. */
  predicate IdsIncreasing(s: Store)
  {
    && (forall i, j :: 0 <= i < j < |s.rows| ==> s.rows[i].id < s.rows[j].id)
    && (forall i :: 0 <= i < |s.rows| ==> s.rows[i].id < s.nextId)
  }

  /** `save($measurement, $flush)`: persist, then on flush write every queued record with fresh ids. */
  function SaveStore(s: Store, r: Record, flush: bool): (t: Store)
    ensures !flush ==> t == Store(s.rows, s.pending + [r], s.nextId)
    ensures flush ==> t.pending == [] && t.nextId == s.nextId + |s.pending| + 1
    ensures flush ==> |t.rows| == |s.rows| + |s.pending| + 1 && t.rows[..|s.rows|] == s.rows
    ensures flush ==> forall i :: 0 <= i <= |s.pending| ==>
      t.rows[|s.rows| + i] == StoredRow(s.nextId + i, (s.pending + [r])[i])
    ensures IdsIncreasing(s) ==> IdsIncreasing(t)
  {
    var queued := s.pending + [r];
    if !flush then Store(s.rows, queued, s.nextId)
    else
      var written := seq(|queued|, i requires 0 <= i < |queued| => StoredRow(s.nextId + i, queued[i]));
      Store(s.rows + written, [], s.nextId + |queued|)
  }

  /** `findLatestForCity`: the row for `city` with the greatest time; among equal times, the last written. */
  function Latest(rows: seq<StoredRow>, city: string): (r: Option<StoredRow>)
    ensures r.Some? ==> r.value in rows && r.value.record.city == city
    ensures r.Some? ==> forall x :: x in rows && x.record.city == city ==> x.record.fetchedAt <= r.value.record.fetchedAt
    ensures r.None? ==> forall x :: x in rows ==> x.record.city != city
  {
    if rows == [] then None
    else
      var last := rows[|rows| - 1];
      var earlier := Latest(rows[..|rows| - 1], city);
      assert rows == rows[..|rows| - 1] + [last];
      if last.record.city != city then earlier
      else if earlier.Some? && earlier.value.record.fetchedAt > last.record.fetchedAt then earlier
      else Some(last)
  }

  /** `rows` with the first occurrence of `x` taken out. */
  function Remove(rows: seq<StoredRow>, x: StoredRow): (r: seq<StoredRow>)
    ensures multiset(r) == multiset(rows) - multiset{x}
    ensures x in rows ==> |r| == |rows| - 1
  {
    if rows == [] then []
    else
      assert rows == [rows[0]] + rows[1..];
      if rows[0] == x then rows[1..] else [rows[0]] + Remove(rows[1..], x)
  }

  /** What a query for the `limit` newest rows of `city` guarantees of its answer `r`. */
  predicate NewestFirst(rows: seq<StoredRow>, city: string, limit: int, r: seq<StoredRow>)
  {
    && multiset(r) <= multiset(rows)
    && |r| <= (if limit < 0 then 0 else limit)
    && (forall x :: x in r ==> x.record.city == city)
    && (forall i, j :: 0 <= i < j < |r| ==> r[i].record.fetchedAt >= r[j].record.fetchedAt)
    && (forall y :: y in rows && y.record.city == city && y !in r ==>
          |r| >= limit && forall x :: x in r ==> y.record.fetchedAt <= x.record.fetchedAt)
  }

  /**
   * `findLastNDaysForCity`: despite its name, the `limit` most recent rows
   * for `city`, newest first; every row for `city` that is left out is no
   * newer than the ones returned, and is left out only once `limit` rows
   * have been taken. A limit that is not positive gives no rows.
   */
  function Recent(rows: seq<StoredRow>, city: string, limit: int): (r: seq<StoredRow>)
    decreases |rows|
    ensures NewestFirst(rows, city, limit, r)
  {
    if limit <= 0 then []
    else
      match Latest(rows, city)
      case None => []
      case Some(newest) =>
        var rest := Recent(Remove(rows, newest), city, limit - 1);
        NewestFirstStep(rows, city, limit, newest, rest);
        [newest] + rest
  }

  /** Putting the newest row in front of the answer for the remaining rows answers the query. */
  lemma NewestFirstStep(rows: seq<StoredRow>, city: string, limit: int, newest: StoredRow, rest: seq<StoredRow>)
    requires limit > 0 && Latest(rows, city) == Some(newest)
    requires NewestFirst(Remove(rows, newest), city, limit - 1, rest)
    ensures NewestFirst(rows, city, limit, [newest] + rest)
  {
    var r := [newest] + rest;
    assert multiset(r) == multiset{newest} + multiset(rest);
    StepKeepsOrder(rows, city, newest, rest);
    StepKeepsCompleteness(rows, city, limit, newest, rest);
  }

  lemma StepKeepsOrder(rows: seq<StoredRow>, city: string, newest: StoredRow, rest: seq<StoredRow>)
    requires Latest(rows, city) == Some(newest)
    requires multiset(rest) <= multiset(Remove(rows, newest))
    requires forall x :: x in rest ==> x.record.city == city
    requires forall i, j :: 0 <= i < j < |rest| ==> rest[i].record.fetchedAt >= rest[j].record.fetchedAt
    ensures forall i, j :: 0 <= i < j < |[newest] + rest| ==>
      ([newest] + rest)[i].record.fetchedAt >= ([newest] + rest)[j].record.fetchedAt
  {
    forall k | 0 <= k < |rest|
      ensures rest[k].record.fetchedAt <= newest.record.fetchedAt
    {
      RestNoNewer(rows, city, newest, rest, rest[k]);
    }
    PrependKeepsOrder(newest, rest);
  }

  /** A row for `city` that is still there once the newest is taken out is no newer than it. */
  lemma RestNoNewer(rows: seq<StoredRow>, city: string, newest: StoredRow, rest: seq<StoredRow>, x: StoredRow)
    requires Latest(rows, city) == Some(newest)
    requires multiset(rest) <= multiset(Remove(rows, newest))
    requires x in rest && x.record.city == city
    ensures x.record.fetchedAt <= newest.record.fetchedAt
  {
    assert x in multiset(rest);
    assert x in multiset(Remove(rows, newest));
    assert x in multiset(rows);
  }

  /** Newest-first order survives putting a row no older than all the others in front. */
  lemma PrependKeepsOrder(newest: StoredRow, rest: seq<StoredRow>)
    requires forall k :: 0 <= k < |rest| ==> rest[k].record.fetchedAt <= newest.record.fetchedAt
    requires forall i, j :: 0 <= i < j < |rest| ==> rest[i].record.fetchedAt >= rest[j].record.fetchedAt
    ensures forall i, j :: 0 <= i < j < |[newest] + rest| ==>
      ([newest] + rest)[i].record.fetchedAt >= ([newest] + rest)[j].record.fetchedAt
  {
    var r := [newest] + rest;
    forall i, j | 0 <= i < j < |r|
      ensures r[i].record.fetchedAt >= r[j].record.fetchedAt
    {
      assert r[j] == rest[j - 1];
      if i > 0 {
        assert r[i] == rest[i - 1];
      }
    }
  }

  lemma StepKeepsCompleteness(rows: seq<StoredRow>, city: string, limit: int, newest: StoredRow, rest: seq<StoredRow>)
    requires Latest(rows, city) == Some(newest)
    requires forall y :: y in Remove(rows, newest) && y.record.city == city && y !in rest ==>
      |rest| >= limit - 1 && forall x :: x in rest ==> y.record.fetchedAt <= x.record.fetchedAt
    ensures forall y :: y in rows && y.record.city == city && y !in [newest] + rest ==>
      |[newest] + rest| >= limit && forall x :: x in [newest] + rest ==> y.record.fetchedAt <= x.record.fetchedAt
  {
    forall y | y in rows && y.record.city == city && y !in [newest] + rest
      ensures y in Remove(rows, newest)
    {
      assert y in multiset(Remove(rows, newest));
    }
  }

  class MeasurementRepository {
    var rows: seq<StoredRow>
    var pending: seq<Record>
    var nextId: int
    const trace: Trace

    function State(): Store
      reads this
    {
      Store(rows, pending, nextId)
    }

    constructor (trace: Trace)
      ensures State() == Store([], [], 1) && IdsIncreasing(State())
      ensures this.trace == trace
    {
      rows := [];
      pending := [];
      nextId := 1;
      this.trace := trace;
    }

    /** `save($measurement, $flush = true)`; the record must be complete, as the table's columns demand. */
    method Save(m: WeatherMeasurement, flush: bool)
      requires m.Complete()
      modifies this, trace
      ensures State() == SaveStore(old(State()), old(m.Contents()), flush)
      ensures trace.calls == old(trace.calls) + [Saved(old(m.Contents()), flush)]
    {
      trace.calls := trace.calls + [Saved(m.Contents(), flush)];
      var s := SaveStore(State(), m.Contents(), flush);
      rows := s.rows;
      pending := s.pending;
      nextId := s.nextId;
    }

    /** `findLatestForCity($city)`: the name is lower-cased before the lookup. */
    method FindLatestForCity(city: string) returns (r: Option<StoredRow>)
      modifies trace
      ensures r == Latest(rows, Lower(city))
      ensures trace.calls == old(trace.calls) + [LatestQueried(city)]
    {
      trace.calls := trace.calls + [LatestQueried(city)];
      r := Latest(rows, Lower(city));
    }

    /** `findLastNDaysForCity($city, $limit)`: the name is lower-cased before the lookup. */
    method FindLastNDaysForCity(city: string, limit: int) returns (r: seq<StoredRow>)
      modifies trace
      ensures r == Recent(rows, Lower(city), limit)
      ensures trace.calls == old(trace.calls) + [RecentQueried(city, limit)]
    {
      trace.calls := trace.calls + [RecentQueried(city, limit)];
      r := Recent(rows, Lower(city), limit);
    }
  }
}
