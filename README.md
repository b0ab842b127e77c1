# Weather service — a verified Dafny model

This project models the weather-summary pipeline of a PHP weather service. The pipeline exists in two generations, and both are modelled.

**The newer, hexagonal code** (`Domain`, `Application`, `Infrastructure/Cache`):

- Value objects: `Temperature`, `City`, `MeasurementTime`, `Trend`, `TrendAnalysis`, `WeatherSummary`, and the domain `WeatherMeasurement`.
- `SimpleTrendCalculator`: it takes the mean of the history and classifies the current reading against a threshold as hotter, colder or stable.
- Two application services:
  - the read use case, `GetCityWeatherService`;
  - the write use case, `ImportCityWeatherService`.
- The Redis read-through cache decorator, `CachedGetCityWeatherService`.
- The response DTO, `WeatherSummaryDto`.

**The legacy code** (`Service/Weather`, `Entity`):

- The mutable Doctrine record.
- `DefaultTrendCalculator`: an average with a fallback, and a `+`/`-`/`=` sign with a 0.5 dead band.
- `WeatherService`.
- `CachedWeatherProvider`: a TTL rule over the newest stored row.
- `FakeThirdPartyWeatherProvider`.
- `HourlyWeatherFetcher`.

**How the model represents things:**

- Value objects are datatypes. Operations on them are functions.
- Anything that updates state in place is a class with `modifies` clauses:
  - the legacy record;
  - the repository and history-store stand-ins;
  - Redis;
  - the fake provider's map and counter;
  - the services.
- The loops of the source (`calculateTrend`, `computeAverageOrNull`, `calculateAverage`, the fake provider's seeding loop, `refreshMany`) are `for` loops. Each is proved equal to a specification function.
- Exceptions are `Result`/`Outcome` values.
- Temperatures are reals. Where the source checks `is_nan`/`is_infinite`, the argument is a `Float`, which can also be NaN or infinite.
- Time is whole seconds. It is passed in as `now`, because the source reads the clock itself.
- Collaborator calls are recorded in a ghost trace. Contracts can therefore state which calls a use case makes, with which arguments, and in what order.

**Collaborator stand-ins:**

- The new stack's ports are two classes:
  - `Ports.ScriptedProvider`, whose answer per city is fixed in advance;
  - `Ports.InMemoryHistory`, a store answering the port's query. Its answer contains the measurements for the same city (case-insensitively) taken within the last `days` days.
- The legacy repository stand-in follows the Doctrine queries of `Repository/WeatherMeasurementRepository.php`:
  - `findLatestForCity`: the newest row for the lower-cased name;
  - `findLastNDaysForCity`: the N newest rows, newest first.
- The legacy services are given `FakeThirdPartyWeatherProvider` as their provider.

**Where the code and its documentation disagree, the model follows the code:**

- `City` keeps the trimmed name's case, although its docblock speaks of a lower-cased canonical form.
- `SimpleTrendCalculator` has no `analyze` method, although its tests call one. The pair the tests check is `SimpleTrendCalculators.Analyze`: `calculateTrend`'s trend plus the history average.
- `findLastNDaysForCity` returns the N newest rows, not the rows of the last N days.
- A `Trend` is not checked against the sign of its delta.
- A zero delta under a zero threshold is classified colder.

**Two source files do not run as written:**

- `DefaultTrendCalculator.php` has a stray `wq` after `declare(strict_types=1);`, so it does not parse. This is recorded under Findings; the model follows the logic the rest of the file evidently intends.
- `City`'s constructor assigns a promoted `readonly` property. This is recorded under Findings.

## Model

| member | source | states |
|---|---|---|
| Temperatures.NewTemperature | app/src/Domain/ValueObjects/Temperature.php:14-25 | construction succeeds exactly for finite input, and then `value()` is the argument; NaN and the infinities give InvalidArgument |
| Temperatures.ComparisonsAgree | app/src/Domain/ValueObjects/Temperature.php:27-40 | `isAbove(a,b)` iff `isBelow(b,a)`; never both; neither for equal values; `difference` is antisymmetric and zero on itself |
| Temperatures.EqualsWithin | app/src/Domain/ValueObjects/Temperature.php:42-45 | `equals` holds iff the difference lies strictly within ±epsilon; it is symmetric, and reflexive exactly when epsilon > 0; with the default epsilon 0.0001 every temperature equals itself |
| Text.TrimShape | app/src/Domain/ValueObjects/City.php:20 | `trim` returns a contiguous slice of its input that has no trimmable character at either end, and drops only trimmable characters |
| Text.TrimIdempotent | app/src/Domain/ValueObjects/City.php:20 | trimming twice is trimming once |
| Text.TrimEmptyIff | app/src/Domain/ValueObjects/City.php:20-22 | the trimmed name is empty iff every character is whitespace of PHP's default trim set |
| Text.LowerIdempotent | app/src/Domain/ValueObjects/City.php:39 | lower-casing twice is lower-casing once |
| Cities.NewCity | app/src/Domain/ValueObjects/City.php:17-27 | as intended: succeeds iff the name is not blank; the stored name is the trimmed input with its case kept, non-empty, with trimmed edges; a blank name gives "City name cannot be empty." |
| Cities.NewCityAsWritten | app/src/Domain/ValueObjects/City.php:17-27 | as written: never succeeds; a blank name gives the empty-name error, and any other name fails when the readonly property is reassigned |
| Cities.ReadonlyCounterexample | app/src/Domain/ValueObjects/City.php:26 | "Sofia" is accepted by the intended constructor and rejected by the written one |
| Cities.EqualsIsEquivalence | app/src/Domain/ValueObjects/City.php:37-40 | `equals` is reflexive, symmetric and transitive |
| Cities.EqualsIgnoresCaseAndSpaces | app/src/Domain/ValueObjects/City.php:20-40 | two names build equal cities iff they agree after trimming and lower-casing |
| Cities.SofiaExample | app/src/Domain/ValueObjects/City.php:20-45 | `City("  Sofia ")` stores "Sofia", equals `City("SOFIA")`, and its value is not lower-cased |
| MeasurementTimes.OrderIsStrict | app/src/Domain/ValueObjects/MeasurementTime.php:37-45 | `isBefore(a,b)` iff `isAfter(b,a)`; both are irreflexive and exclusive |
| Trends.NewTrend | app/src/Domain/ValueObjects/Trend.php:19-49 | succeeds iff the direction is hotter/colder/stable and the delta is finite, checked in that order with the source's messages; the accessors return the arguments |
| Trends.ExactlyOneDirection | app/src/Domain/ValueObjects/Trend.php:51-64 | a constructed trend answers yes to exactly one of `isHotter`, `isColder`, `isStable` |
| Trends.LabelStableIff | app/src/Domain/ValueObjects/Trend.php:69-73 | the label (and `__toString`) is "stable" iff the trend is stable |
| Trends.LabelOfMovingTrend | app/src/Domain/ValueObjects/Trend.php:75-79 | a moving trend's label is its direction word, " by ", then the formatted magnitude of the delta and "°C" |
| Trends.LabelIgnoresSign | app/src/Domain/ValueObjects/Trend.php:75-79 | the label depends on the absolute delta only |
| DomainMeasurements.OrderFollowsTime | app/src/Domain/Entities/WeatherMeasurement.php:56-64 | a measurement is before another iff its instant is smaller; before/after are converse; equal times are neither |
| Numbers.SumByPermutation | app/src/Domain/Services/SimpleTrendCalculator.php:37-53 | the running sum of a `foreach` is the same for any reordering of the list |
| SimpleTrendCalculators.NewSimpleTrendCalculator | app/src/Domain/Services/SimpleTrendCalculator.php:21-27 | a negative threshold is refused with the source's message; zero and above are accepted; the threshold defaults to 0.3 |
| SimpleTrendCalculators.CalculateTrend | app/src/Domain/Services/SimpleTrendCalculator.php:29-68 | the loop computes the specified trend: stable 0.0 for no history, else the delta current − mean classified against the threshold |
| SimpleTrendCalculators.ClassifyBoundaries | app/src/Domain/Services/SimpleTrendCalculator.php:56-67 | stable iff the delta is strictly inside ±threshold; a delta of exactly the threshold is hotter, of minus it colder; delta 0 under threshold 0 is colder |
| SimpleTrendCalculators.TrendOfIsValid | app/src/Domain/Services/SimpleTrendCalculator.php:59-67 | every computed trend passes the Trend constructor's checks |
| SimpleTrendCalculators.TrendOfPermutation | app/src/Domain/Services/SimpleTrendCalculator.php:37-53 | reordering the history changes neither the trend nor the average |
| SimpleTrendCalculators.AnalyzeConsistent | app/tests/Domain/Services/SimpleTrendCalculatorTest.php:17-35 | the analysis has an average iff the history is non-empty; no history gives (stable, 0.0) with no average; otherwise the delta is current minus the average |
| SimpleTrendCalculators.AverageWithinRange | app/src/Domain/Services/SimpleTrendCalculator.php:37-53 | the mean lies between the smallest and largest reading |
| SimpleTrendCalculators.ScenarioHotter | app/tests/Domain/Services/SimpleTrendCalculatorTest.php:37-82 | 10, 12, 14 with current 20 and threshold 0.3 gives average 12 and hotter by 8 |
| SimpleTrendCalculators.ScenarioColder | app/tests/Domain/Services/SimpleTrendCalculatorTest.php:84-128 | 18, 20, 22 with current 18 gives average 20 and colder by −2 |
| SimpleTrendCalculators.ScenarioStable | app/tests/Domain/Services/SimpleTrendCalculatorTest.php:130-173 | 20, 20, 20 with current 20.2 and threshold 0.5 gives average 20 and stable |
| Ports.ScriptedProvider.GetCurrentTemperature | app/src/Application/Ports/CurrentWeatherProviderInterface.php:16 | answers the scripted reading for the city and records the call |
| Ports.Window | app/src/Application/Ports/WeatherHistoryPortInterface.php:18-25 | a measurement is in the answer iff it was saved, is for the same city case-insensitively, and lies within the last `days` days |
| Ports.WindowCounts | app/src/Application/Ports/WeatherHistoryPortInterface.php:18-25 | the window keeps every occurrence: a measurement saved n times appears n times if it is in range, and not at all otherwise |
| Ports.InMemoryHistory.FindMeasurementsForLastNDays | app/src/Application/Ports/WeatherHistoryPortInterface.php:18-25 | answers the window, or fails when the store is unavailable; records the call |
| Ports.InMemoryHistory.SaveMeasurement | app/src/Application/Ports/WeatherHistoryPortInterface.php:27 | appends the measurement (or fails when unavailable); records the call |
| GetCityWeather.ComputeAverageOrNull | app/src/Application/Services/GetCityWeatherService.php:60-83 | null for an empty history, otherwise sum / count of the readings |
| GetCityWeather.GetCityWeatherService.GetSummaryForCity | app/src/Application/Services/GetCityWeatherService.php:34-55 | the result is the City, provider reading, 10-day window trend and average; the calls are provider then history, none after a failure |
| GetCityWeather.ExpectedSummary | app/src/Application/Services/GetCityWeatherService.php:34-55 | a blank name fails with no port call; a success carries the City, the provider reading unchanged, an average iff the window is non-empty, and the calculator's trend, whose delta is current − average |
| GetCityWeather.SummaryIgnoresHistoryOrder | app/src/Application/Services/GetCityWeatherService.php:60-83 | the order in which the store returns the history does not change the summary |
| ImportCityWeather.ImportCityWeatherService.ImportForCity | app/src/Application/Services/ImportCityWeatherService.php:21-39 | builds (null id, City, reading, now), saves it with one call and returns it; nothing is saved after a failure |
| ImportCityWeather.ImportOutcome | app/src/Application/Services/ImportCityWeatherService.php:21-39 | a blank name makes no call; a provider failure is returned and only the provider was called; a success saves exactly the built measurement |
| CachedSummaries.CacheKey | app/src/Infrastructure/Cache/CachedGetCityWeatherService.php:33-34 | the key is "weather:summary:" followed by the lower-cased, trimmed name |
| CachedSummaries.Encode | app/src/Infrastructure/Cache/CachedGetCityWeatherService.php:59-67 | the payload holds the city string, current value, trend direction and delta, and an average that is null iff the summary has none |
| CachedSummaries.Decode | app/src/Infrastructure/Cache/CachedGetCityWeatherService.php:47-54 | rebuilding succeeds iff the stored city is non-blank and the direction is known, and then yields a valid summary |
| CachedSummaries.RoundTrip | app/src/Infrastructure/Cache/CachedGetCityWeatherService.php:47-67 | decoding the encoding of a valid summary gives the same summary |
| CachedSummaries.LookupIn | app/src/Infrastructure/Cache/CachedGetCityWeatherService.php:36-38 | `get` answers a payload iff the key is set and not yet expired |
| CachedSummaries.Redis.Get | app/src/Infrastructure/Cache/CachedGetCityWeatherService.php:36 | `get` answers as `LookupIn` does |
| CachedSummaries.Redis.Setex | app/src/Infrastructure/Cache/CachedGetCityWeatherService.php:69-73 | a positive TTL stores the payload until now + TTL (last writer wins); a non-positive one stores nothing |
| CachedSummaries.CachedGetCityWeatherService.constructor | app/src/Infrastructure/Cache/CachedGetCityWeatherService.php:24-29 | keeps the inner service, the Redis client and the TTL, which defaults to 300 seconds |
| CachedSummaries.CachedGetCityWeatherService.GetSummaryForCity | app/src/Infrastructure/Cache/CachedGetCityWeatherService.php:31-76 | on a hit, the stored summary is rebuilt with no inner call and no write; on a miss, one inner call with the raw name, the payload stored under the key for the TTL, and the inner result returned; decodable entries stay decodable |
| CachedSummaries.CachedGetCityWeatherService.Miss | app/src/Infrastructure/Cache/CachedGetCityWeatherService.php:57-75 | the miss path: the inner result is returned unchanged; on success its payload is stored under the key for the TTL, and setex's answer is ignored |
| CachedSummaries.SameKeyIffEqualCities | app/src/Infrastructure/Cache/CachedGetCityWeatherService.php:33-34 | two names share a key iff the cities built from them are equal |
| CachedSummaries.EquivalentNameHitsStoredEntry | app/src/Infrastructure/Cache/CachedGetCityWeatherService.php:33-57 | after a store for one name, a lookup for an equivalent name before expiry finds it and decodes to the stored summary |
| CachedSummaries.TwoCallsOneComputation | app/src/Infrastructure/Cache/CachedGetCityWeatherService.php:31-76 | a second call with an equivalent name within the TTL returns the first result and makes no further port call |
| SummaryDtos.FromDomain | app/src/Application/DTO/WeatherSummaryDto.php:24-42 | the DTO copies the city string, the current value, the average (null iff none), the direction, the delta and the label |
| SummaryDtos.ToArray | app/src/Application/DTO/WeatherSummaryDto.php:54-66 | the array has exactly the keys city, current, average and trend, in that order; trend nests exactly direction, delta and label with the DTO's values |
| SummaryDtos.ResponseLabel | app/src/Application/DTO/WeatherSummaryDto.php:24-66 | the response's label is "stable" iff the summary is stable |
| LegacyEntities.WeatherMeasurement.constructor | app/src/Entity/WeatherMeasurement.php:18-27 | a new record has a null id and a null city; temperature and time are unset |
| LegacyEntities.WeatherMeasurement.GetId | app/src/Entity/WeatherMeasurement.php:29-32 | returns the id |
| LegacyEntities.WeatherMeasurement.GetCity | app/src/Entity/WeatherMeasurement.php:34-37 | returns the city, possibly null |
| LegacyEntities.WeatherMeasurement.GetTemperature | app/src/Entity/WeatherMeasurement.php:46-49 | returns the temperature; if it was never set, PHP's uninitialised-typed-property `Error` naming `App\Entity\WeatherMeasurement::$temperature` |
| LegacyEntities.WeatherMeasurement.GetFetchedAt | app/src/Entity/WeatherMeasurement.php:58-61 | returns the time; if it was never set, PHP's uninitialised-typed-property `Error` naming `App\Entity\WeatherMeasurement::$fetchedAt` |
| LegacyEntities.WeatherMeasurement.SetCity | app/src/Entity/WeatherMeasurement.php:39-44 | sets the city only and returns the same object |
| LegacyEntities.WeatherMeasurement.SetTemperature | app/src/Entity/WeatherMeasurement.php:51-56 | sets the temperature only and returns the same object |
| LegacyEntities.WeatherMeasurement.SetFetchedAt | app/src/Entity/WeatherMeasurement.php:63-68 | sets the time only and returns the same object |
| LegacyEntities.Build | app/src/Service/Weather/CachedWeatherProvider.php:52-55 | the fluent chain yields a fresh, complete record with no id |
| LegacyEntities.SetThenGet | app/src/Entity/WeatherMeasurement.php:34-56 | a getter after its setter returns the value set; the other fields are untouched |
| LegacyRepositories.SaveStore | app/src/Repository/WeatherMeasurementRepository.php:19-28 | persist queues the record; a flush writes every queued record with fresh increasing ids; increasing ids are preserved |
| LegacyRepositories.Latest | app/src/Repository/WeatherMeasurementRepository.php:33-42 | the answer is a row of the city with the greatest time, or null iff the city has no row |
| LegacyRepositories.Recent | app/src/Repository/WeatherMeasurementRepository.php:49-58 | at most `limit` rows of the city, taken from the store, newest first; any row of the city left out is no newer than those returned and is left out only when `limit` rows were returned |
| LegacyRepositories.NewestFirstStep | app/src/Repository/WeatherMeasurementRepository.php:49-58 | the newest row followed by the answer for the remaining rows answers the query |
| LegacyRepositories.MeasurementRepository.Save | app/src/Repository/WeatherMeasurementRepository.php:19-28 | applies `SaveStore` to the record's contents and records the call |
| LegacyRepositories.MeasurementRepository.FindLatestForCity | app/src/Repository/WeatherMeasurementRepository.php:33-42 | answers `Latest` for the lower-cased name |
| LegacyRepositories.MeasurementRepository.FindLastNDaysForCity | app/src/Repository/WeatherMeasurementRepository.php:49-58 | answers `Recent` for the lower-cased name |
| FakeProviders.Answer | app/src/Service/Weather/FakeThirdPartyWeatherProvider.php:34-46 | a reading iff the lower-cased name is in the map; otherwise "No fake temperature set for '<name as given>'" |
| FakeProviders.FakeThirdPartyWeatherProvider.constructor | app/src/Service/Weather/FakeThirdPartyWeatherProvider.php:13-25 | the seeding loop builds the seeded map; the counter starts at 0 |
| FakeProviders.FakeThirdPartyWeatherProvider.SetTemperature | app/src/Service/Weather/FakeThirdPartyWeatherProvider.php:27-30 | stores under the lower-cased name, overriding any earlier value; the counter is unchanged |
| FakeProviders.FakeThirdPartyWeatherProvider.GetCurrentTemperature | app/src/Service/Weather/FakeThirdPartyWeatherProvider.php:32-47 | counts every call, including one that throws; answers `Answer`; never changes the map |
| FakeProviders.FakeThirdPartyWeatherProvider.GetCallCount | app/src/Service/Weather/FakeThirdPartyWeatherProvider.php:49-52 | returns the counter |
| FakeProviders.SeededKeys | app/src/Service/Weather/FakeThirdPartyWeatherProvider.php:22-29 | the seeded map's keys are exactly the lower-cased initial names |
| FakeProviders.SeededLastWins | app/src/Service/Weather/FakeThirdPartyWeatherProvider.php:22-29 | an entry not followed by a colliding name keeps its temperature, so the later of two colliding names wins |
| FakeProviders.AnswerIgnoresCase | app/src/Service/Weather/FakeThirdPartyWeatherProvider.php:34-46 | names equal after lower-casing get the same reading |
| FakeProviders.CaseInsensitiveScenario | app/tests/Service/Weather/FakeThirdPartyWeatherProviderTest.php:13-26 | 'Sofia' and 'sofia' both read 4.0, and the count is 2 |
| FakeProviders.OverrideAndMissingScenario | app/tests/Service/Weather/FakeThirdPartyWeatherProviderTest.php:28-51 | 'SOFIA' overrides 'sofia' with 10.5; a missing city fails naming it as given; both lookups are counted |
| DefaultTrendCalculators.CalculateAverage | app/src/Service/Weather/DefaultTrendCalculator.php:12-24 | the loop returns the fallback for no rows, otherwise sum / count |
| DefaultTrendCalculators.TrendSign | app/src/Service/Weather/DefaultTrendCalculator.php:26-40 | '+' iff the difference exceeds 0.5, '-' iff it is below −0.5, '=' iff it lies in [−0.5, 0.5] |
| DefaultTrendCalculators.TrendSignAsWritten | app/src/Service/Weather/DefaultTrendCalculator.php:2 | as written the file does not compile, so every call fails, whatever the arguments |
| DefaultTrendCalculators.StrayTokenCounterexample | app/src/Service/Weather/DefaultTrendCalculator.php:2 | a reading 8 degrees above the average fails as written, where '+' is intended |
| DefaultTrendCalculators.AverageWithinReadings | app/src/Service/Weather/DefaultTrendCalculator.php:12-24 | the fallback for no rows, otherwise a value between the smallest and largest reading |
| DefaultTrendCalculators.AverageIgnoresOrder | app/src/Service/Weather/DefaultTrendCalculator.php:18-23 | reordering the rows does not change the average |
| DefaultTrendCalculators.SignIsAntisymmetric | app/src/Service/Weather/DefaultTrendCalculator.php:26-40 | swapping the arguments swaps '+' and '-' and keeps '=' |
| DefaultTrendCalculators.SignVersusClassify | app/src/Service/Weather/DefaultTrendCalculator.php:28-39 | the sign agrees with the newer calculator at threshold 0.5 except at a difference of exactly ±0.5, where it says '=' |
| DefaultTrendCalculators.Examples | app/tests/Service/Weather/DefaultTrendCalculatorTest.php:11-48 | fallback 5.0 for no rows; 4.0 for 2, 4, 6; '+' for 6 vs 4, '-' for 2 vs 4, '=' for 4.2 vs 4 |
| LegacyWeatherServices.WeatherService.GetCityWeather | app/src/Service/Weather/WeatherService.php:30-52 | lower-cases once; calls the provider, then `findLastNDaysForCity(name, 10)`; the result is the name, the reading, the sign against the average with the reading as fallback, and "<reading> <sign>" |
| LegacyWeatherServices.ResultFacts | app/src/Service/Weather/WeatherService.php:30-51 | a result carries the lower-cased name and its reading; the sign is one of three and is '=' when no row is stored; it fails iff the provider has no reading |
| LegacyCachedProviders.CachedWeatherProvider.constructor | app/src/Service/Weather/CachedWeatherProvider.php:12-18 | keeps the inner provider, the repository and the TTL, which defaults to 3600 seconds |
| LegacyCachedProviders.CachedWeatherProvider.GetCurrentTemperature | app/src/Service/Weather/CachedWeatherProvider.php:20-65 | one repository query with the lower-cased name; a row at most TTL old is returned with no inner call and no save; otherwise one inner call, then (on success) one flushed save of (name, reading, now) |
| LegacyCachedProviders.LatestFindsNewestAppended | app/src/Repository/WeatherMeasurementRepository.php:33-42 | a row appended after, and no older than, every row of its city is the latest one |
| LegacyCachedProviders.SecondCallHits | app/src/Service/Weather/CachedWeatherProvider.php:26-57 | after a miss stores a reading at `now`, a call within the TTL is a hit returning that reading |
| LegacyCachedProviders.FreshnessBoundary | app/src/Service/Weather/CachedWeatherProvider.php:29-31 | an age of exactly the TTL is a hit; one second more is a miss |
| HourlyFetchers.FirstUnknown | app/src/Service/Weather/HourlyWeatherFetcher.php:50-52 | the index of the first city with no reading: all earlier cities have one |
| HourlyFetchers.HourlyWeatherFetcher.RefreshCity | app/src/Service/Weather/HourlyWeatherFetcher.php:22-43 | one provider call with the lower-cased name, then one flushed save of (name, reading, now); a provider failure saves nothing |
| HourlyFetchers.HourlyWeatherFetcher.RefreshMany | app/src/Service/Weather/HourlyWeatherFetcher.php:48-53 | refreshes the cities in order up to the first failure, which is reported; later cities are not touched; the calls, saves and counter match |
| HourlyFetchers.RefreshStep | app/src/Service/Weather/HourlyWeatherFetcher.php:48-53 | refreshing one more known city adds exactly one flushed save and its provider and save calls |
| HourlyFetchers.NothingToRefresh | app/src/Service/Weather/HourlyWeatherFetcher.php:48-53 | an empty list makes no call and stores nothing |
| HourlyFetchers.SaveAllGrowsRows | app/src/Service/Weather/HourlyWeatherFetcher.php:48-53 | each refreshed city adds one stored row holding its record, in order, after the existing rows |

## Left out

- Network, database, Redis and JSON byte formats are not modelled. HTTP providers, Doctrine's SQL and Redis are represented by the in-memory stand-ins described above; JSON encoding is represented by the `Payload` record.
- Logging is left out. Logger calls have no effect on results.
- Floating-point rounding is not modelled, because temperatures are reals. For example, 20.2 − 20.0 is exact here.
- `sprintf` and PHP's float-to-string are not modelled. The number text in `Trend::label()` and `WeatherResult::value` is a `Formatter` parameter.
- `Temperature::__toString` and `MeasurementTime::__toString` format text only, so they are not modelled.
- `MeasurementTime::fromString` and `fromDateTimeInterface` parse dates, so they are not modelled. Time is an integer instant.
- `mb_strtolower` is modelled as an ASCII A–Z fold (`Text.Lower`). Unicode case tables are not modelled.
- `Text.Trim` uses PHP's default trim set: space, tab, newline, carriage return, NUL and vertical tab.
- The `instanceof WeatherMeasurement` guards in the loops are not modelled, because Dafny's typed sequences cannot hold anything else.
- The dead `$count === 0` branches are not modelled, because a non-empty list always has a positive count.
- Ports.Window: answers in save order rather than oldest first. The port's documentation only says the answer SHOULD be oldest first, and `GetCityWeather.SummaryIgnoresHistoryOrder` proves that the summary does not depend on the order.
- CachedSummaries.CachedGetCityWeatherService.GetSummaryForCity: the decorator wraps the concrete read service, because the model has no interfaces.
- The wiring between legacy components is not modelled:
  - the legacy services take `FakeThirdPartyWeatherProvider` directly;
  - `CachedWeatherProvider` is not plugged in under `WeatherService`.
- The source's calculators are interfaces, so mock implementations (as in the tests) are not modelled. The legacy services use `DefaultTrendCalculator`, and the read use case uses `SimpleTrendCalculator`.
- LegacyRepositories.MeasurementRepository.Save: requires a complete record. Doctrine's failure on a record with unset columns is not modelled.
- LegacyRepositories.MeasurementRepository.Save: writing the generated id back into the entity object is not modelled. Stored rows are value snapshots, so a later change to a persisted object is not seen by the store.
- LegacyRepositories.Recent: ties in time are broken by write order, where the database leaves the order open.
- LegacyRepositories.Recent: a limit that is not positive gives no rows.
- HourlyFetchers.HourlyWeatherFetcher.RefreshMany: one `now` serves the whole batch, where the source reads the clock once per city.
- Concurrency and Redis eviction are not modelled; the cache is a map with expiry.
- The HTTP controllers, request validation, CLI commands, migrations and the broken `Application/DTO/WeatherSummary.php` are not part of this model.

## Findings

| source | as written | input that shows it | evidently intended | confidence | as-written member | corrected member |
|---|---|---|---|---|---|---|
| app/src/Service/Weather/DefaultTrendCalculator.php:2 | a stray `wq` follows `declare(strict_types=1);`, so the file does not parse and loading the class fails | any call, e.g. `calculateTrendSign(20.0, 12.0)` | the file compiles and the call returns '+' | high (syntax rule, not executed) | DefaultTrendCalculators.TrendSignAsWritten | DefaultTrendCalculators.TrendSign |
| app/src/Domain/ValueObjects/City.php:26 | the constructor assigns `$this->name` after the promoted `readonly` property was already initialised, which raises an `Error` for every non-blank name | `new City("Sofia")` | store the trimmed name and succeed | high (language rule, not executed) | Cities.NewCityAsWritten | Cities.NewCity |
