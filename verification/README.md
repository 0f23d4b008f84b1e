# Air-pollution GraphQL services: query and response-shaping model

This project models, in Dafny, the data-shaping logic of two of the
repository's federated GraphQL services. Every modelled operation is a pure
function of its inputs.

- **Aerosol optical depth service** (`AOD_API/api.js`). At start-up it loads one
  series of CSV readings per configured file, in list order. It then answers
  `getLatest` with the last reading of every series. It answers
  `getHistorical(lat, long, n)` with a window of `n` reads for every series
  whose first reading lies at `(lat, long)`. Each window entry is the read
  `d[d.length - (n - i)]`. A negative index yields `undefined`, so each read is
  an `Option<Reading>`.
- **Ground-station proxy** (`ground-station_API/api.js`). `getStations` renames
  the fields of every station in the upstream response. `getMeasurement`
  filters the upstream `iaqi` object through a fixed allow-list of eight
  pollutant keys and labels each key it keeps. Any upstream status other than
  `ok` makes either resolver answer `null`.

Files:
- `wrappers.dfy` defines `Option` and `Result`.
- `js.dfy` defines the JavaScript value semantics both services rely on. `Value`
  is an opaque scalar compared only with `==`. `At` is an array read, which
  yields `undefined` out of bounds.
- `aod.dfy` is the aerosol service.
- `ground_station.dfy` is the ground-station proxy.

The model follows the code wherever the code and its comments differ:
- The CSV header list puts `longitude` in column 4 and `latitude` in column 5.
  The file's doc comment gives the opposite order. `Reading` follows the
  header list.
- The `getHistorical` resolver's comment says it ignores the coordinates.
  The code passes them on and filters by them (`ResolveGetHistorical`).
- When `n` exceeds a series' length, the code returns `n` entries, led by
  `n - length` undefined reads (`WindowBeyondSeries`).
- For an empty series, `getLatest` does not fail. It yields an undefined
  entry. `getHistorical` does fail, because reading `d[0].latitude` throws;
  `GetHistorical` returns `NoFirstReading` with the position of the first
  empty series.

## Model

| member | source | states |
|---|---|---|
| Js.At | AOD_API/api.js:70 | An array read yields the element exactly when the index is within bounds, and `undefined` for every other index, negative ones included |
| Aod.LoadAllFiles | AOD_API/api.js:42-47 | Loading succeeds iff every file loads. The dataset then has one series per file, and series `i` is file `i`'s parse. A failure names the first file, in list order, whose load was rejected |
| Aod.GetLatest | AOD_API/api.js:56-62 | One entry per series, in dataset order. Entry `i` is the last reading of a non-empty series `i`, and undefined for an empty one |
| Aod.LatestExample | AOD_API/api.js:56-62 | Series `[r1, r2]` and `[r3]` have the latest readings `r2` and `r3` |
| Aod.ResolveGetLatest | AOD_API/api.js:94-98 | The resolver answers one entry per loaded series |
| Aod.LatestIgnoresArguments | AOD_API/api.js:94-98 | The `getLatest` resolver's answer is the same for every pair of coordinates |
| Aod.MatchIndices | AOD_API/api.js:66-67 | The strictly increasing positions of exactly those series whose first reading has the queried latitude and longitude |
| Aod.Window | AOD_API/api.js:68-71 | A window has `max(n, 0)` entries. Entry `i` is undefined exactly when `i < n - length`. Otherwise it is reading `length - n + i` |
| Aod.WindowWithinSeries | AOD_API/api.js:69-70 | For `0 <= n <= length`, the window is the last `n` readings, oldest first |
| Aod.WindowBeyondSeries | AOD_API/api.js:69-70 | For `n > length`, the window is `n - length` undefined reads followed by the whole series in order |
| Aod.GetHistorical | AOD_API/api.js:64-75 | The query succeeds iff no series is empty. A failure names the first empty series. Every window returned has `max(n, 0)` entries |
| Aod.HistoricalSelectsMatches | AOD_API/api.js:66-72 | A successful query holds exactly one window per matching series, in dataset order. Non-matching series contribute nothing |
| Aod.ResolveGetHistorical | AOD_API/api.js:99-103 | The resolver succeeds iff no series is empty. It then holds exactly one window of `max(n, 0)` entries per series whose first reading lies at the queried coordinates, in dataset order, so it uses its coordinates for every dataset |
| Aod.HistoricalUsesCoordinates | AOD_API/api.js:99-103 | An illustration of the selection that `ResolveGetHistorical` states for all inputs: a one-series dataset answers at its own location and not at another latitude |
| GroundStation.ShouldUseMeasurement | ground-station_API/api.js:137-146 | A key is reported iff it is one of `p, t, o3, pm25, pm10, so2, no2, co` |
| GroundStation.MeasurementTypeByKey | ground-station_API/api.js:148-168 | The label is other than `Unknown` iff the key is on the allow-list |
| GroundStation.LabelsDistinct | ground-station_API/api.js:150-165 | Distinct allow-listed keys have distinct labels, so the label table is injective on the allow-list |
| GroundStation.MapStations | ground-station_API/api.js:50-59 | One station per upstream record, in order. Each output field holds its renamed upstream field: `lat`, `lon`, `uid`, `aqi`, `station.name`, `station.time` |
| GroundStation.GetStations | ground-station_API/api.js:46-64 | The answer is `null` iff the status is not `ok`. Otherwise element `i` is upstream record `i` with every field renamed |
| GroundStation.AllowedPositions | ground-station_API/api.js:69-70 | The strictly increasing positions of exactly those `iaqi` entries whose key is on the allow-list |
| GroundStation.MapMeasurements | ground-station_API/api.js:68-75 | No measurement is labelled `Unknown` |
| GroundStation.MeasurementsSelectAllowed | ground-station_API/api.js:68-75 | The measurements are exactly the allow-listed `iaqi` entries, in key order. Each is labelled by its key and carries the entry's `v` |
| GroundStation.MeasurementsExample | ground-station_API/api.js:68-75 | Entries `o3`, `co` and `xyz` give an ozone and a carbon monoxide measurement; `xyz` is dropped |
| GroundStation.GetMeasurement | ground-station_API/api.js:65-90 | The answer is `null` iff the status is not `ok`. The station takes `geo[0]` and `geo[1]` as its coordinates, plus the city name and the `aqi`. The biggest pollutant is the label of `dominentpol`. The measurements are the allow-listed entries in order, none labelled `Unknown` |
| GroundStation.BiggestPollutantMayBeUnknown | ground-station_API/api.js:84 | The dominant pollutant is not filtered, so a key off the allow-list is reported as `Unknown` |

## Left out

- HTTPS requests and JSON parsing (`requestStationsFromOpenAPI`, `requestMeasurementsFromOpenAPI`) are network I/O. The resolvers take the parsed upstream envelope as input instead. A transport error makes the request promise reject with no reason. A body that is not valid JSON makes `JSON.parse` throw inside the `end` listener, which leaves the promise pending. Neither path is modelled.
- CSV parsing (`loadData`) is delegated to the `csvtojson` library. It is the parameter `loadData` of `LoadAllFiles`; `None` stands for a rejected read.
- Floating-point numbers and JavaScript's loose `==` are not modelled. Coordinates and values are the opaque `Value`, compared by plain equality.
- The shape of upstream JSON is taken as documented. A missing nested field, such as `station` or `city`, would throw in the source. The datatypes cannot represent that case.
- The upstream `data` field of a response whose status is not `ok` is never read. It is modelled with the same type as a successful payload.
- `iaqi` is modelled as its entries in `Object.keys` order, with pairwise distinct keys. Looking up `iaqi[key]` for a key from that enumeration is the same as visiting the entry itself.
- GraphQL's 32-bit range for the `Int` argument `n` is not modelled. `n` is an unbounded integer.
- Apollo, the federated schema, the server start-up and the async sequencing of `start` are framework plumbing. The model keeps only the fact that files load in list order.
- NASA_API/api.js is not part of this model. It returns hard-coded constants.
- Aod.ResolveGetLatest: its own contract states only the length. Its behaviour is stated by `GetLatest` and `LatestIgnoresArguments`.
- GroundStation.MapMeasurements: its own contract states only that no label is `Unknown`. The exact selection is stated by `MeasurementsSelectAllowed`.
