# Coastal alert backend: the coordinate prediction request, in Dafny

This project models the one piece of logic in the Coastal Alert ML backend:
`predict_from_coords` in `backend/main.py`. Given a latitude and a longitude, it
does five things:

1. It takes the current UTC time, truncated to the hour, and the instant one hour
   later as the observation window.
2. It queries the Open-Meteo marine provider for nine sea-state variables. Then it
   queries the weather provider for nine atmospheric variables. A non-200 status
   from either provider aborts the request with that same status.
3. It builds an eighteen-field record, nine marine readings followed by nine weather
   readings. Each reading is the first sample of the series of the same name.
4. It passes the record, as a one-row frame in that column order, to the fitted
   scaler. The scaler's output goes to the k-nearest-neighbour classifier.
5. It answers with the eighteen readings plus a `"prediction"` key holding `str` of
   the classifier's first label.

The clock, the HTTP client and the two pickled artifacts are parameters: `now` is a
civil date-time, `fetch` maps a query to a reply, and `Artifacts` holds the scaler's
`transform`, the classifier's `predict` and `str` as opaque functions. A `Run`
records the queries sent, in order, and the frame handed to the scaler, if any. It
also records the answer or the failure. So "the weather provider is never asked" and
"nothing is scaled" are statements about values.

Modules, one per concern:

- `Wrappers` (wrappers.dfy): `Option` and `Result`.
- `Clock` (clock.dfy): Python `datetime` fields and ranges, `replace(minute=0, ...)`,
  `+ timedelta(hours=1)` with calendar carry, and the observation window. Each is
  measured against `Micros`, the count of microseconds since 0001-01-01.
- `IsoFormat` (isoformat.dfy): `isoformat() + "Z"` as placed in the query strings, and
  a parser that reads it back.
- `Features` (features.dfy): the canonical field order, the first-sample reads, the
  `merged_data` dict literal, and dict item assignment on an ordered dict.
- `Backend` (backend.dfy): the upstream status gate, inference and echo, the whole
  request, and the properties of a run.

Points where the behaviour of the code is easy to misread:

- The comment on `backend/main.py:23` says "rounded to nearest hour". The code
  truncates. `Clock.TruncateIsLatestHourStart` proves that the window starts at the
  latest whole hour that is not after `now`.
- A missing variable raises an uncaught `KeyError`, which carries the missing key;
  an empty series raises an `IndexError`, which carries no name. The framework
  answers either with a bare 500 whose body names nothing. The model has
  `Unreadable(fault)`, reported as 500. The fault names the first offending field in
  canonical order.
- An "hourly" member that is present but is not an object (`null`, a list, a
  number) passes the lookup of `backend/main.py:43`, so the weather provider is
  still asked. The request then fails at the first field read of l.61, with a
  `TypeError` and status 500, unless the weather call fails first: a non-200
  status is passed on; a raised call or a missing "hourly" gives a 500.
- The code fetches sequentially: the marine provider first, and the weather provider
  only after a usable marine reply.
- The code does not range-check the coordinates, and neither does the model.
- An upstream failure passes on only the provider's status, with a fixed `detail`
  text.
- `/predict_from_coords/` is the only prediction endpoint the server defines.
- The marine query passes the window as `start_hour`/`end_hour`. The weather query
  passes it as `start`/`end`. The model records both as written. What the weather
  provider does with those two parameters is outside this model.

## Model

| member | source | states |
|---|---|---|
| `Clock.Truncate` | backend/main.py:24 | the window start is a valid date-time with minute, second and microsecond zero, lies on a whole hour, is not later than now, and is less than an hour before it |
| `Clock.TruncateIsLatestHourStart` | backend/main.py:23-24 | every whole-hour instant not after now is at or before the window start: the code truncates, it does not round to the nearest hour |
| `Clock.AddHour` | backend/main.py:25 | adding one hour carries into day, month and year and yields a valid date-time exactly one hour later; it fails exactly at 9999-12-31 23:xx, where Python raises OverflowError |
| `Clock.ObservationWindow` | backend/main.py:24-25 | the window is missing only in the last hour of year 9999; otherwise its start is hour-aligned, start <= now < end, and end is exactly one hour after start |
| `IsoFormat.IsoZ` | backend/main.py:27-28 | the window text is 20 characters (27 with microseconds) and ends in "Z" |
| `IsoFormat.ParseIsoZOfIsoZ` | backend/main.py:27-28 | the text of a date-time reads back as exactly that date-time |
| `IsoFormat.IsoZOfParseIsoZ` | backend/main.py:27-28 | every text the reader accepts is exactly the text written for what it read |
| `Features.FirstSamples` | backend/main.py:61-78 | reading `[name][0]` left to right succeeds iff every series is present and non-empty, and then yields sample 0 of each named series in order; otherwise it fails on the first unsampled name, as MissingSeries when the key is absent and EmptySeries when the series is empty |
| `Features.Assemble` | backend/main.py:60-79 | the record succeeds iff all nine marine and all nine weather series are sampled; its keys are the canonical order, entry i < 9 is sample 0 of the marine series MarineFields[i], and entry 9 + i is sample 0 of the weather series WeatherFields[i]; a failure names the first unsampled marine field, else the first unsampled weather field |
| `Features.FeatureOrderShape` | backend/main.py:60-79 | nine marine and nine weather names, eighteen in all, none repeated, and "prediction" not among them |
| `Features.Put` | backend/main.py:87 | dict item assignment keeps keys distinct, keeps an existing key in place, appends a new key, leaves other entries alone, and gives the key the new value |
| `Features.PutPredictionAppends` | backend/main.py:87 | setting "prediction" on an assembled record appends one entry and changes none of the eighteen |
| `Features.AssembleReadsOnlyItsFields` | backend/main.py:60-79 | the record depends only on the first samples (and on presence and emptiness) of the nine marine series in the marine reply and the nine weather series in the weather reply |
| `Backend.Accept` | backend/main.py:40-43 | a reply is used iff it arrived with status 200 and has an "hourly" member; the member is passed on as an object exactly when it is one; a non-200 status fails with that status and names the provider |
| `Backend.Merge` | backend/main.py:60-79 | a marine "hourly" value that is not an object fails before any field is read; a marine series that is absent or empty fails on the first such field; a weather value that is not an object fails only after all nine marine fields were read; with two objects the result is the assembled record or its fault |
| `Backend.Infer` | backend/main.py:82-88 | the scaler gets the one-row frame of the record's values; the answer fails iff the classifier returns no label; otherwise it is the eighteen entries unchanged followed by "prediction" holding `str` of the classifier's first label on the scaler's output |
| `Backend.PredictFromCoords` | backend/main.py:19-88 | without a window nothing is queried and the request fails with an overflow; otherwise the marine query for the window is sent first and the weather query for the same window, if at all, second; the scaler is reached only after both queries, and a success always has the scaler's input recorded |
| `Backend.MarineFailureShortCircuits` | backend/main.py:40-43 | an unusable marine reply ends the request after the single marine query, with nothing scaled; a non-200 marine status is the status the client receives |
| `Backend.MarineHourlyNotObjectFailsAfterBothQueries` | backend/main.py:43-61 | a marine "hourly" member that is not an object still lets the weather query go out; the request then fails with the weather status if that is not 200, with a 500 if the weather call raised or its body has no "hourly", and otherwise, when the weather reply is usable, with a 500 for the marine value; nothing is scaled |
| `Backend.FailureNeverReportsOk` | backend/main.py:40-57 | a request that fails never reaches the client with status 200: only a provider's own non-200 status is passed on, every other failure is a 500 |
| `Backend.WeatherFailureStopsBeforeInference` | backend/main.py:54-57 | after a usable marine reply, an unusable weather reply ends the request after the two queries with nothing scaled or classified; a non-200 weather status is the status the client receives |
| `Backend.QueriesCarryTheWindowAndTheFields` | backend/main.py:27-52 | stands for `MarineQuery` and `WeatherQuery`: both queries carry the request's latitude and longitude and the observation window, whose text reads back to the window exactly; the marine query sends it as `start_hour`/`end_hour` to the marine endpoint and asks for exactly MarineFields, the weather query as `start`/`end` to the forecast endpoint for exactly WeatherFields |
| `Backend.ScalerSeesTheCanonicalRow` | backend/main.py:60-83 | the scaler is called iff the window exists, both replies are usable and all eighteen series are sampled; it then receives one row whose i-th value is sample 0 of the series FeatureOrder[i] from that field's own provider |
| `Backend.ResponseEchoesTheFeatures` | backend/main.py:84-88 | the request succeeds iff the scaler is reached and the classifier returns a label; the answer is then the eighteen canonical readings under their names, unchanged, followed by "prediction" equal to `str` of the first label for the scaled canonical row, and nothing else |
| `Backend.RunDependsOnlyOnFirstSamples` | backend/main.py:60-79 | the whole run, answer and failure included, is the same for any two upstreams that agree on statuses, on the presence of `hourly` and on the first sample of each series read: no averaging, later samples ignored |

## Left out

- frontend/app.py: a Streamlit form and file uploader that call `/predict` and `/predict_file/`. The server defines neither endpoint, so there is no server code behind them to model.
- The `home` endpoint, FastAPI routing, `Query` parsing and `JSONResponse` wrapping (backend/main.py:8, 14-22, 88): transport plumbing. The response is modelled as the ordered dict handed to `JSONResponse`.
- `datetime.utcnow()`: the clock reading is the parameter `now`.
- `requests.get` and `.json()` (backend/main.py:40, 43, 54, 57): network I/O. Each reply is a status and a body, or no reply when the call raises. The body records only what `["hourly"]` finds: nothing (the body is not JSON, not a JSON object, or has no "hourly" key), an object of series, or any other JSON value. Series that are not JSON arrays (`null`, a number or an object fail at `[0]` with a 500; a string yields its first character), and samples that are `null`, are not modelled: readings are values of an opaque type.
- `requests.get` is called without a timeout. A call that never returns is not represented: every fetch yields a reply or a raised error.
- The exact URL text (backend/main.py:31-38, 46-52): a query records its endpoint, coordinates, variable list, window parameter names and window text, not the concatenated URL. The decimal text of the coordinates is not modelled.
- `joblib.load`, `scaler.transform` and `model.predict` (backend/main.py:11-12, 83, 86): pickled scikit-learn artifacts with floating-point numerics. They are opaque functions on frames. Loading failures happen at start-up and are not modelled. So are failures raised inside the artifacts, such as a column-name mismatch check or NaN input.
- The `detail` text of the HTTPException (backend/main.py:42, 56): the failure records which provider failed instead of the fixed message.
- Requests served concurrently: each request is a function of its own inputs and shares no mutable state. The artifacts are read-only after loading.
