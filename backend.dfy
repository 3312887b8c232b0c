/** The `/predict_from_coords/` request of the backend: compute the observation
    window, query the marine provider and then the weather provider, assemble the
    eighteen features, scale them, classify them, and answer with the features and
    the prediction.

    Everything the request does to the outside world is a parameter: the clock
    reading `now`, the HTTP client `fetch`, and the two loaded artifacts. A `Run`
    records what the request did: the queries it sent, in order, the frame it handed
    to the scaler (if it got that far), and its answer or its failure. */
module Backend {

  import opened Wrappers
  import opened Clock
  import opened IsoFormat
  import opened Features

  const StatusOk := 200
  const InternalServerError := 500

  const MarineEndpoint := "https://marine-api.open-meteo.com/v1/marine"
  const WeatherEndpoint := "https://api.open-meteo.com/v1/forecast"

  datatype Provider = Marine | Weather

  /** One upstream GET: the endpoint, the coordinates, the hourly variables asked for,
      and the window bounds under the parameter names the request uses for them. */
  datatype Query = Query(provider: Provider, endpoint: string,
                         latitude: real, longitude: real, hourly: seq<string>,
                         startParam: string, start: string, endParam: string, end: string)

  /** What `resp.json()["hourly"]` finds in a reply's body: nothing (the body is not
      JSON, is not an object, or has no "hourly" key, so the lookup raises), an object
      of series, or some other JSON value (null, a list, a number, a string), which the
      lookup returns but which cannot be indexed by a variable name. */
  datatype Body<V> = HourlyMissing | HourlyObject(hourly: Hourly<V>) | HourlyOther

  /** What `requests.get` yields: a status and a body, or no reply at all (the call
      raised). */
  datatype Reply<V> = Answered(status: int, body: Body<V>) | NoReply

  /** Why a request fails. Only an upstream status is passed on to the client as it
      is; every other failure is an uncaught exception, which the framework turns
      into a 500. */
  datatype Failure =
    | WindowOverflow                               // now + timedelta(hours=1) overflows
    | ConnectionFailed(provider: Provider)         // requests.get raised
    | UpstreamStatus(provider: Provider, status: int)  // the HTTPException of backend/main.py:42, 56
    | NoHourly(provider: Provider)                 // resp.json()["hourly"] raised
    | HourlyNotObject(provider: Provider)          // a TypeError on data["<name>"]
    | Unreadable(fault: Fault)                     // a KeyError or IndexError in merged_data
    | NoPrediction                                 // model.predict(...)[0] on an empty result

  /** A value of the JSON response: a feature reading or the prediction's text. */
  datatype Json<V> = Number(reading: V) | Text(text: string)

  /** The two artifacts loaded at start-up, as opaque functions on frames (sequences
      of rows), and `str` of a label. */
  datatype Artifacts<!V, !S, !L> = Artifacts(transform: seq<seq<V>> -> seq<seq<S>>,
                                          predict: seq<seq<S>> -> seq<L>,
                                          show: L -> string)

  datatype Run<V> = Run(issued: seq<Query>, scalerInput: Option<seq<seq<V>>>,
                        outcome: Result<Entries<string, Json<V>>, Failure>)

  /** The HTTP status the client receives for a failure. */
  function StatusCode(f: Failure): (code: int)
    ensures f.UpstreamStatus? ==> code == f.status
    ensures !f.UpstreamStatus? ==> code == InternalServerError
  {
    match f
    case UpstreamStatus(_, status) => status
    case _ => InternalServerError
  }

  function MarineQuery(latitude: real, longitude: real, w: Window): Query
    requires Valid(w.start) && Valid(w.end)
  {
    Query(Marine, MarineEndpoint, latitude, longitude, MarineFields,
          "start_hour", IsoZ(w.start), "end_hour", IsoZ(w.end))
  }

  function WeatherQuery(latitude: real, longitude: real, w: Window): Query
    requires Valid(w.start) && Valid(w.end)
  {
    Query(Weather, WeatherEndpoint, latitude, longitude, WeatherFields,
          "start", IsoZ(w.start), "end", IsoZ(w.end))
  }

  /** A reply the request goes on with: status 200 and an "hourly" member, whatever
      its value. */
  predicate Usable<V>(reply: Reply<V>) {
    reply.Answered? && reply.status == StatusOk && !reply.body.HourlyMissing?
  }

  /** A usable reply whose "hourly" member is an object of series. */
  predicate HasHourlyObject<V>(reply: Reply<V>) {
    Usable(reply) && reply.body.HourlyObject?
  }

  /** The status check and the `["hourly"]` lookup applied to one provider's reply;
      the value found is passed on, as an object (Some) or as anything else (None). */
  function Accept<V>(p: Provider, reply: Reply<V>): (r: Result<Option<Hourly<V>>, Failure>)
    ensures r.Ok? <==> Usable(reply)
    ensures r.Ok? ==> (r.value.Some? <==> reply.body.HourlyObject?)
    ensures r.Ok? && r.value.Some? ==> r.value.value == reply.body.hourly
    ensures r.Err? ==> (r.error.ConnectionFailed? || r.error.UpstreamStatus? || r.error.NoHourly?)
                       && r.error.provider == p
    ensures r.Err? ==> (r.error.UpstreamStatus? <==> reply.Answered? && reply.status != StatusOk)
    ensures r.Err? && reply.Answered? && reply.status != StatusOk ==> StatusCode(r.error) == reply.status
  {
    match reply
    case NoReply => Err(ConnectionFailed(p))
    case Answered(status, body) =>
      if status != StatusOk then Err(UpstreamStatus(p, status))
      else
        match body
        case HourlyMissing => Err(NoHourly(p))
        case HourlyObject(hourly) => Ok(Some(hourly))
        case HourlyOther => Ok(None)
  }

  /** The `merged_data` literal of backend/main.py:60-79 on the two "hourly" values as
      the replies gave them. Its lookups run in order, so a marine value that is not an
      object fails before any field is read, and a weather value that is not an object
      fails only after all nine marine fields were read. */
  function Merge<V>(marine: Option<Hourly<V>>, weather: Option<Hourly<V>>)
    : (r: Result<Entries<string, V>, Failure>)
    ensures marine.None? ==> r == Err(HourlyNotObject(Marine))
    ensures marine.Some? && !AllSampled(marine.value, MarineFields) ==>
              r.Err? && exists k :: FirstUnsampled(marine.value, MarineFields, k)
                                    && r.error == Unreadable(FaultFor(marine.value, MarineFields[k]))
    ensures marine.Some? && AllSampled(marine.value, MarineFields) && weather.None? ==>
              r == Err(HourlyNotObject(Weather))
    ensures marine.Some? && weather.Some? ==>
              && (r.Ok? <==> Assemble(marine.value, weather.value).Ok?)
              && (r.Ok? ==> r.value == Assemble(marine.value, weather.value).value)
              && (r.Err? ==> r.error == Unreadable(Assemble(marine.value, weather.value).error))
  {
    match marine
    case None => Err(HourlyNotObject(Marine))
    case Some(m) =>
      match FirstSamples(m, MarineFields)
      case Err(fault) => Err(Unreadable(fault))
      case Ok(_) =>
        match weather
        case None => Err(HourlyNotObject(Weather))
        case Some(w) =>
          match Assemble(m, w)
          case Err(fault) => Err(Unreadable(fault))
          case Ok(record) => Ok(record)
  }

  /** The features of the response: each reading as a JSON number, in record order. */
  function Echo<V>(record: Entries<string, V>): (d: Entries<string, Json<V>>)
    ensures Keys(d) == Keys(record)
    ensures forall i :: 0 <= i < |d| ==> d[i].1 == Number(record[i].1)
  {
    seq(|record|, i requires 0 <= i < |record| => (record[i].0, Number(record[i].1)))
  }

  /** The reading of the i-th canonical feature: from the marine series for the first
      nine, from the weather series for the last nine, sample 0 in both cases. */
  ghost function Reading<V>(marine: Hourly<V>, weather: Hourly<V>, i: int): V
    requires AllSampled(marine, MarineFields) && AllSampled(weather, WeatherFields)
    requires 0 <= i < |FeatureOrder|
  {
    if i < |MarineFields| then marine[FeatureOrder[i]][0] else weather[FeatureOrder[i]][0]
  }

  /** backend/main.py:82-88: the record becomes a one-row frame in record order, the scaler
      transforms it, the classifier labels the scaled frame, and the answer is the
      record with `str` of the first label added under "prediction". */
  function Infer<V, S, L>(record: Entries<string, V>, art: Artifacts<V, S, L>)
    : (r: Result<Entries<string, Json<V>>, Failure>)
    requires Keys(record) == FeatureOrder
    ensures r.Err? <==> |art.predict(art.transform([Row(record)]))| == 0
    ensures r.Err? ==> r.error == NoPrediction
    ensures r.Ok? ==> Keys(r.value) == FeatureOrder + [PredictionKey]
    ensures r.Ok? ==> forall i :: 0 <= i < |record| ==> r.value[i] == (record[i].0, Number(record[i].1))
    ensures r.Ok? ==> r.value[|record|].1
                        == Text(art.show(art.predict(art.transform([Row(record)]))[0]))
  {
    var labels := art.predict(art.transform([Row(record)]));
    if |labels| == 0 then Err(NoPrediction)
    else
      var answer := Text(art.show(labels[0]));
      PutPredictionAppends(Echo(record), answer);
      Ok(Put(Echo(record), PredictionKey, answer))
  }

  /** `predict_from_coords(latitude, longitude)` with the clock read as `now`. */
  function PredictFromCoords<V, S, L>(now: DateTime, latitude: real, longitude: real,
                                      fetch: Query -> Reply<V>, art: Artifacts<V, S, L>): (run: Run<V>)
    requires Valid(now)
    ensures ObservationWindow(now).None? ==> run.issued == [] && run.outcome == Err(WindowOverflow)
    ensures ObservationWindow(now).Some? ==>
              && 1 <= |run.issued| <= 2
              && run.issued[0] == MarineQuery(latitude, longitude, WindowAt(now))
              && (|run.issued| == 2 ==> run.issued[1] == WeatherQuery(latitude, longitude, WindowAt(now)))
    ensures run.scalerInput.Some? ==> |run.issued| == 2
    ensures run.outcome.Ok? ==> run.scalerInput.Some?
  {
    match ObservationWindow(now)
    case None => Run([], None, Err(WindowOverflow))
    case Some(w) =>
      var marineQuery := MarineQuery(latitude, longitude, w);
      match Accept(Marine, fetch(marineQuery))
      case Err(f) => Run([marineQuery], None, Err(f))
      case Ok(marine) =>
        var weatherQuery := WeatherQuery(latitude, longitude, w);
        match Accept(Weather, fetch(weatherQuery))
        case Err(f) => Run([marineQuery, weatherQuery], None, Err(f))
        case Ok(weather) =>
          match Merge(marine, weather)
          case Err(f) => Run([marineQuery, weatherQuery], None, Err(f))
          case Ok(record) =>
            Run([marineQuery, weatherQuery], Some([Row(record)]), Infer(record, art))
  }

  /** The window the request computes from `now`, when it has one. */
  function WindowAt(now: DateTime): (w: Window)
    requires Valid(now) && ObservationWindow(now).Some?
    ensures Valid(w.start) && Valid(w.end)
  {
    ObservationWindow(now).value
  }

  /** backend/main.py:40-43: a marine reply the request cannot use ends it after that one query;
      a non-200 status reaches the client unchanged; nothing is scaled. */
  lemma MarineFailureShortCircuits<V, S, L>(now: DateTime, latitude: real, longitude: real,
                                            fetch: Query -> Reply<V>, art: Artifacts<V, S, L>)
    requires Valid(now) && ObservationWindow(now).Some?
    requires !Usable(fetch(MarineQuery(latitude, longitude, WindowAt(now))))
    ensures var run := PredictFromCoords(now, latitude, longitude, fetch, art);
            var reply := fetch(MarineQuery(latitude, longitude, WindowAt(now)));
            && run.issued == [MarineQuery(latitude, longitude, WindowAt(now))]
            && run.scalerInput.None?
            && run.outcome.Err?
            && (reply.Answered? && reply.status != StatusOk ==>
                  run.outcome.error == UpstreamStatus(Marine, reply.status)
                  && StatusCode(run.outcome.error) == reply.status)
  {
  }

  /** backend/main.py:54-57: after a usable marine reply, a weather reply the request cannot use
      ends it after the two queries; a non-200 status reaches the client unchanged;
      nothing is scaled or classified. */
  lemma WeatherFailureStopsBeforeInference<V, S, L>(now: DateTime, latitude: real, longitude: real,
                                                    fetch: Query -> Reply<V>, art: Artifacts<V, S, L>)
    requires Valid(now) && ObservationWindow(now).Some?
    requires Usable(fetch(MarineQuery(latitude, longitude, WindowAt(now))))
    requires !Usable(fetch(WeatherQuery(latitude, longitude, WindowAt(now))))
    ensures var run := PredictFromCoords(now, latitude, longitude, fetch, art);
            var reply := fetch(WeatherQuery(latitude, longitude, WindowAt(now)));
            && run.issued == [MarineQuery(latitude, longitude, WindowAt(now)),
                              WeatherQuery(latitude, longitude, WindowAt(now))]
            && run.scalerInput.None?
            && run.outcome.Err?
            && (reply.Answered? && reply.status != StatusOk ==>
                  run.outcome.error == UpstreamStatus(Weather, reply.status)
                  && StatusCode(run.outcome.error) == reply.status)
  {
  }

  /** backend/main.py:43, 54-61: a marine "hourly" member that is not an object passes
      the lookup of l.43, so the weather provider is still asked; the request then
      fails on the weather status if that is not 200, and otherwise on the first
      marine field read, with a 500. Nothing is scaled. */
  lemma MarineHourlyNotObjectFailsAfterBothQueries<V, S, L>(now: DateTime, latitude: real, longitude: real,
                                                            fetch: Query -> Reply<V>, art: Artifacts<V, S, L>)
    requires Valid(now) && ObservationWindow(now).Some?
    requires Usable(fetch(MarineQuery(latitude, longitude, WindowAt(now))))
    requires fetch(MarineQuery(latitude, longitude, WindowAt(now))).body.HourlyOther?
    ensures var run := PredictFromCoords(now, latitude, longitude, fetch, art);
            var reply := fetch(WeatherQuery(latitude, longitude, WindowAt(now)));
            && run.issued == [MarineQuery(latitude, longitude, WindowAt(now)),
                              WeatherQuery(latitude, longitude, WindowAt(now))]
            && run.scalerInput.None?
            && run.outcome.Err?
            && (reply.Answered? && reply.status != StatusOk ==>
                  run.outcome.error == UpstreamStatus(Weather, reply.status))
            && (reply.NoReply? || (reply.status == StatusOk && reply.body.HourlyMissing?) ==>
                  StatusCode(run.outcome.error) == InternalServerError)
            && (Usable(reply) ==>
                  run.outcome.error == HourlyNotObject(Marine)
                  && StatusCode(run.outcome.error) == InternalServerError)
  {
  }

  /** Only an upstream's own non-200 status is passed on, and every other failure is a
      500: a request that fails never reaches the client as 200. */
  lemma FailureNeverReportsOk<V, S, L>(now: DateTime, latitude: real, longitude: real,
                                       fetch: Query -> Reply<V>, art: Artifacts<V, S, L>)
    requires Valid(now)
    ensures var run := PredictFromCoords(now, latitude, longitude, fetch, art);
            run.outcome.Err? ==> StatusCode(run.outcome.error) != StatusOk
  {
  }

  /** backend/main.py:27-52: both queries carry the request's coordinates and the same
      window, which their text gives back exactly, under the parameter names each
      provider is sent; each asks its own endpoint for the very variables the record
      later reads from that provider. */
  lemma QueriesCarryTheWindowAndTheFields(latitude: real, longitude: real, w: Window)
    requires Valid(w.start) && Valid(w.end)
    ensures ParseIsoZ(MarineQuery(latitude, longitude, w).start) == Some(w.start)
    ensures ParseIsoZ(MarineQuery(latitude, longitude, w).end) == Some(w.end)
    ensures ParseIsoZ(WeatherQuery(latitude, longitude, w).start) == Some(w.start)
    ensures ParseIsoZ(WeatherQuery(latitude, longitude, w).end) == Some(w.end)
    ensures MarineQuery(latitude, longitude, w).latitude == latitude
    ensures MarineQuery(latitude, longitude, w).longitude == longitude
    ensures WeatherQuery(latitude, longitude, w).latitude == latitude
    ensures WeatherQuery(latitude, longitude, w).longitude == longitude
    ensures MarineQuery(latitude, longitude, w).startParam == "start_hour"
    ensures MarineQuery(latitude, longitude, w).endParam == "end_hour"
    ensures WeatherQuery(latitude, longitude, w).startParam == "start"
    ensures WeatherQuery(latitude, longitude, w).endParam == "end"
    ensures MarineQuery(latitude, longitude, w).provider == Marine
    ensures MarineQuery(latitude, longitude, w).endpoint == MarineEndpoint
    ensures MarineQuery(latitude, longitude, w).hourly == MarineFields
    ensures WeatherQuery(latitude, longitude, w).provider == Weather
    ensures WeatherQuery(latitude, longitude, w).endpoint == WeatherEndpoint
    ensures WeatherQuery(latitude, longitude, w).hourly == WeatherFields
  {
    ParseIsoZOfIsoZ(w.start);
    ParseIsoZOfIsoZ(w.end);
  }

  /** The request reaches the scaler: a window, two usable replies whose "hourly"
      members are objects, and every variable of each provider sampled. */
  predicate Fed<V>(now: DateTime, latitude: real, longitude: real, fetch: Query -> Reply<V>)
    requires Valid(now)
  {
    && ObservationWindow(now).Some?
    && HasHourlyObject(fetch(MarineQuery(latitude, longitude, WindowAt(now))))
    && HasHourlyObject(fetch(WeatherQuery(latitude, longitude, WindowAt(now))))
    && AllSampled(fetch(MarineQuery(latitude, longitude, WindowAt(now))).body.hourly, MarineFields)
    && AllSampled(fetch(WeatherQuery(latitude, longitude, WindowAt(now))).body.hourly, WeatherFields)
  }

  /** The eighteen readings in canonical order, each named feature read from its own
      provider's series of that name. */
  ghost function CanonicalRow<V>(now: DateTime, latitude: real, longitude: real,
                                 fetch: Query -> Reply<V>): (row: seq<V>)
    requires Valid(now) && Fed(now, latitude, longitude, fetch)
    ensures |row| == |FeatureOrder|
  {
    var marine := fetch(MarineQuery(latitude, longitude, WindowAt(now))).body.hourly;
    var weather := fetch(WeatherQuery(latitude, longitude, WindowAt(now))).body.hourly;
    seq(|FeatureOrder|, i requires 0 <= i < |FeatureOrder| => Reading(marine, weather, i))
  }

  /** backend/main.py:60-83: the scaler is called exactly when both replies are usable and
      sampled, and then on a single row holding the eighteen readings in canonical
      order, the i-th from the series named FeatureOrder[i] of its own provider. */
  lemma ScalerSeesTheCanonicalRow<V, S, L>(now: DateTime, latitude: real, longitude: real,
                                           fetch: Query -> Reply<V>, art: Artifacts<V, S, L>)
    requires Valid(now)
    ensures Fed(now, latitude, longitude, fetch) <==>
              PredictFromCoords(now, latitude, longitude, fetch, art).scalerInput.Some?
    ensures Fed(now, latitude, longitude, fetch) ==>
              PredictFromCoords(now, latitude, longitude, fetch, art).scalerInput
                == Some([CanonicalRow(now, latitude, longitude, fetch)])
  {
    if Fed(now, latitude, longitude, fetch) {
      var marine := fetch(MarineQuery(latitude, longitude, WindowAt(now))).body.hourly;
      var weather := fetch(WeatherQuery(latitude, longitude, WindowAt(now))).body.hourly;
      var record := Assemble(marine, weather).value;
      FeatureOrderShape();
      assert Row(record) == CanonicalRow(now, latitude, longitude, fetch);
    }
  }

  /** backend/main.py:84-88: a request succeeds exactly when it is fed and the classifier
      returns a label; the answer is then the eighteen readings under their names in
      canonical order, unchanged, followed by "prediction" holding `str` of the first
      label the classifier gives for the scaler's output on the canonical row. */
  lemma ResponseEchoesTheFeatures<V, S, L>(now: DateTime, latitude: real, longitude: real,
                                           fetch: Query -> Reply<V>, art: Artifacts<V, S, L>)
    requires Valid(now)
    ensures var run := PredictFromCoords(now, latitude, longitude, fetch, art);
            run.outcome.Ok? <==>
              Fed(now, latitude, longitude, fetch)
              && |art.predict(art.transform([CanonicalRow(now, latitude, longitude, fetch)]))| > 0
    ensures var run := PredictFromCoords(now, latitude, longitude, fetch, art);
            run.outcome.Ok? ==>
              var row := CanonicalRow(now, latitude, longitude, fetch);
              && |run.outcome.value| == |FeatureOrder| + 1
              && (forall i :: 0 <= i < |FeatureOrder| ==>
                    run.outcome.value[i] == (FeatureOrder[i], Number(row[i])))
              && run.outcome.value[|FeatureOrder|]
                   == (PredictionKey, Text(art.show(art.predict(art.transform([row]))[0])))
  {
    ScalerSeesTheCanonicalRow(now, latitude, longitude, fetch, art);
    if Fed(now, latitude, longitude, fetch) {
      var marine := fetch(MarineQuery(latitude, longitude, WindowAt(now))).body.hourly;
      var weather := fetch(WeatherQuery(latitude, longitude, WindowAt(now))).body.hourly;
      var record := Assemble(marine, weather).value;
      assert Row(record) == CanonicalRow(now, latitude, longitude, fetch);
      var run := PredictFromCoords(now, latitude, longitude, fetch, art);
      if run.outcome.Ok? {
        assert run.outcome == Infer(record, art);
        assert Keys(run.outcome.value)[|FeatureOrder|] == PredictionKey;
      }
    }
  }

  /** Two replies the request cannot tell apart: the same kind, the same status, the
      same kind of "hourly" member, and the same first samples of the named series. */
  ghost predicate Indistinguishable<V>(r1: Reply<V>, r2: Reply<V>, names: seq<string>) {
    && r1.Answered? == r2.Answered?
    && (r1.Answered? ==>
          && r1.status == r2.status
          && r1.body.HourlyMissing? == r2.body.HourlyMissing?
          && r1.body.HourlyObject? == r2.body.HourlyObject?
          && (r1.body.HourlyObject? ==> AgreeOn(r1.body.hourly, r2.body.hourly, names)))
  }

  /** First-sample policy: the whole run, answer and failures included, depends on the
      replies only through their statuses and the first sample of each series the
      record reads; later samples and other variables are ignored. */
  lemma RunDependsOnlyOnFirstSamples<V, S, L>(now: DateTime, latitude: real, longitude: real,
                                             f1: Query -> Reply<V>, f2: Query -> Reply<V>,
                                             art: Artifacts<V, S, L>)
    requires Valid(now) && ObservationWindow(now).Some?
    requires Indistinguishable(f1(MarineQuery(latitude, longitude, WindowAt(now))),
                               f2(MarineQuery(latitude, longitude, WindowAt(now))), MarineFields)
    requires Indistinguishable(f1(WeatherQuery(latitude, longitude, WindowAt(now))),
                               f2(WeatherQuery(latitude, longitude, WindowAt(now))), WeatherFields)
    ensures PredictFromCoords(now, latitude, longitude, f1, art)
              == PredictFromCoords(now, latitude, longitude, f2, art)
  {
    var w := WindowAt(now);
    var m1, m2 := f1(MarineQuery(latitude, longitude, w)), f2(MarineQuery(latitude, longitude, w));
    var w1, w2 := f1(WeatherQuery(latitude, longitude, w)), f2(WeatherQuery(latitude, longitude, w));
    if HasHourlyObject(m1) {
      FirstSamplesDependOnFirstSamplesOnly(m1.body.hourly, m2.body.hourly, MarineFields);
      if HasHourlyObject(w1) {
        AssembleReadsOnlyItsFields(m1.body.hourly, w1.body.hourly, m2.body.hourly, w2.body.hourly);
      }
    }
  }
}
