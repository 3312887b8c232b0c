/** The feature record of a coordinate request: 18 named readings in the column order
    the scaler and the classifier were fitted with, nine taken from the marine
    provider's hourly series and nine from the weather provider's, each the first
    sample of its series.

    A record, like the Python dict that holds it, is an ordered list of
    (name, value) entries; `Put` is the dict's item assignment. */
module Features {

  import opened Wrappers

  const MarineFields: seq<string> := [
    "wave_height", "wave_direction", "wave_period", "sea_level_height_msl",
    "sea_surface_temperature", "ocean_current_direction", "ocean_current_velocity",
    "swell_wave_direction", "swell_wave_period"
  ]

  const WeatherFields: seq<string> := [
    "temperature_2m", "relative_humidity_2m", "precipitation", "weather_code",
    "pressure_msl", "surface_pressure", "wind_speed_10m", "wind_direction_10m",
    "wind_direction_100m"
  ]

  /** The canonical column order: all marine fields, then all weather fields. */
  const FeatureOrder: seq<string> := MarineFields + WeatherFields

  /** The key the response adds beside the features. */
  const PredictionKey: string := "prediction"

  /** Why a field could not be read: its series is absent (a KeyError at
      backend/main.py:61-78) or has no sample (an IndexError). */
  datatype Fault = MissingSeries(field: string) | EmptySeries(field: string)

  /** The `hourly` object of a provider's reply: a series of samples per variable. */
  type Hourly<V> = map<string, seq<V>>

  /** An ordered dict: entries in insertion order. */
  type Entries<K, T> = seq<(K, T)>

  predicate Sampled<V>(hourly: Hourly<V>, f: string) {
    f in hourly && |hourly[f]| > 0
  }

  predicate AllSampled<V>(hourly: Hourly<V>, names: seq<string>) {
    forall i :: 0 <= i < |names| ==> Sampled(hourly, names[i])
  }

  /** The fault backend/main.py:61-78 raises for a field that is not sampled. */
  function FaultFor<V>(hourly: Hourly<V>, f: string): Fault {
    if f in hourly then EmptySeries(f) else MissingSeries(f)
  }

  /** `names[k]` is the first of `names` that `hourly` does not sample. */
  predicate FirstUnsampled<V>(hourly: Hourly<V>, names: seq<string>, k: int) {
    && 0 <= k < |names|
    && !Sampled(hourly, names[k])
    && forall j :: 0 <= j < k ==> Sampled(hourly, names[j])
  }

  ghost predicate Distinct<K>(keys: seq<K>) {
    forall i, j :: 0 <= i < j < |keys| ==> keys[i] != keys[j]
  }

  function Keys<K, T>(d: Entries<K, T>): (ks: seq<K>)
    ensures |ks| == |d| && forall i :: 0 <= i < |d| ==> ks[i] == d[i].0
  {
    if d == [] then [] else [d[0].0] + Keys(d[1..])
  }

  /** `[hourly[name][0] for name in names]`, evaluated left to right: the first name
      whose series is absent or empty stops the evaluation with its fault. */
  function FirstSamples<V>(hourly: Hourly<V>, names: seq<string>): (r: Result<seq<V>, Fault>)
    ensures r.Ok? <==> AllSampled(hourly, names)
    ensures r.Ok? ==> |r.value| == |names|
                      && forall i :: 0 <= i < |names| ==> r.value[i] == hourly[names[i]][0]
    ensures r.Err? ==> exists k :: FirstUnsampled(hourly, names, k)
                                   && r.error == FaultFor(hourly, names[k])
  {
    if names == [] then Ok([])
    else if !Sampled(hourly, names[0]) then
      assert FirstUnsampled(hourly, names, 0);
      Err(FaultFor(hourly, names[0]))
    else
      match FirstSamples(hourly, names[1..])
      case Err(e) =>
        var k :| FirstUnsampled(hourly, names[1..], k) && e == FaultFor(hourly, names[1..][k]);
        assert FirstUnsampled(hourly, names, k + 1);
        Err(e)
      case Ok(rest) =>
        Ok([hourly[names[0]][0]] + rest)
  }

  /** Pairs each name with the value at the same position. */
  function Label<T>(names: seq<string>, values: seq<T>): (d: Entries<string, T>)
    requires |names| == |values|
    ensures Keys(d) == names
    ensures |d| == |names| && forall i :: 0 <= i < |d| ==> d[i].1 == values[i]
  {
    seq(|names|, i requires 0 <= i < |names| => (names[i], values[i]))
  }

  /** The `merged_data` dict literal: the nine marine readings, then the nine weather
      readings, each the first sample of the series of the same name. */
  function Assemble<V>(marine: Hourly<V>, weather: Hourly<V>): (r: Result<Entries<string, V>, Fault>)
    ensures r.Ok? <==> AllSampled(marine, MarineFields) && AllSampled(weather, WeatherFields)
    ensures r.Ok? ==> Keys(r.value) == FeatureOrder
    ensures r.Ok? ==> forall i :: 0 <= i < |MarineFields| ==>
                        r.value[i].1 == marine[MarineFields[i]][0]
    ensures r.Ok? ==> forall i :: 0 <= i < |WeatherFields| ==>
                        r.value[|MarineFields| + i].1 == weather[WeatherFields[i]][0]
    ensures r.Err? && !AllSampled(marine, MarineFields) ==>
              exists k :: FirstUnsampled(marine, MarineFields, k)
                          && r.error == FaultFor(marine, MarineFields[k])
    ensures r.Err? && AllSampled(marine, MarineFields) ==>
              exists k :: FirstUnsampled(weather, WeatherFields, k)
                          && r.error == FaultFor(weather, WeatherFields[k])
  {
    match FirstSamples(marine, MarineFields)
    case Err(e) => Err(e)
    case Ok(m) =>
      match FirstSamples(weather, WeatherFields)
      case Err(e) => Err(e)
      case Ok(w) => Ok(Label(FeatureOrder, m + w))
  }

  /** The values of a record in the order of its entries: the single row of the
      frame built from the dict. */
  function Row<K, T>(d: Entries<K, T>): (row: seq<T>)
    ensures |row| == |d| && forall i :: 0 <= i < |d| ==> row[i] == d[i].1
  {
    seq(|d|, i requires 0 <= i < |d| => d[i].1)
  }

  /** `d[k] = v` on a Python dict, whose keys are distinct: an existing key keeps its
      place and takes the new value; a new key goes at the end. */
  function Put<K(==), T>(d: Entries<K, T>, k: K, v: T): (r: Entries<K, T>)
    requires Distinct(Keys(d))
    ensures Distinct(Keys(r))
    ensures k in Keys(d) ==> Keys(r) == Keys(d)
    ensures k !in Keys(d) ==> Keys(r) == Keys(d) + [k]
    ensures forall i :: 0 <= i < |d| && d[i].0 != k ==> r[i] == d[i]
    ensures forall i :: 0 <= i < |r| && r[i].0 == k ==> r[i].1 == v
  {
    if d == [] then [(k, v)]
    else if d[0].0 == k then [(k, v)] + d[1..]
    else
      assert Distinct(Keys(d[1..])) by {
        assert Keys(d) == [d[0].0] + Keys(d[1..]);
      }
      [d[0]] + Put(d[1..], k, v)
  }

  /** No field name occurs twice, so the dict literal keeps all eighteen entries; the
      response key is not a field name, so setting it adds an entry. */
  lemma FeatureOrderShape()
    ensures |MarineFields| == 9 && |WeatherFields| == 9 && |FeatureOrder| == 18
    ensures Distinct(FeatureOrder)
    ensures PredictionKey !in FeatureOrder
  {
  }

  /** Adding the response key to an assembled record appends one entry and leaves
      the eighteen features as they were. */
  lemma PutPredictionAppends<T>(d: Entries<string, T>, v: T)
    requires Keys(d) == FeatureOrder
    ensures Distinct(Keys(d))
    ensures Put(d, PredictionKey, v) == d + [(PredictionKey, v)]
  {
    FeatureOrderShape();
    PutNewKeyAppends(d, PredictionKey, v);
  }

  lemma {:induction false} PutNewKeyAppends<K, T>(d: Entries<K, T>, k: K, v: T)
    requires Distinct(Keys(d)) && k !in Keys(d)
    ensures Put(d, k, v) == d + [(k, v)]
  {
    if d != [] {
      assert Keys(d) == [d[0].0] + Keys(d[1..]);
      PutNewKeyAppends(d[1..], k, v);
      assert d == [d[0]] + d[1..];
    }
  }

  /** Two provider replies agree on `names` as far as the pipeline can see: the same
      names are present, the same series are empty, and the first samples match. */
  ghost predicate AgreeOn<V>(h1: Hourly<V>, h2: Hourly<V>, names: seq<string>) {
    forall i :: 0 <= i < |names| ==>
      && (names[i] in h1 <==> names[i] in h2)
      && (Sampled(h1, names[i]) <==> Sampled(h2, names[i]))
      && (Sampled(h1, names[i]) ==> h1[names[i]][0] == h2[names[i]][0])
  }

  lemma {:induction false} FirstSamplesDependOnFirstSamplesOnly<V>(h1: Hourly<V>, h2: Hourly<V>, names: seq<string>)
    requires AgreeOn(h1, h2, names)
    ensures FirstSamples(h1, names) == FirstSamples(h2, names)
  {
    if names != [] {
      assert AgreeOn(h1, h2, names[1..]) by {
        forall i | 0 <= i < |names[1..]|
          ensures names[1..][i] == names[i + 1]
        {
        }
      }
      FirstSamplesDependOnFirstSamplesOnly(h1, h2, names[1..]);
    }
  }

  /** Provenance: the record is fixed by the first samples of the nine marine series
      and of the nine weather series; other variables, later samples and the weather
      reply's marine-named series (and vice versa) play no part. */
  lemma AssembleReadsOnlyItsFields<V>(m1: Hourly<V>, w1: Hourly<V>, m2: Hourly<V>, w2: Hourly<V>)
    requires AgreeOn(m1, m2, MarineFields) && AgreeOn(w1, w2, WeatherFields)
    ensures Assemble(m1, w1) == Assemble(m2, w2)
  {
    FirstSamplesDependOnFirstSamplesOnly(m1, m2, MarineFields);
    FirstSamplesDependOnFirstSamplesOnly(w1, w2, WeatherFields);
  }
}
