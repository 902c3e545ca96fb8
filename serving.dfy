/** The prediction handler of the severity web app and the time-of-day counts of
    its dashboard. The scaler and the classifier are parameters, as are the
    random draws. */
module Serving {
  import opened Wrappers
  import opened Text
  import opened Vocabulary
  import opened Severity
  import opened TimeParsing
  import opened Geometry
  import opened Training

  /** The fields of the prediction form; `None` for a field the request lacks. */
  datatype PredictForm = PredictForm(
    time: Option<string>,
    location: Option<string>,
    weather: Option<string>,
    road: Option<string>,
    vehicles: Option<string>)

  /** The `classes_` of the three encoders saved by the training script. */
  datatype Encoders = Encoders(locations: seq<string>, weathers: seq<string>, roads: seq<string>)

  /** The random draws of one request: those of `convert_time`, `random.random()`
      and `random.randint(-1, 1)`. */
  datatype Draws = Draws(time: TimeDraw, coin: real, delta: int)

  predicate ValidDraws(d: Draws) {
    ValidTimeDraw(d.time) && 0.0 <= d.coin < 1.0 && -1 <= d.delta <= 1
  }

  /** Seven times in ten the vehicle count moves by the drawn step and is clamped
      to 1..5; otherwise it is left alone. */
  function Jitter(vehicles: int, coin: real, delta: int): int {
    if coin < 0.7 then
      var capped := if vehicles + delta < 5 then vehicles + delta else 5;
      if capped > 1 then capped else 1
    else vehicles
  }

  lemma JitterSpec(vehicles: int, coin: real, delta: int)
    requires -1 <= delta <= 1
    ensures coin < 0.7 ==> 1 <= Jitter(vehicles, coin, delta) <= 5
    ensures coin < 0.7 && 2 <= vehicles <= 4 ==> Jitter(vehicles, coin, delta) == vehicles + delta
    ensures coin < 0.7 && 1 <= vehicles <= 5 ==> -1 <= Jitter(vehicles, coin, delta) - vehicles <= 1
    ensures coin >= 0.7 ==> Jitter(vehicles, coin, delta) == vehicles
  {
  }

  /** More vehicles in never give fewer vehicles out. */
  lemma JitterMonotone(v1: int, v2: int, coin: real, delta: int)
    requires v1 <= v2
    ensures Jitter(v1, coin, delta) <= Jitter(v2, coin, delta)
  {
  }

  /** The single feature row the model is asked about: hour, the three codes and
      the vehicle count, in the column order used in training. */
  function ServingVector(hour: real, location: nat, weather: nat, road: nat, vehicles: int): seq<real> {
    [hour, location as real, weather as real, road as real, vehicles as real]
  }

  /** The serving vector lists the training table's columns in the training
      order, so the scaler and classifier see each value in the place they were
      fitted on. */
  lemma ServingMatchesTraining(hour: real, location: nat, weather: nat, road: nat, vehicles: int)
    ensures ServingVector(hour, location, weather, road, vehicles)
            == TrainingVector(FeatureRow(hour, location, weather, road, vehicles))
    ensures forall i :: 0 <= i < |FeatureColumns| ==>
              Column(FeatureRow(hour, location, weather, road, vehicles), FeatureColumns[i])
              == Some(ServingVector(hour, location, weather, road, vehicles)[i])
  {
    TrainingVectorOrder(FeatureRow(hour, location, weather, road, vehicles));
  }

  datatype PredictError =
    | InvalidVehicleCount    // `int(...)` raised `ValueError`
    | EmptyVocabulary        // `classes_[0]` raised `IndexError`
    | UnknownClass(k: int)   // `severity[prediction]` raised `KeyError`

  /** What the result page shows on success. */
  datatype Prediction = Prediction(severity: string, shape: RoadShape)

  /** The vehicle count from the form: 1 when the field is absent, otherwise its
      text read as an integer, and `None` when that text is not one. */
  function VehicleCount(field: Option<string>): Option<int> {
    if field.None? then Some(1) else ParseInt(field.value)
  }

  /** The values after `validate_input`, each a member of its vocabulary. */
  function Validated(form: PredictForm, enc: Encoders): (v: (string, string, string))
    requires enc.locations != [] && enc.weathers != [] && enc.roads != []
    ensures v.0 in enc.locations && v.1 in enc.weathers && v.2 in enc.roads
  {
    (ValidateInput(form.location, enc.locations, enc.locations[0]),
     ValidateInput(form.weather, enc.weathers, enc.weathers[0]),
     ValidateInput(form.road, enc.roads, enc.roads[0]))
  }

  /** The vector handed to the scaler: the serving hour, the codes of the
      validated location, weather and road, and the jittered vehicle count. */
  function ServingFeatures(form: PredictForm, enc: Encoders, vehicles: int, draws: Draws): seq<real>
    requires ValidDraws(draws)
    requires enc.locations != [] && enc.weathers != [] && enc.roads != []
  {
    var (location, weather, road) := Validated(form, enc);
    ServingVector(
      ServingHour(form.time, draws.time),
      Encode(enc.locations, location).value,
      Encode(enc.weathers, weather).value,
      Encode(enc.roads, road).value,
      Jitter(vehicles, draws.coin, draws.delta))
  }

  /** The `predict` handler from reading the form to rendering the result, with
      `location`, `weather`, `road` and `vehicles` reassigned step by step. Any
      exception becomes an error result. Once the vehicle count parses and the
      vocabularies are non-empty, the request succeeds exactly when the class the
      classifier returns has a label. */
  method Predict(form: PredictForm, enc: Encoders, roads: seq<Place>,
                 scale: seq<real> -> seq<real>, classify: seq<real> -> int, draws: Draws)
    returns (r: Result<Prediction, PredictError>)
    requires ValidDraws(draws)
    ensures r == Failure(InvalidVehicleCount) <==> VehicleCount(form.vehicles).None?
    ensures r == Failure(EmptyVocabulary) <==>
              VehicleCount(form.vehicles).Some? && (enc.locations == [] || enc.weathers == [] || enc.roads == [])
    ensures VehicleCount(form.vehicles).Some? && enc.locations != [] && enc.weathers != [] && enc.roads != [] ==>
              var k := classify(scale(ServingFeatures(form, enc, VehicleCount(form.vehicles).value, draws)));
              var latLon := Coordinates(roads, Validated(form, enc).0);
              && (r.Success? <==> SeverityLabel(k).Some?)
              && (r.Failure? ==> r.error == UnknownClass(k))
              && (r.Success? ==> r.value == Prediction(SeverityLabel(k).value, SlopeRadius(latLon.0, latLon.1)))
  {
    var time := form.time;
    var location := form.location;
    var weather := form.weather;
    var road := form.road;
    var count := VehicleCount(form.vehicles);
    if count.None? {
      return Failure(InvalidVehicleCount);
    }
    var vehicles := count.value;

    var hour := ServingHour(time, draws.time);
    if enc.locations == [] || enc.weathers == [] || enc.roads == [] {
      return Failure(EmptyVocabulary);
    }
    var validLocation := ValidateInput(location, enc.locations, enc.locations[0]);
    var validWeather := ValidateInput(weather, enc.weathers, enc.weathers[0]);
    var validRoad := ValidateInput(road, enc.roads, enc.roads[0]);
    ValidateInputClosed(location, enc.locations, enc.locations[0]);
    ValidateInputClosed(weather, enc.weathers, enc.weathers[0]);
    ValidateInputClosed(road, enc.roads, enc.roads[0]);

    var locationCode := Encode(enc.locations, validLocation).value;
    var weatherCode := Encode(enc.weathers, validWeather).value;
    var roadCode := Encode(enc.roads, validRoad).value;

    vehicles := Jitter(vehicles, draws.coin, draws.delta);

    var features := ServingVector(hour, locationCode, weatherCode, roadCode, vehicles);
    var prediction := classify(scale(features));
    var result := SeverityLabel(prediction);
    if result.None? {
      return Failure(UnknownClass(prediction));
    }
    var (latitude, longitude) := Coordinates(roads, validLocation);
    return Success(Prediction(result.value, SlopeRadius(latitude, longitude)));
  }

  /** What reaches the classifier on success: a known code for each categorical
      field (the submitted value when the vocabulary has it, the first class
      otherwise) and, when the jitter fires, a vehicle count in 1..5. */
  lemma PredictInputs(form: PredictForm, enc: Encoders, draws: Draws)
    requires ValidDraws(draws)
    requires enc.locations != [] && enc.weathers != [] && enc.roads != []
    ensures var (location, weather, road) := Validated(form, enc);
            && Encode(enc.locations, location).Success?
            && enc.locations[Encode(enc.locations, location).value] == location
            && Encode(enc.weathers, weather).Success?
            && enc.weathers[Encode(enc.weathers, weather).value] == weather
            && Encode(enc.roads, road).Success?
            && enc.roads[Encode(enc.roads, road).value] == road
            && (form.location.Some? && form.location.value in enc.locations ==> location == form.location.value)
            && (!(form.location.Some? && form.location.value in enc.locations) ==> location == enc.locations[0])
  {
  }

  /** Every successful prediction shows one of the three labels and a slope and
      radius inside the clamps. */
  lemma PredictResultShape(p: Prediction, k: int, latitude: real, longitude: real)
    requires Some(p.severity) == SeverityLabel(k) && p.shape == SlopeRadius(latitude, longitude)
    ensures p.severity in {LowLabel, MediumLabel, HighLabel}
    ensures 0 <= k <= 2
    ensures 5.0 <= p.shape.slope <= 20.0 && 20.0 <= p.shape.radius <= 100.0
  {
    SeverityLabelDomain(k);
  }

  // The dashboard's accidents by time of day.

  datatype Period = Night | Morning | Afternoon | Evening

  /** Where each period's bin begins; each bin is six hours wide. */
  function PeriodStart(p: Period): real {
    match p
    case Night => 0.0
    case Morning => 6.0
    case Afternoon => 12.0
    case Evening => 18.0
  }

  /** `pd.cut(hour, bins=[0, 6, 12, 18, 24], right=False)`: `None` for the NaN of a
      value outside every bin. */
  function TimeBin(h: real): Option<Period> {
    if 0.0 <= h < 6.0 then Some(Night)
    else if 6.0 <= h < 12.0 then Some(Morning)
    else if 12.0 <= h < 18.0 then Some(Afternoon)
    else if 18.0 <= h < 24.0 then Some(Evening)
    else None
  }

  /** The bins are left-closed: an hour falls in a period exactly when it lies in
      [start, start + 6); every hour of [0, 24) has a period, nothing else has. */
  lemma TimeBinSpec(h: real, p: Period)
    ensures TimeBin(h) == Some(p) <==> PeriodStart(p) <= h < PeriodStart(p) + 6.0
    ensures TimeBin(h).Some? <==> 0.0 <= h < 24.0
  {
  }

  /** The `Hour` column the dashboard computes: `convert_time` on every `Time`
      cell, with one set of draws per row. */
  function DashboardHours(times: seq<Option<string>>, draws: seq<TimeDraw>): (hours: seq<real>)
    requires |draws| == |times|
    requires forall i :: 0 <= i < |draws| ==> ValidTimeDraw(draws[i])
    ensures |hours| == |times|
  {
    seq(|times|, i requires 0 <= i < |times| => ServingHour(times[i], draws[i]))
  }

  /** How many hours fall in period `p`. */
  function CountIn(hours: seq<real>, p: Period): nat {
    if hours == [] then 0
    else (if TimeBin(hours[0]) == Some(p) then 1 else 0) + CountIn(hours[1..], p)
  }

  /** How many hours fall in no bin. */
  function CountUnbinned(hours: seq<real>): nat {
    if hours == [] then 0
    else (if TimeBin(hours[0]).None? then 1 else 0) + CountUnbinned(hours[1..])
  }

  /** `time_bins.value_counts().to_dict()`: every period, with its count. */
  function TimeAccidents(hours: seq<real>): map<Period, nat> {
    map[Night := CountIn(hours, Night), Morning := CountIn(hours, Morning),
        Afternoon := CountIn(hours, Afternoon), Evening := CountIn(hours, Evening)]
  }

  /** Each row is counted once, in its period, or not at all when its hour lies
      outside [0, 24). */
  lemma {:induction false} TimeAccidentsPartition(hours: seq<real>)
    ensures var c := TimeAccidents(hours);
            c[Night] + c[Morning] + c[Afternoon] + c[Evening] + CountUnbinned(hours) == |hours|
  {
    if hours != [] {
      TimeAccidentsPartition(hours[1..]);
    }
  }

  lemma LateRowHour()
    ensures DashboardHours([Some("11:00:00 PM")], [TimeDraw(0, 1.0)]) == [24.0]
  {
    ServingHourPastMidnight();
  }

  /** A row whose time parses to 11 PM and whose drawn offset is 1 lands at 24 and
      is missing from every period of the chart. */
  lemma LateRowNotCharted()
    ensures var hours := DashboardHours([Some("11:00:00 PM")], [TimeDraw(0, 1.0)]);
            && TimeAccidents(hours) == map[Night := 0, Morning := 0, Afternoon := 0, Evening := 0]
            && CountUnbinned(hours) == 1
  {
    LateRowHour();
    var hours: seq<real> := [24.0];
    assert hours[1..] == [];
  }
}
