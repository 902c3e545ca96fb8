/** The accident-risk predictor of the second web app: the one-row input table
    built from the form, the per-column label encoding of its text columns, and
    the risk tier and notification chosen from the classifier's probability. The
    classifier and `float()` are parameters. */
module RiskApp {
  import opened Wrappers
  import opened Text
  import opened Vocabulary

  /** A cell of the one-row DataFrame. */
  datatype Cell = Text(s: string) | Int(i: int) | Float(r: real)

  datatype FormError =
    | MissingField(name: string)   // `request.form[name]` raised `KeyError`
    | NotANumber(name: string)     // `int(...)` or `float(...)` raised `ValueError`

  function Field(form: map<string, string>, name: string): (r: Result<string, FormError>)
    ensures r.Success? <==> name in form
    ensures r.Success? ==> r.value == form[name]
    ensures r.Failure? ==> r.error == MissingField(name)
  {
    if name in form then Success(form[name]) else Failure(MissingField(name))
  }

  function IntField(form: map<string, string>, name: string): (r: Result<int, FormError>)
    ensures r.Success? <==> name in form && ParseInt(form[name]).Some?
    ensures r.Success? ==> Some(r.value) == ParseInt(form[name])
  {
    var text :- Field(form, name);
    match ParseInt(text)
    case None => Failure(NotANumber(name))
    case Some(n) => Success(n)
  }

  function FloatField(form: map<string, string>, name: string, toFloat: string -> Option<real>): (r: Result<real, FormError>)
    ensures r.Success? <==> name in form && toFloat(form[name]).Some?
    ensures r.Success? ==> Some(r.value) == toFloat(form[name])
  {
    var text :- Field(form, name);
    match toFloat(text)
    case None => Failure(NotANumber(name))
    case Some(x) => Success(x)
  }

  const RoadType := "Kolli Ghat Road"
  const VehicleNumber := 5

  /** The submitted fields after conversion. */
  datatype RiskForm = RiskForm(weather: string, time: string, traffic: int, speed: real,
                               alcohol: int, road: string, vehicle: string, age: int,
                               experience: int, light: string)

  /** Reads the fields in the order the `input_data` dictionary evaluates them;
      the first missing or malformed field is the error. */
  function ReadForm(form: map<string, string>, toFloat: string -> Option<real>): (r: Result<RiskForm, FormError>)
    ensures r.Success? ==>
              && "weather" in form && r.value.weather == form["weather"]
              && "time" in form && r.value.time == form["time"]
              && "road" in form && r.value.road == form["road"]
              && "vehicle" in form && r.value.vehicle == form["vehicle"]
              && "light" in form && r.value.light == form["light"]
              && "traffic" in form && Some(r.value.traffic) == ParseInt(form["traffic"])
              && "alcohol" in form && Some(r.value.alcohol) == ParseInt(form["alcohol"])
              && "age" in form && Some(r.value.age) == ParseInt(form["age"])
              && "experience" in form && Some(r.value.experience) == ParseInt(form["experience"])
              && "speed" in form && Some(r.value.speed) == toFloat(form["speed"])
  {
    var weather :- Field(form, "weather");
    var time :- Field(form, "time");
    var traffic :- IntField(form, "traffic");
    var speed :- FloatField(form, "speed", toFloat);
    var alcohol :- IntField(form, "alcohol");
    var road :- Field(form, "road");
    var vehicle :- Field(form, "vehicle");
    var age :- IntField(form, "age");
    var experience :- IntField(form, "experience");
    var light :- Field(form, "light");
    Success(RiskForm(weather, time, traffic, speed, alcohol, road, vehicle, age, experience, light))
  }

  /** The form is read exactly when every field is present and the numeric ones
      parse. */
  lemma ReadFormDefined(form: map<string, string>, toFloat: string -> Option<real>)
    ensures ReadForm(form, toFloat).Success? <==>
              && "weather" in form && "time" in form && "road" in form
              && "vehicle" in form && "light" in form
              && "traffic" in form && ParseInt(form["traffic"]).Some?
              && "speed" in form && toFloat(form["speed"]).Some?
              && "alcohol" in form && ParseInt(form["alcohol"]).Some?
              && "age" in form && ParseInt(form["age"]).Some?
              && "experience" in form && ParseInt(form["experience"]).Some?
  {
  }

  /** The columns of the input table. */
  datatype Column =
    | Weather | RoadTypeColumn | TimeOfDay | TrafficDensity | SpeedLimit | NumberOfVehicles
    | DriverAlcohol | RoadCondition | VehicleType | DriverAge | DriverExperience | RoadLightCondition

  /** The `input_data` dictionary. */
  function InputData(f: RiskForm): map<Column, Cell> {
    map[
      Weather := Text(f.weather),
      RoadTypeColumn := Text(RoadType),
      TimeOfDay := Text(f.time),
      TrafficDensity := Int(f.traffic),
      SpeedLimit := Float(f.speed),
      NumberOfVehicles := Int(VehicleNumber),
      DriverAlcohol := Int(f.alcohol),
      RoadCondition := Text(f.road),
      VehicleType := Text(f.vehicle),
      DriverAge := Int(f.age),
      DriverExperience := Int(f.experience),
      RoadLightCondition := Text(f.light)]
  }

  /** The road type and the number of vehicles are fixed whatever the form
      says; the other columns hold the submitted values. */
  lemma InputDataSpec(f: RiskForm)
    ensures forall c: Column :: c in InputData(f)
    ensures InputData(f)[RoadTypeColumn] == Text(RoadType)
    ensures InputData(f)[NumberOfVehicles] == Int(VehicleNumber)
    ensures InputData(f)[Weather] == Text(f.weather)
    ensures InputData(f)[TimeOfDay] == Text(f.time)
    ensures InputData(f)[RoadCondition] == Text(f.road)
    ensures InputData(f)[VehicleType] == Text(f.vehicle)
    ensures InputData(f)[RoadLightCondition] == Text(f.light)
    ensures InputData(f)[TrafficDensity] == Int(f.traffic)
    ensures InputData(f)[SpeedLimit] == Float(f.speed)
    ensures InputData(f)[DriverAlcohol] == Int(f.alcohol)
    ensures InputData(f)[DriverAge] == Int(f.age)
    ensures InputData(f)[DriverExperience] == Int(f.experience)
  {
    forall c: Column
      ensures c in InputData(f)
    {
      match c
      case Weather =>
      case RoadTypeColumn =>
      case TimeOfDay =>
      case TrafficDensity =>
      case SpeedLimit =>
      case NumberOfVehicles =>
      case DriverAlcohol =>
      case RoadCondition =>
      case VehicleType =>
      case DriverAge =>
      case DriverExperience =>
      case RoadLightCondition =>
    }
  }

  /** The columns the handler label-encodes, in loop order. */
  const CategoricalColumns: seq<Column> := [Weather, RoadCondition, TimeOfDay, VehicleType, RoadLightCondition, RoadTypeColumn]

  lemma CategoricalColumnsDistinct()
    ensures forall j, k :: 0 <= j < k < |CategoricalColumns| ==> CategoricalColumns[j] != CategoricalColumns[k]
  {
  }

  /** Every text column of a built row is one of the categorical columns. */
  lemma InputDataCategoricalsAreText(f: RiskForm)
    ensures forall c :: c in CategoricalColumns ==> c in InputData(f) && InputData(f)[c].Text?
  {
  }

  /** The row with every categorical column replaced by code 0. */
  function ZeroCategoricals(row: map<Column, Cell>): map<Column, Cell> {
    map c | c in row :: if c in CategoricalColumns then Int(0) else row[c]
  }

  /** The loop over the categorical columns: a fresh `LabelEncoder` is fitted on
      each one-row column and replaces it by its code. Every code is 0, and no
      other column changes. */
  method EncodeCategoricals(row: map<Column, Cell>) returns (encoded: map<Column, Cell>)
    requires forall c :: c in CategoricalColumns ==> c in row && row[c].Text?
    ensures encoded == ZeroCategoricals(row)
  {
    CategoricalColumnsDistinct();
    encoded := row;
    var i := 0;
    while i < |CategoricalColumns|
      invariant 0 <= i <= |CategoricalColumns|
      invariant encoded.Keys == row.Keys
      invariant forall j :: 0 <= j < i ==> encoded[CategoricalColumns[j]] == Int(0)
      invariant forall c :: c in row && c !in CategoricalColumns[..i] ==> encoded[c] == row[c]
    {
      var column := CategoricalColumns[i];
      assert column !in CategoricalColumns[..i];
      var value := encoded[column].s;
      var code := Encode(Fit([value]), value);
      SingleValueEncodesToZero(value);
      encoded := encoded[column := Int(code.value)];
      i := i + 1;
    }
    assert CategoricalColumns[..i] == CategoricalColumns;
  }

  /** The encoded row does not depend on the categorical fields of the form: two
      forms that agree on the numeric fields give the classifier the same row. */
  lemma CategoricalFieldsIgnored(f: RiskForm, g: RiskForm)
    requires f.traffic == g.traffic && f.speed == g.speed && f.alcohol == g.alcohol
    requires f.age == g.age && f.experience == g.experience
    ensures ZeroCategoricals(InputData(f)) == ZeroCategoricals(InputData(g))
  {
    InputDataSpec(f);
    InputDataSpec(g);
  }

  datatype Risk = Low | Medium | High

  function Rank(r: Risk): int {
    match r
    case Low => 0
    case Medium => 1
    case High => 2
  }

  /** The risk tier of a probability: high above 0.7, medium above 0.3, low
      otherwise (both bounds exclusive). */
  function RiskTier(prob: real): Risk {
    if prob > 0.7 then High else if prob > 0.3 then Medium else Low
  }

  /** Each tier as an if-and-only-if on the probability. */
  lemma RiskTierBands(prob: real)
    ensures RiskTier(prob) == High <==> prob > 0.7
    ensures RiskTier(prob) == Medium <==> 0.3 < prob <= 0.7
    ensures RiskTier(prob) == Low <==> prob <= 0.3
  {
  }

  /** A higher probability never gives a lower tier. */
  lemma RiskTierMonotone(p: real, q: real)
    requires p <= q
    ensures Rank(RiskTier(p)) <= Rank(RiskTier(q))
  {
  }

  const CautionText := "CAUTION: High accident risk! Slow down to 20 km/h on sharp turns."
  const MenaceText := "MENACE: Moderate risk. Drive cautiously on this road."

  function Notification(prob: real): Option<string> {
    if prob > 0.7 then Some(CautionText)
    else if prob > 0.3 then Some(MenaceText)
    else None
  }

  /** A notification is shown exactly above 0.3; the caution text goes with the
      High tier and the menace text with the Medium tier. */
  lemma NotificationSpec(prob: real)
    ensures Notification(prob).Some? <==> prob > 0.3
    ensures Notification(prob) == Some(CautionText) <==> RiskTier(prob) == High
    ensures Notification(prob) == Some(MenaceText) <==> RiskTier(prob) == Medium
  {
  }

  /** What the predictor page shows: the probability, its tier and the notification. */
  datatype RiskReport = RiskReport(prob: real, risk: Risk, notification: Option<string>)

  /** The POST branch of `predictor`. `predictProba` is `model.predict_proba(df)[0][1]`. */
  method Predictor(form: map<string, string>, toFloat: string -> Option<real>,
                   predictProba: map<Column, Cell> -> real)
    returns (r: Result<RiskReport, FormError>)
    ensures r.Failure? <==> ReadForm(form, toFloat).Failure?
    ensures r.Failure? ==> r.error == ReadForm(form, toFloat).error
    ensures r.Success? ==>
              && r.value.prob == predictProba(ZeroCategoricals(InputData(ReadForm(form, toFloat).value)))
              && r.value.risk == RiskTier(r.value.prob)
              && r.value.notification == Notification(r.value.prob)
  {
    var fields := ReadForm(form, toFloat);
    if fields.Failure? {
      return Failure(fields.error);
    }
    var inputData := InputData(fields.value);
    InputDataCategoricalsAreText(fields.value);
    var df := EncodeCategoricals(inputData);
    var prob := predictProba(df);
    var risk := RiskTier(prob);
    var notification: Option<string> := None;
    if prob > 0.7 {
      notification := Some(CautionText);
    } else if prob > 0.3 {
      notification := Some(MenaceText);
    }
    return Success(RiskReport(prob, risk, notification));
  }
}
