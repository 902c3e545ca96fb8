/** The training script's preprocessing: severity target, hour of day with a
    median fill, label encoding of the three categorical columns, the feature
    table in its fixed column order, and the removal of incomplete rows from
    features and target alike. The scaler, the split and the classifier are
    library numerics and are not part of this model. */
module Training {
  import opened Wrappers
  import opened Vocabulary
  import opened Severity
  import opened TimeParsing
  import opened Statistics

  /** One row of the dataset's `Time`, `Location`, `Weather Condition`, `Road
      Condition`, `Vehicles Involved` and `Casualties` columns. `None` is an
      empty (NaN) cell. */
  datatype AccidentRecord = AccidentRecord(
    time: Option<string>,
    location: string,
    weather: string,
    road: string,
    vehicles: Option<int>,
    casualties: Option<int>)

  /** `categorize_severity` applied to a cell: a NaN count fails both comparisons
      and falls through to class 2. */
  function SeverityOfCell(casualties: Option<int>): (c: int)
    ensures 0 <= c <= 2
  {
    match casualties
    case None => 2
    case Some(n) => SeverityClass(n)
  }

  lemma SeverityOfMissingCount()
    ensures SeverityOfCell(None) == 2
    ensures SeverityLabel(SeverityOfCell(None)) == Some(HighLabel)
  {
  }

  /** The `Hour` column before the fill: the parsed hour, or `None` for NaN. */
  function ParsedHours(records: seq<AccidentRecord>): (hours: seq<Option<int>>)
    ensures |hours| == |records|
    ensures forall i :: 0 <= i < |records| && records[i].time.Some? ==> hours[i] == TrainingHour(records[i].time.value)
  {
    seq(|records|, i requires 0 <= i < |records| =>
      if records[i].time.Some? then TrainingHour(records[i].time.value) else None)
  }

  /** The non-missing entries, in order: what `median()` looks at. */
  function Present(hours: seq<Option<int>>): (xs: seq<int>)
    ensures forall x :: x in xs <==> Some(x) in hours
    ensures forall i :: 0 <= i < |hours| && hours[i].Some? ==> hours[i].value in xs
  {
    if hours == [] then []
    else
      assert hours == [hours[0]] + hours[1..];
      (if hours[0].Some? then [hours[0].value] else []) + Present(hours[1..])
  }

  /** Every present hour is kept as often as it occurs, and only the missing
      entries are dropped: the median sees the repeated hours. */
  lemma {:induction false} PresentCounts(hours: seq<Option<int>>)
    ensures forall x :: multiset(Present(hours))[x] == multiset(hours)[Some(x)]
    ensures |Present(hours)| == |hours| - multiset(hours)[None]
  {
    if hours != [] {
      assert hours == [hours[0]] + hours[1..];
      assert multiset(hours) == multiset{hours[0]} + multiset(hours[1..]);
      PresentCounts(hours[1..]);
    }
  }

  /** `data['Hour'].median()`; `None` for the NaN of a column with no value. */
  function HourMedian(hours: seq<Option<int>>): Option<real> {
    var xs := Present(hours);
    if xs == [] then None else Some(Median(xs))
  }

  /** The median depends on how often each hour occurs, not on row order. */
  lemma HourMedianOfShuffle(hours: seq<Option<int>>, other: seq<Option<int>>)
    requires multiset(hours) == multiset(other)
    ensures HourMedian(hours) == HourMedian(other)
  {
    PresentCounts(hours);
    PresentCounts(other);
    var a, b := Present(hours), Present(other);
    assert multiset(a) == multiset(b) by {
      forall x
        ensures multiset(a)[x] == multiset(b)[x]
      {
      }
    }
    if a != [] {
      MedianOfPermutation(a, b);
    } else {
      assert |multiset(b)| == 0;
    }
  }

  /** The median of parsed hours is itself an hour of the day, possibly a half hour. */
  lemma HourMedianWithin(records: seq<AccidentRecord>)
    requires forall i :: 0 <= i < |records| ==> records[i].time.Some?
    ensures var m := HourMedian(ParsedHours(records));
            && (m.Some? <==> exists i :: 0 <= i < |records| && TrainingHour(records[i].time.value).Some?)
            && (m.Some? ==> 0.0 <= m.value <= 23.0)
  {
    var hours := ParsedHours(records);
    var xs := Present(hours);
    if xs != [] {
      forall x | x in xs
        ensures 0 <= x <= 23
      {
        var i :| 0 <= i < |hours| && hours[i] == Some(x);
      }
      MedianWithin(xs, 0, 23);
      var i :| 0 <= i < |hours| && hours[i] == Some(xs[0]);
    }
  }

  /** `fillna(median, inplace=True)`: missing entries take the median. */
  function FillMissing(hours: seq<Option<int>>, median: Option<real>): (filled: seq<Option<real>>)
    ensures |filled| == |hours|
  {
    seq(|hours|, i requires 0 <= i < |hours| =>
      match hours[i]
      case Some(h) => Some(h as real)
      case None => median)
  }

  /** Parsed entries are kept, missing ones become the median; once there is a
      median nothing is missing. */
  lemma FillMissingSpec(hours: seq<Option<int>>, median: Option<real>, i: nat)
    requires i < |hours|
    ensures hours[i].Some? ==> FillMissing(hours, median)[i] == Some(hours[i].value as real)
    ensures hours[i].None? ==> FillMissing(hours, median)[i] == median
    ensures median.Some? ==> FillMissing(hours, median)[i].Some?
  {
  }

  /** A row of `X`, before `dropna`. */
  datatype PartialRow = PartialRow(hour: Option<real>, location: nat, weather: nat, road: nat, vehicles: Option<int>)

  predicate Complete(r: PartialRow) {
    r.hour.Some? && r.vehicles.Some?
  }

  /** A row of `X` after `dropna`. */
  datatype FeatureRow = FeatureRow(hour: real, location: nat, weather: nat, road: nat, vehicles: int)

  /** The feature rows before missing values are dropped: per record, the hour,
      the location, weather and road codes and the vehicle count. */
  function Assemble(hours: seq<Option<real>>, locations: seq<nat>, weathers: seq<nat>, roads: seq<nat>,
                    vehicles: seq<Option<int>>): (rows: seq<PartialRow>)
    requires |hours| == |locations| == |weathers| == |roads| == |vehicles|
    ensures |rows| == |hours|
    ensures forall i :: 0 <= i < |rows| ==>
              rows[i] == PartialRow(hours[i], locations[i], weathers[i], roads[i], vehicles[i])
  {
    seq(|hours|, i requires 0 <= i < |hours| =>
      PartialRow(hours[i], locations[i], weathers[i], roads[i], vehicles[i]))
  }

  /** `X.dropna().index`: the positions of the complete rows, ascending. */
  function KeptIndices(rows: seq<PartialRow>): (index: seq<nat>)
    ensures forall k :: 0 <= k < |index| ==> index[k] < |rows| && Complete(rows[index[k]])
    ensures forall k, l :: 0 <= k < l < |index| ==> index[k] < index[l]
    ensures forall i :: 0 <= i < |rows| && Complete(rows[i]) ==> i in index
  {
    if rows == [] then []
    else
      var n := |rows| - 1;
      var kept := KeptIndices(rows[..n]);
      assert forall i :: 0 <= i < n ==> rows[..n][i] == rows[i];
      if Complete(rows[n]) then kept + [n] else kept
  }

  /** `X.dropna()`: the complete rows at the kept positions. */
  function SelectComplete(rows: seq<PartialRow>, index: seq<nat>): (x: seq<FeatureRow>)
    requires forall k :: 0 <= k < |index| ==> index[k] < |rows| && Complete(rows[index[k]])
    ensures |x| == |index|
    ensures forall k :: 0 <= k < |index| ==> x[k] == ToFeature(rows[index[k]])
  {
    seq(|index|, k requires 0 <= k < |index| => ToFeature(rows[index[k]]))
  }

  function ToFeature(row: PartialRow): FeatureRow
    requires Complete(row)
  {
    FeatureRow(row.hour.value, row.location, row.weather, row.road, row.vehicles.value)
  }

  /** `y[X.index]`: the targets at the kept positions. */
  function SelectLabels(y: seq<int>, index: seq<nat>): (labels: seq<int>)
    requires forall k :: 0 <= k < |index| ==> index[k] < |y|
    ensures |labels| == |index|
    ensures forall k :: 0 <= k < |index| ==> labels[k] == y[index[k]]
  {
    seq(|index|, k requires 0 <= k < |index| => y[index[k]])
  }

  /** The feature table's column names, in the order the classifier sees them. */
  const FeatureColumns: seq<string> := ["Hour", "Location_Encoded", "Weather Condition", "Road Condition", "Vehicles Involved"]

  /** Column access by name on one row of the feature table. */
  function Column(r: FeatureRow, name: string): Option<real> {
    if name == "Hour" then Some(r.hour)
    else if name == "Location_Encoded" then Some(r.location as real)
    else if name == "Weather Condition" then Some(r.weather as real)
    else if name == "Road Condition" then Some(r.road as real)
    else if name == "Vehicles Involved" then Some(r.vehicles as real)
    else None
  }

  /** The row as the vector handed to the scaler and the classifier. */
  function TrainingVector(r: FeatureRow): seq<real> {
    [r.hour, r.location as real, r.weather as real, r.road as real, r.vehicles as real]
  }

  /** Position `i` of the vector holds the column named `FeatureColumns[i]`. */
  lemma TrainingVectorOrder(r: FeatureRow)
    ensures |TrainingVector(r)| == |FeatureColumns|
    ensures forall i :: 0 <= i < |FeatureColumns| ==>
              Column(r, FeatureColumns[i]) == Some(TrainingVector(r)[i])
  {
  }

  datatype TrainingError =
    | TimeNotText(row: nat)   // `strptime` raises `TypeError` on a NaN cell, which `convert_time` does not catch
    | NoData                  // no complete row: the scaler refuses an empty table before the guard is reached

  /** What the script passes on to scaling, splitting and fitting, and the fitted
      vocabularies it saves. `index` is the pandas index of the kept rows. */
  datatype TrainingSet = TrainingSet(
    index: seq<nat>,
    features: seq<FeatureRow>,
    labels: seq<int>,
    locations: seq<string>,
    weathers: seq<string>,
    roads: seq<string>)

  function FirstMissingTime(records: seq<AccidentRecord>): (i: Option<nat>)
    ensures i.Some? ==> i.value < |records| && records[i.value].time.None?
    ensures i.Some? ==> forall j :: 0 <= j < i.value ==> records[j].time.Some?
    ensures i.None? ==> forall j :: 0 <= j < |records| ==> records[j].time.Some?
  {
    if records == [] then None
    else if records[0].time.None? then Some(0)
    else match FirstMissingTime(records[1..])
      case None => None
      case Some(k) => Some(k + 1)
  }

  function Locations(records: seq<AccidentRecord>): seq<string> {
    seq(|records|, i requires 0 <= i < |records| => records[i].location)
  }

  function Weathers(records: seq<AccidentRecord>): seq<string> {
    seq(|records|, i requires 0 <= i < |records| => records[i].weather)
  }

  function Roads(records: seq<AccidentRecord>): seq<string> {
    seq(|records|, i requires 0 <= i < |records| => records[i].road)
  }

  /** Some row's time parses, so the median exists. */
  predicate SomeHourParses(records: seq<AccidentRecord>)
    requires forall i :: 0 <= i < |records| ==> records[i].time.Some?
  {
    exists i :: 0 <= i < |records| && TrainingHour(records[i].time.value).Some?
  }

  /** Whether row `i` survives `dropna`. */
  predicate RowKept(records: seq<AccidentRecord>, i: nat)
    requires i < |records|
    requires forall j :: 0 <= j < |records| ==> records[j].time.Some?
  {
    records[i].vehicles.Some? && (TrainingHour(records[i].time.value).Some? || SomeHourParses(records))
  }

  function Vehicles(records: seq<AccidentRecord>): seq<Option<int>> {
    seq(|records|, i requires 0 <= i < |records| => records[i].vehicles)
  }

  /** The feature table before `dropna`. */
  function Rows(records: seq<AccidentRecord>): (rows: seq<PartialRow>)
    ensures |rows| == |records|
  {
    var hours := ParsedHours(records);
    Assemble(FillMissing(hours, HourMedian(hours)), FitTransform(Locations(records)),
             FitTransform(Weathers(records)), FitTransform(Roads(records)), Vehicles(records))
  }

  /** Feature row `f` was built from record `rec`: an hour of the day (the parsed
      one when the time parses, the median otherwise), the codes of its three categorical values in the
      fitted vocabularies, and its vehicle count. */
  predicate FeatureOf(rec: AccidentRecord, f: FeatureRow, median: Option<real>,
                      locations: seq<string>, weathers: seq<string>, roads: seq<string>) {
    && rec.time.Some?
    && 0.0 <= f.hour <= 23.0
    && (TrainingHour(rec.time.value).Some? ==> f.hour == TrainingHour(rec.time.value).value as real)
    && (TrainingHour(rec.time.value).None? ==> median == Some(f.hour))
    && f.location < |locations| && locations[f.location] == rec.location
    && f.weather < |weathers| && weathers[f.weather] == rec.weather
    && f.road < |roads| && roads[f.road] == rec.road
    && rec.vehicles == Some(f.vehicles)
  }

  /** A row is complete after the fill exactly when `RowKept` says so, and then it
      describes its record. */
  lemma RowsSpec(records: seq<AccidentRecord>, i: nat)
    requires forall j :: 0 <= j < |records| ==> records[j].time.Some?
    requires i < |records|
    ensures Complete(Rows(records)[i]) <==> RowKept(records, i)
    ensures Complete(Rows(records)[i]) ==>
              FeatureOf(records[i], ToFeature(Rows(records)[i]), HourMedian(ParsedHours(records)),
                        Fit(Locations(records)), Fit(Weathers(records)), Fit(Roads(records)))
  {
    var hours := ParsedHours(records);
    HourMedianWithin(records);
    FillMissingSpec(hours, HourMedian(hours), i);
  }

  /** The script from loading to the train/test split, with the DataFrame's
      columns as local sequences that each step reassigns. */
  method PrepareTrainingData(records: seq<AccidentRecord>) returns (r: Result<TrainingSet, TrainingError>)
    ensures r.Failure? && r.error.TimeNotText? <==> exists i :: 0 <= i < |records| && records[i].time.None?
    ensures r.Failure? && r.error.TimeNotText? ==>
              var i := r.error.row;
              i < |records| && records[i].time.None? && forall j :: 0 <= j < i ==> records[j].time.Some?
    ensures r.Failure? && r.error.NoData? ==> forall i :: 0 <= i < |records| ==> !RowKept(records, i)
    ensures r.Success? ==>
              var t := r.value;
              && |t.index| == |t.features| == |t.labels| > 0
              && t.locations == Fit(Locations(records))
              && t.weathers == Fit(Weathers(records))
              && t.roads == Fit(Roads(records))
              && (forall k, l :: 0 <= k < l < |t.index| ==> t.index[k] < t.index[l])
              && (forall i :: 0 <= i < |records| ==> (i in t.index <==> RowKept(records, i)))
              && (forall k :: 0 <= k < |t.index| ==> TrainingRow(records, t, k))
  {
    // line 40: the target column
    var severity := seq(|records|, i requires 0 <= i < |records| => SeverityOfCell(records[i].casualties));
    // line 51: the hour column; a NaN time aborts the script
    var missing := FirstMissingTime(records);
    if missing.Some? {
      return Failure(TimeNotText(missing.value));
    }
    var hours := ParsedHours(records);
    // line 52: the median fill
    var filled := FillMissing(hours, HourMedian(hours));
    // lines 55-61: one fresh encoder per categorical column
    var locations := Fit(Locations(records));
    var weathers := Fit(Weathers(records));
    var roads := Fit(Roads(records));
    var locationCodes := FitTransform(Locations(records));
    var weatherCodes := FitTransform(Weathers(records));
    var roadCodes := FitTransform(Roads(records));
    // line 64: the feature table
    var rows := Assemble(filled, locationCodes, weatherCodes, roadCodes, Vehicles(records));
    assert rows == Rows(records);
    // lines 68-69: drop incomplete rows from X, and the same rows from y
    var index := KeptIndices(rows);
    forall i | 0 <= i < |records|
      ensures i in index <==> RowKept(records, i)
    {
      RowsSpec(records, i);
    }
    if index == [] {
      return Failure(NoData);
    }
    var features := SelectComplete(rows, index);
    var labels := SelectLabels(severity, index);
    r := Success(TrainingSet(index, features, labels, locations, weathers, roads));
    forall k | 0 <= k < |index|
      ensures TrainingRow(records, r.value, k)
    {
      RowsSpec(records, index[k]);
    }
  }

  /** Row `k` of the training set is the feature row of record `index[k]`, and its
      label is that record's severity class. */
  predicate TrainingRow(records: seq<AccidentRecord>, t: TrainingSet, k: nat)
    requires k < |t.index| == |t.features| == |t.labels|
  {
    var i := t.index[k];
    && i < |records|
    && FeatureOf(records[i], t.features[k], HourMedian(ParsedHours(records)), t.locations, t.weathers, t.roads)
    && t.labels[k] == SeverityOfCell(records[i].casualties)
  }
}
