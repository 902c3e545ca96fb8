# Ghat-road accident severity and risk pipeline — a Dafny model

The system estimates how severe an accident on a mountain ("ghat") road would be, and how risky a trip is. It has three parts, and the model covers the logic of each:

- **Training script** (`train_model.py`). It buckets casualty counts into three severity classes and parses each record's time into an hour of the day. It fills missing hours with the median and label-encodes the location, weather and road-condition columns. It assembles the five-column feature table, then drops incomplete rows from the features and the targets together.
- **Severity web app** (`app.py`):
  - shortens location names to their first capitalised word;
  - builds the table of the first ten ghat roads and decorates each entry in place with a description, an image name and a short name;
  - answers a prediction request: it reads the form, normalises the time (with random offsets), falls back to a default for unseen categories, and jitters the vehicle count;
  - encodes the features in the training order and looks up the severity label;
  - computes a slope and a radius from the road's coordinates;
  - on the dashboard, counts accidents in four left-closed six-hour bins.
- **Risk web app** (`web_app/app.py`). Its predictor turns a form into a one-row table and label-encodes each text column with a fresh encoder. It reads a probability from the classifier and chooses a risk tier and a notification from it.

The trained classifier, the scaler, `float()` and every random draw are parameters. The model reasons about the logic around them, not about the numerics inside them.

Modules:

| module | file | models |
|---|---|---|
| `Wrappers` | `wrappers.dfy` | `Option` and `Result` with failure propagation |
| `Text` | `text.dfy` | `str.split()`, `str.capitalize()`, `int()` on strings with the whitespace `int()` skips around a literal, `str(n)`, and Python's string order |
| `Vocabulary` | `vocabulary.dfy` | `LabelEncoder.fit` / `transform` / `fit_transform`, and `validate_input` |
| `Severity` | `severity.dfy` | `categorize_severity` and the class-to-label dictionary |
| `TimeParsing` | `time_parsing.dfy` | `strptime(s, '%I:%M:%S %p')`, both `convert_time` functions, and Python's float `%` |
| `Statistics` | `statistics.dfy` | `Series.median()` on integer values |
| `Geometry` | `geometry.dfy` | `calculate_dynamic_slope_radius`, `shorten_location_name`, the `ghat_roads` table and its start-up decoration loop (an in-place `array` update) |
| `Training` | `training.dfy` | the training script from the severity column to the empty-data guard, as a method |
| `Serving` | `serving.dfy` | the `predict` handler, and the dashboard's hour bins and counts |
| `RiskApp` | `riskapp.dfy` | the `predictor` handler of the risk web app |

The code, not any documentation, decides the following behaviours:

- **Time formats.** Only `%I:%M:%S %p` is tried; there is no 24-hour `HH:MM` format. An absent or unparsable time in the severity app gives a *random* hour, not a fixed one.
- **Randomness.** A parsed time is offset by a random amount. The model makes every draw an explicit parameter, so `Serving.Predict` is deterministic in its arguments.
- **The `%` slip.** Because `%` binds tighter than `+` (app.py:97), the serving hour can reach 24 or more. Such a row then falls outside every dashboard bin. The model keeps this behaviour. `TimeParsing.ServingHourPastMidnight` and `Serving.LateRowNotCharted` exhibit it on concrete inputs.
- **Unknown locations.** A location with no coordinates uses latitude and longitude (0, 0). That gives slope 5 and radius 30, not fixed constants of its own.
- **Feature vector.** The vector has exactly five entries, with no slope or radius.
- **Errors.** An empty vocabulary, a non-integer vehicle count or an unknown class becomes an error result of the handler, the text it renders as `Error: …`.
- **Vocabulary order.** The vocabulary is sorted (`sorted(set(column))` for a column of strings), not kept in insertion order.
- **Empty table.** In the training script, fitting the scaler (train_model.py:74) already fails on an empty table, one line before the explicit guard (train_model.py:77-79). Either way the script stops before the split. The model has one `NoData` outcome for both.

## Model

| member | source | states |
|---|---|---|
| Text.Split | app.py:60 | every word `split()` returns is non-empty and free of whitespace |
| Text.SplitKeepsText | app.py:60 | concatenating the words of `split()` gives exactly the string's non-whitespace characters, in order |
| Text.SplitNonEmpty | app.py:60 | `split()` yields at least one word if and only if the string has a non-whitespace character, so `split()[0]` raises exactly on blank strings |
| Text.FirstWordOfSplit | app.py:60 | the first word of `split()` is the run of non-whitespace characters after the leading whitespace |
| Text.SplitOfWord | app.py:60 | a non-empty string without whitespace splits into itself |
| Text.CapitalizeShape | app.py:60 | `capitalize()` keeps the length, yields a capitalised string, and keeps a whitespace-free string whitespace-free |
| Text.CapitalizeFixesCapitalized | app.py:60 | `capitalize()` leaves an already capitalised string unchanged |
| Text.Capitalize | app.py:60 | `capitalize()`; stated by `Text.CapitalizeShape` and `Text.CapitalizeFixesCapitalized` |
| Text.NatToStringRoundTrip | app.py:191 | the decimal digits `str(n)` writes denote `n` |
| Text.ParseSignedOfDigits | app.py:191 | `int()` reads a plain digit string as the number it denotes |
| Text.ParseSignedOfNegative | app.py:191 | `int()` reads a minus sign followed by digits as the negated number |
| Text.ParseIntRoundTrip | app.py:191 | `int(str(i)) == i` for every integer `i` |
| Text.ParseInt | app.py:191 | `int()` on a string; stated by `Text.ParseIntRoundTrip`, `Text.ParseIntRejectsSeparator`, `Text.ParseIntSeparatorExample` and `Text.ParseIntStripsUnicodeSpace` |
| Text.ParseIntRejectsSeparator | app.py:191 | a leading `\x1c`–`\x1f` separator is whitespace to `str.isspace()` but makes `int()` fail, whether or not the text holds a non-ASCII character |
| Text.ParseIntSeparatorExample | app.py:191 | `int("\x1c5\xa0")` fails: the non-ASCII space is stripped, the ASCII separator is not |
| Text.ParseIntStripsUnicodeSpace | app.py:191 | ASCII whitespace (space, `\t` to `\r`) and non-ASCII `str.isspace()` characters around a literal are stripped, and the literal is read |
| Text.SignedLiteralSpaceFree | app.py:191 | a literal `int()` reads is non-empty and holds no whitespace |
| Text.BelowIrreflexive | train_model.py:59-61 | no string sorts before itself in the order the encoder's classes are sorted in |
| Text.BelowTransitive | train_model.py:59-61 | that order is transitive |
| Text.BelowTotal | train_model.py:59-61 | any two different strings are ordered one way or the other |
| Text.BelowAsymmetric | train_model.py:59-61 | no two strings sort before each other |
| Vocabulary.Insert | train_model.py:59-61 | adding a value to an ascending vocabulary keeps it ascending, with exactly the old values and the new one |
| Vocabulary.Fit | train_model.py:59-61 | `classes_` is strictly ascending (so has no duplicates) and holds exactly the values of the column |
| Vocabulary.SortedUnique | train_model.py:59-61 | two strictly ascending sequences with the same values are equal |
| Vocabulary.FitIsCanonical | train_model.py:59-61 | the fitted vocabulary depends only on which values occur, not on their order or repetition |
| Vocabulary.Encode | app.py:199-201 | `transform([v])[0]` succeeds if and only if `v` is a class; then the code is below the number of classes and indexes `v`; otherwise the error names `v` |
| Vocabulary.ValidateInput | app.py:101-104 | `validate_input`; stated by `Vocabulary.ValidateInputCases` and `Vocabulary.ValidateInputClosed` |
| Vocabulary.FitTransform | train_model.py:59-61 | `fit_transform` keeps the column's length, and each code is a valid index of the fitted classes holding that row's value |
| Vocabulary.FitTransformDistinct | train_model.py:59-61 | two rows get the same code if and only if they hold the same value |
| Vocabulary.CodeIsRank | train_model.py:59-61 | a value's code is the number of distinct column values sorting before it |
| Vocabulary.ValidateInputCases | app.py:101-104 | a known value passes unchanged; an absent or unknown value becomes the default |
| Vocabulary.ValidateInputClosed | app.py:101-104 | with a default taken from the classes, the result is always a class and can be encoded, and validating twice equals validating once |
| Vocabulary.SingleValueEncodesToZero | web_app/app.py:141-142 | an encoder fitted on one value has exactly that class, with code 0 |
| Severity.SeverityClass | train_model.py:32-38 | the severity class is 0, 1 or 2 for every integer count |
| Severity.SeverityBands | train_model.py:32-38 | class 0 if and only if at most 2 casualties, class 1 if and only if 3 to 6, class 2 if and only if 7 or more |
| Severity.SeverityMonotone | train_model.py:32-38 | more casualties never give a lower class |
| Severity.SeverityBoundaries | train_model.py:32-38 | 2 gives 0, 3 gives 1, 6 gives 1, 7 gives 2 |
| Severity.SeverityLabel | app.py:211-212 | the label dictionary; stated by `Severity.SeverityLabelDomain` and `Severity.TrainingClassesHaveLabels` |
| Severity.SeverityLabelDomain | app.py:211-212 | the label dictionary has an entry for exactly the classes 0, 1 and 2, and its three labels differ |
| Severity.TrainingClassesHaveLabels | app.py:211-212 | every class the training target can take has a label, and the label names the casualty band of the count |
| TimeParsing.LeadingDigits | train_model.py:46 | the digit run at the start of a string is all digits and is followed by a non-digit or the end |
| TimeParsing.ParseClock | train_model.py:46 | every time `strptime(s, '%I:%M:%S %p')` accepts has clock hour 1–12, minute below 60 and second below 60 |
| TimeParsing.Hour24 | train_model.py:47 | the 24-hour `hour` of a parsed time lies in [0, 23], and is 12 or more exactly for PM times |
| TimeParsing.Hour24Injective | train_model.py:47 | different clock hours or meridiems never give the same 24-hour hour |
| TimeParsing.Hour24Onto | train_model.py:47 | every hour in [0, 23] is the 24-hour hour of some valid clock time |
| TimeParsing.FieldOfPad2 | train_model.py:46 | a two-digit field followed by a non-digit reads back as its value |
| TimeParsing.ParseFormatRoundTrip | train_model.py:46 | every valid time written as `HH:MM:SS AM/PM` parses back to itself |
| TimeParsing.FormatExample | train_model.py:46 | 2:15:00 PM is written `02:15:00 PM` |
| TimeParsing.AfternoonExample | train_model.py:46-47 | `02:15:00 PM` parses to hour 14 |
| TimeParsing.TrainingHour | train_model.py:44-49 | the training `convert_time` gives an hour exactly when the string parses, and that hour lies in [0, 23] |
| TimeParsing.FloatMod24 | app.py:97 | in exact arithmetic, Python's `u % 24` lies in [0, 24) and differs from `u` by a whole multiple of 24 |
| TimeParsing.FloatMod24OfOffset | app.py:97 | for an offset in [-2, 2], `u % 24` is `u` when `u` is non-negative and `u + 24` otherwise |
| TimeParsing.ServingHour | app.py:92-99 | the serving `convert_time`; stated by `TimeParsing.ServingHourFallback`, `TimeParsing.ServingHourParsed` and `TimeParsing.ServingHourRange` |
| TimeParsing.ServingHourFallback | app.py:94-95 | an absent, non-string or unparsable time gives the drawn integer hour in [0, 23] |
| TimeParsing.ServingHourParsed | app.py:96-97 | a parsed time gives the training hour plus the offset taken modulo 24: at least that hour and less than a day above it |
| TimeParsing.ServingHourRange | app.py:92-99 | the serving hour always lies in [0, 47), and only a parsed time can reach 24 or more |
| TimeParsing.LateFormats | app.py:97 | 11 PM and 1 AM are written `11:00:00 PM` and `01:00:00 AM` |
| TimeParsing.ServingHourPastMidnight | app.py:97 | `11:00:00 PM` with offset +1, and `01:00:00 AM` with offset −1, both give hour 24.0 |
| Statistics.InsertAscending | train_model.py:52 | inserting into an ascending sequence keeps it ascending and adds exactly the one value |
| Statistics.SortAscending | train_model.py:52 | the sorted values are ascending and a permutation of the input |
| Statistics.Median | train_model.py:52 | the middle value, or the mean of the two middle values, of the sorted values; stated by `Statistics.MedianWithin`, `Statistics.MedianOfOddCount` and `Statistics.MedianOfPermutation` |
| Statistics.MedianWithin | train_model.py:52 | the median lies within any bounds of the values |
| Statistics.MedianOfOddCount | train_model.py:52 | for an odd number of values the median is one of them |
| Statistics.MedianOfPermutation | train_model.py:52 | the median does not depend on the order of the values |
| Statistics.AscendingUnique | train_model.py:52 | two ascending sequences with the same multiset of values are equal |
| Geometry.SlopeRadius | app.py:106-112 | the slope always lies in [5, 20] and the radius in [20, 100] |
| Geometry.SlopeRadiusSignFree | app.py:110-111 | the result depends on the coordinates only through their absolute values |
| Geometry.UnknownLocationShape | app.py:215-216 | the (0, 0) stand-in for a location without coordinates gives slope 5 and radius 30 |
| Geometry.SlopeRadiusMonotone | app.py:110-112 | the slope grows with both magnitudes; the radius grows with longitude and shrinks with latitude |
| Geometry.SlopeRadiusSaturates | app.py:110-112 | for any valid latitude and a longitude of at least 57 degrees, both clamps are at their maximum |
| Geometry.ShortenLocationName | app.py:59-60 | `shorten_location_name`; stated by `Geometry.ShortenLocationNameSpec`, `Geometry.ShortenLocationNameDefined` and `Geometry.ShortenLocationNameIdempotent` |
| Geometry.ShortenLocationNameSpec | app.py:59-60 | a short name exists if and only if the location has a word; it is the first word, capitalised, as long as that word and free of whitespace |
| Geometry.ShortenLocationNameDefined | app.py:59-60 | a short name exists if and only if the location has a word |
| Geometry.ShortenLocationNameIdempotent | app.py:59-60 | shortening a short name gives it back unchanged |
| Geometry.FirstIndex | app.py:68 | the position found holds the row and no earlier position does |
| Geometry.DropDuplicates | app.py:68 | `drop_duplicates()` keeps exactly the rows' values, each once, ordered by where each first occurs |
| Geometry.GhatRoadTable | app.py:68 | the `ghat_roads` table is the prefix of the deduplicated rows of length min(10, their number); a distinct row is missing from it only when the table is full and all ten of its rows first occur earlier |
| Geometry.FirstMatch | app.py:215 | the index found names the location, and no earlier road does; no index means no road does |
| Geometry.Coordinates | app.py:215 | the `next(...)` lookup with its (0, 0) default; stated by `Geometry.CoordinatesSpec` |
| Geometry.CoordinatesSpec | app.py:215 | a known location gets the coordinates of its first row; any other location gets (0, 0) |
| Geometry.FirstWordless | app.py:81-84 | the index is that of the first entry whose location has no word, or the table's length if there is none |
| Geometry.ImageName | app.py:83 | the image file name of entry `i`; `Geometry.DecoratedEntrySpec` states that entry `i` carries `road<i+1>.jpg` |
| Geometry.DecoratedEntry | app.py:82-84 | decorating an entry keeps its location and coordinates |
| Geometry.DecoratedEntrySpec | app.py:82-84 | a decorated entry carries the description at its index, the image name `road<i+1>.jpg` and the capitalised first word of its location |
| Geometry.DecoratedPrefixStep | app.py:81-84 | decorating entry `i` of a table whose first `i` entries are decorated gives the table with `i + 1` decorated |
| Geometry.DecorateGhatRoads | app.py:81-84 | the loop decorates every entry in place when every location has a word; otherwise the first wordless entry gets its description and image, and then `split()[0]` raises |
| Training.SeverityOfCell | train_model.py:40 | the target of a row is 0, 1 or 2, also for a missing count |
| Training.SeverityOfMissingCount | train_model.py:32-40 | a NaN count fails both comparisons, so its class is 2, the High label |
| Training.ParsedHours | train_model.py:51 | the hour column has one entry per record: the training hour of each time string |
| Training.Present | train_model.py:52 | the values the median looks at are exactly the non-missing hours |
| Training.PresentCounts | train_model.py:52 | each hour is kept as many times as it occurs, and only missing entries are dropped |
| Training.HourMedian | train_model.py:52 | `median()` skips missing hours; its properties are stated by `Training.HourMedianWithin` and `Training.HourMedianOfShuffle` |
| Training.HourMedianOfShuffle | train_model.py:52 | two hour columns holding the same values the same number of times have the same median |
| Training.HourMedianWithin | train_model.py:52 | the median exists exactly when some time parses, and then lies in [0, 23] |
| Training.FillMissing | train_model.py:52 | the fill keeps the column's length |
| Training.FillMissingSpec | train_model.py:52 | parsed hours are kept, missing ones become the median, and no entry is missing once the median exists |
| Training.Assemble | train_model.py:64 | row `i` of the feature table holds the filled hour, the three codes and the vehicle count of record `i` |
| Training.KeptIndices | train_model.py:68 | `dropna()` keeps exactly the complete rows, at strictly increasing positions |
| Training.SelectComplete | train_model.py:68 | the kept feature rows are the complete rows at the kept positions |
| Training.SelectLabels | train_model.py:69 | `y[X.index]` has one target per kept row: the target at that row's position |
| Training.TrainingVectorOrder | train_model.py:64 | position `i` of a training vector holds the column named `FeatureColumns[i]` |
| Training.FirstMissingTime | train_model.py:51 | the index found is the first record whose time is not a string, where `strptime` raises `TypeError` |
| Training.Rows | train_model.py:51-64 | the feature table has one row per record |
| Training.RowsSpec | train_model.py:51-68 | a row survives `dropna` exactly when its vehicle count is present and its hour parsed or was filled; a surviving row holds the record's parsed hour or the median, the record's three codes and its count |
| Training.PrepareTrainingData | train_model.py:40-79 | the script aborts at the first record whose time is not a string, and stops on an empty table; otherwise features and targets are aligned and non-empty, the vocabularies are the fits of the columns, and row `k` is the feature row of the `k`-th kept record with its severity class |
| Serving.JitterSpec | app.py:204-205 | when the coin fires, the vehicle count ends in [1, 5], one step at most from a count already in [1, 5]; otherwise it is unchanged |
| Serving.JitterMonotone | app.py:204-205 | more vehicles in never give fewer vehicles out |
| Serving.Jitter | app.py:204-205 | the vehicle-count adjustment; stated by `Serving.JitterSpec` and `Serving.JitterMonotone` |
| Serving.ServingVector | app.py:207 | the five-value feature row; stated by `Serving.ServingMatchesTraining` |
| Serving.ServingMatchesTraining | app.py:207 | the serving vector is the training vector of the same five values, so position `i` holds column `FeatureColumns[i]` |
| Serving.Validated | app.py:195-197 | each validated value is a member of its vocabulary |
| Serving.VehicleCount | app.py:191 | `int(request.form.get('vehicles', 1))`: 1 for an absent field, else `Text.ParseInt` of the text; `Serving.Predict` states that a `None` here is the request's error |
| Serving.ServingFeatures | app.py:193-207 | the vector handed to the scaler; its contents are stated through `Serving.ServingMatchesTraining`, `Serving.PredictInputs` and `Serving.Predict` |
| Serving.Predict | app.py:187-220 | the request fails with a bad vehicle count exactly when `int()` rejects the field, and with an empty vocabulary exactly when the count is good and a vocabulary is empty; otherwise, with `k` the class the classifier returns on the scaled serving features, it succeeds exactly when `k` has a label, shows that label and the slope and radius of the location's coordinates, and on failure names `k` |
| Serving.PredictInputs | app.py:195-201 | every code reaching the classifier is a valid index of its vocabulary; the location is the submitted one when known and the first class otherwise |
| Serving.PredictResultShape | app.py:211-216 | every successful prediction shows one of the three labels, for a class in 0..2, with slope in [5, 20] and radius in [20, 100] |
| Serving.TimeBinSpec | app.py:233 | an hour falls in a period's bin exactly when it lies in `[start, start + 6)`; exactly the hours in [0, 24) fall in a bin |
| Serving.TimeBin | app.py:233 | the `pd.cut` bin with `right=False`; stated by `Serving.TimeBinSpec` |
| Serving.DashboardHours | app.py:232 | the dashboard's hour column has one entry per row |
| Serving.TimeAccidentsPartition | app.py:233-234 | the four period counts plus the rows outside every bin add up to the number of rows |
| Serving.TimeAccidents | app.py:234 | the per-period counts; stated by `Serving.TimeAccidentsPartition` and `Serving.LateRowNotCharted` |
| Serving.LateRowHour | app.py:232 | a row at `11:00:00 PM` with offset +1 gets hour 24 |
| Serving.LateRowNotCharted | app.py:232-234 | that row is counted in no period |
| RiskApp.Field | web_app/app.py:127 | `request.form[name]` succeeds exactly when the field is present, giving its value; otherwise the error names the field |
| RiskApp.IntField | web_app/app.py:130 | `int(request.form[name])` succeeds exactly when the field is present and parses, giving the parsed value |
| RiskApp.FloatField | web_app/app.py:131 | `float(request.form[name])` succeeds exactly when the field is present and converts, giving the converted value |
| RiskApp.ReadForm | web_app/app.py:126-139 | a read form holds the submitted text fields and the parsed numeric fields |
| RiskApp.ReadFormDefined | web_app/app.py:126-139 | the form is read exactly when all ten fields are present and the five numeric ones parse |
| RiskApp.InputData | web_app/app.py:126-139 | the `input_data` row; stated by `RiskApp.InputDataSpec` |
| RiskApp.InputDataSpec | web_app/app.py:126-139 | the row has all twelve columns; the road type is always `Kolli Ghat Road` and the number of vehicles always 5; every other column holds the submitted value |
| RiskApp.CategoricalColumnsDistinct | web_app/app.py:141 | the six encoded columns are distinct |
| RiskApp.InputDataCategoricalsAreText | web_app/app.py:126-141 | every column the loop encodes holds text |
| RiskApp.EncodeCategoricals | web_app/app.py:141-142 | after the loop every categorical column holds code 0 and every other column is unchanged |
| RiskApp.CategoricalFieldsIgnored | web_app/app.py:141-143 | two forms that agree on the numeric fields give the classifier the same row, whatever their text fields |
| RiskApp.RiskTierBands | web_app/app.py:144 | High exactly above 0.7, Medium exactly in (0.3, 0.7], Low exactly at 0.3 or below |
| RiskApp.RiskTierMonotone | web_app/app.py:144 | a higher probability never gives a lower tier |
| RiskApp.RiskTier | web_app/app.py:144 | the tier thresholds; stated by `RiskApp.RiskTierBands` and `RiskApp.RiskTierMonotone` |
| RiskApp.Notification | web_app/app.py:145-149 | the notification text; stated by `RiskApp.NotificationSpec` |
| RiskApp.NotificationSpec | web_app/app.py:145-149 | a notification is set exactly above 0.3; the CAUTION text exactly for the High tier, the MENACE text exactly for the Medium tier |
| RiskApp.Predictor | web_app/app.py:125-149 | the request fails exactly when the form cannot be read, with that error; otherwise the probability is the classifier's on the encoded row, and the tier and notification are those the thresholds choose |

## Left out

- I/O:
  - reading the CSV files;
  - loading and saving the joblib artifacts;
  - `exit(1)` and the printed messages;
  - template rendering.

  The scripts' data enter as parameters, and the handlers' outcomes are result values.
- Flask routing, sessions, login, registration, password reset and the databases: these are web and persistence plumbing outside the pipeline.
- `StandardScaler`, `RandomForestClassifier`, `train_test_split` and `accuracy_score` are library numerics. The scaler and classifier are uninterpreted function parameters. The split and its failure on a one-row table are not modelled.
- The random sources (`random.randint`, `random.uniform`, `random.random`) are parameters with range preconditions.
- Floating point: hours, probabilities, slopes and radii are exact reals. Rounding is not modelled, and neither is the `{prob*100:.1f}%` text of the risk page.
- TimeParsing.FloatMod24: holds in exact arithmetic. For a float a tiny negative `u` rounds `u % 24` up to 24.0, which the model does not capture.
- `float()` on a string is a parameter.
- Text.ParseInt: reads ASCII digits only. `int()` also accepts other Unicode decimal digits, which are left out. So is its limit of 4300 digits, beyond which it raises `ValueError`; the vehicle and form fields are short texts.
- TimeParsing.ParseClock: the `%M` and `%S` fields read ASCII digits only, while `strptime`'s `\d` also matches other Unicode decimal digits.
- Non-ASCII case mapping in `capitalize()` is left out; only ASCII letters change case.
- A NaN in a categorical column of the training data is not modelled: the encoder would give it a class of its own, after every string, and the vocabularies here hold strings only. A NaN time is modelled as the script's abort.
- The description texts at app.py:69-80 are a parameter of the decoration loop.
- The dashboard's other charts and groupbys, its synthetic causes, and the `Short_Location` column of the data (app.py:63-65, 229, 236-247) are plotting data and random. Line 63 does matter at start-up: it applies `shorten_location_name` to every location in the dataset, so a location with no word stops the app before the decoration loop at lines 81-84 runs. Geometry.DecorateGhatRoads: its branch where `split()[0]` raises therefore cannot be reached in the program as written, since the table's locations come from the same dataset; the model keeps it, because the loop on its own admits that input. `locations_shortened` (app.py:88) is another application of `shorten_location_name`, which is modelled.
- In the risk app, `request.form[...]` on a missing field makes Flask answer 400, and a failing `int()` or `float()` raises. Both are a `FormError`; the HTTP status is not modelled.
- Exception message texts are abstracted to error kinds.
- Training.FillMissing: the model assumes pandas before 3.0. `data['Hour'].fillna(..., inplace=True)` (train_model.py:52) is a chained in-place call, which changes `data` only while Copy-on-Write is off. Under pandas 3.0 the missing hours stay NaN and `dropna()` then drops those rows; the script pins no pandas version.
- Training.PrepareTrainingData: hours are modelled as values of the Hour column, without the pandas index labels; positions stand in for index labels, since the script's index is the default `RangeIndex`.
