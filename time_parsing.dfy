/** Hour-of-day extraction from the dataset's and the form's time strings.
    Both sides parse with `datetime.strptime(s, '%I:%M:%S %p')`; the training
    script turns a failure into a missing value, the web app into a random hour
    and adds a random offset to a successful parse. The random draws are
    parameters here. */
module TimeParsing {
  import opened Wrappers
  import opened Text

  /** What `%I:%M:%S %p` reads: the 12-hour clock hour, minute, second and the
      meridiem marker. */
  datatype ClockTime = ClockTime(hour12: int, minute: int, second: int, pm: bool)

  /** The values `datetime.strptime` accepts for the fields. */
  predicate ValidClock(c: ClockTime) {
    1 <= c.hour12 <= 12 && 0 <= c.minute <= 59 && 0 <= c.second <= 59
  }

  /** Length of the run of ASCII digits at the start of `s`. */
  function LeadingDigits(s: string): (k: nat)
    ensures k <= |s| && AllDigits(s[..k])
    ensures k < |s| ==> !IsDigit(s[k])
  {
    if s != [] && IsDigit(s[0]) then 1 + LeadingDigits(s[1..]) else 0
  }

  /** Length of the run of whitespace at the start of `s` (the `\s+` that a space
      in the format stands for). */
  function LeadingSpaces(s: string): (k: nat)
    ensures k <= |s| && forall i :: 0 <= i < k ==> IsSpace(s[i])
    ensures k < |s| ==> !IsSpace(s[k])
  {
    if s != [] && IsSpace(s[0]) then 1 + LeadingSpaces(s[1..]) else 0
  }

  /** `%p` in the C locale, matched regardless of case, and nothing may follow it;
      `Some(true)` for PM. */
  function Meridiem(s: string): Option<bool> {
    if |s| == 2 && (s[1] == 'm' || s[1] == 'M') then
      if s[0] == 'a' || s[0] == 'A' then Some(false)
      else if s[0] == 'p' || s[0] == 'P' then Some(true)
      else None
    else None
  }

  /** A numeric field of `%I`, `%M` or `%S`: one or two digits. Returns the value
      and what follows the field. */
  function Field(s: string): Option<(nat, string)> {
    var k := LeadingDigits(s);
    if 1 <= k <= 2 then Some((DigitsValue(s[..k]), s[k..])) else None
  }

  /** `datetime.strptime(s, '%I:%M:%S %p')`, `None` where it raises `ValueError`.
      The hour must be 1..12 and the minute 0..59 to match the pattern; a second
      of 60 or 61 matches the pattern but is then rejected by `datetime`. */
  function ParseClock(s: string): (r: Option<ClockTime>)
    ensures r.Some? ==> ValidClock(r.value)
  {
    match Field(s)
    case None => None
    case Some((hour, rest)) => AfterHour(hour, rest)
  }

  function AfterHour(hour: nat, s: string): (r: Option<ClockTime>)
    ensures r.Some? ==> ValidClock(r.value)
  {
    if s == [] || s[0] != ':' then None
    else match Field(s[1..])
      case None => None
      case Some((minute, rest)) => AfterMinute(hour, minute, rest)
  }

  function AfterMinute(hour: nat, minute: nat, s: string): (r: Option<ClockTime>)
    ensures r.Some? ==> ValidClock(r.value)
  {
    if s == [] || s[0] != ':' then None
    else match Field(s[1..])
      case None => None
      case Some((second, rest)) => AfterSecond(hour, minute, second, rest)
  }

  /** The whitespace, the meridiem and the range checks that follow the seconds. */
  function AfterSecond(hour: nat, minute: nat, second: nat, s: string): (r: Option<ClockTime>)
    ensures r.Some? ==> ValidClock(r.value)
  {
    var w := LeadingSpaces(s);
    var p := Meridiem(s[w..]);
    if w == 0 || p.None? then None
    else if !(1 <= hour <= 12 && minute <= 59 && second <= 59) then None
    else Some(ClockTime(hour, minute, second, p.value))
  }

  /** `time_obj.hour`: 12 AM is hour 0, 12 PM is hour 12. */
  function Hour24(c: ClockTime): (h: int)
    requires ValidClock(c)
    ensures 0 <= h <= 23
    ensures h >= 12 <==> c.pm
  {
    if c.pm then (if c.hour12 == 12 then 12 else c.hour12 + 12)
    else (if c.hour12 == 12 then 0 else c.hour12)
  }

  /** Each hour of the day is reached by exactly one (clock hour, meridiem) pair. */
  lemma Hour24Injective(c1: ClockTime, c2: ClockTime)
    requires ValidClock(c1) && ValidClock(c2)
    requires Hour24(c1) == Hour24(c2)
    ensures c1.hour12 == c2.hour12 && c1.pm == c2.pm
  {
  }

  lemma Hour24Onto(h: int)
    requires 0 <= h <= 23
    ensures var c := ClockTime(if h % 12 == 0 then 12 else h % 12, 0, 0, h >= 12);
            ValidClock(c) && Hour24(c) == h
  {
  }

  function Pad2(n: nat): string
    requires n < 100
  {
    [DigitChar(n / 10), DigitChar(n % 10)]
  }

  /** `time.strftime('%I:%M:%S %p')`: the way the dataset writes its times. */
  function FormatClock(c: ClockTime): string
    requires ValidClock(c)
  {
    Pad2(c.hour12) + ":" + Pad2(c.minute) + ":" + Pad2(c.second) + " " + MeridiemText(c.pm)
  }

  lemma FieldOfPad2(n: nat, rest: string)
    requires n < 100 && rest != [] && !IsDigit(rest[0])
    ensures Field(Pad2(n) + rest) == Some((n, rest))
  {
    var s := Pad2(n) + rest;
    assert s[1..][1..] == rest;
    assert LeadingDigits(s) == 2;
    assert s[..2] == Pad2(n);
    assert s[..2][..1] == [DigitChar(n / 10)];
    assert s[2..] == rest;
    var p := Pad2(n);
    assert p[..|p| - 1] == [DigitChar(n / 10)];
    assert [DigitChar(n / 10)][..0] == [];
    assert DigitsValue([DigitChar(n / 10)]) == n / 10;
    assert DigitsValue(p) == n;
  }

  function MeridiemText(pm: bool): string {
    if pm then "PM" else "AM"
  }

  lemma AfterSecondOfFormat(c: ClockTime)
    requires ValidClock(c)
    ensures AfterSecond(c.hour12, c.minute, c.second, " " + MeridiemText(c.pm)) == Some(c)
  {
    var s := " " + MeridiemText(c.pm);
    assert LeadingSpaces(s) == 1;
    assert s[1..] == MeridiemText(c.pm);
  }

  lemma AfterMinuteOfFormat(c: ClockTime)
    requires ValidClock(c)
    ensures AfterMinute(c.hour12, c.minute, ":" + Pad2(c.second) + " " + MeridiemText(c.pm)) == Some(c)
  {
    var rest := " " + MeridiemText(c.pm);
    var s := ":" + Pad2(c.second) + rest;
    assert s == ":" + Pad2(c.second) + " " + MeridiemText(c.pm);
    assert s[1..] == Pad2(c.second) + rest;
    FieldOfPad2(c.second, rest);
    AfterSecondOfFormat(c);
  }

  lemma AfterHourOfFormat(c: ClockTime)
    requires ValidClock(c)
    ensures AfterHour(c.hour12, ":" + Pad2(c.minute) + ":" + Pad2(c.second) + " " + MeridiemText(c.pm)) == Some(c)
  {
    var rest := ":" + Pad2(c.second) + " " + MeridiemText(c.pm);
    var s := ":" + Pad2(c.minute) + rest;
    assert s == ":" + Pad2(c.minute) + ":" + Pad2(c.second) + " " + MeridiemText(c.pm);
    assert s[1..] == Pad2(c.minute) + rest;
    FieldOfPad2(c.minute, rest);
    AfterMinuteOfFormat(c);
  }

  /** Whatever the format writes, the parser reads back. */
  lemma ParseFormatRoundTrip(c: ClockTime)
    requires ValidClock(c)
    ensures ParseClock(FormatClock(c)) == Some(c)
  {
    var rest := ":" + Pad2(c.minute) + ":" + Pad2(c.second) + " " + MeridiemText(c.pm);
    assert FormatClock(c) == Pad2(c.hour12) + rest;
    FieldOfPad2(c.hour12, rest);
    AfterHourOfFormat(c);
  }

  lemma FormatExample()
    ensures FormatClock(ClockTime(2, 15, 0, true)) == "02:15:00 PM"
  {
  }

  /** The sample time of the dataset's documentation reads as 14 o'clock. */
  lemma AfternoonExample()
    ensures ParseClock("02:15:00 PM") == Some(ClockTime(2, 15, 0, true))
    ensures Hour24(ClockTime(2, 15, 0, true)) == 14
  {
    ParseFormatRoundTrip(ClockTime(2, 15, 0, true));
    FormatExample();
  }

  /** The training script's `convert_time`: the hour, or `None` for the NaN it
      returns when `strptime` raises `ValueError`. No randomness. */
  function TrainingHour(s: string): (h: Option<int>)
    ensures h.Some? <==> ParseClock(s).Some?
    ensures h.Some? ==> 0 <= h.value <= 23
  {
    match ParseClock(s)
    case None => None
    case Some(c) => Some(Hour24(c))
  }

  /** Python's `u % 24` on floats: the result takes the sign of the divisor. */
  function FloatMod24(u: real): (r: real)
    ensures 0.0 <= r < 24.0
    ensures (u - r) / 24.0 == ((u - r) / 24.0).Floor as real
  {
    u - 24.0 * ((u / 24.0).Floor as real)
  }

  /** On the range `random.uniform(-2, 2)` draws from, the remainder is the offset
      itself or the offset plus 24. */
  lemma FloatMod24OfOffset(u: real)
    requires -2.0 <= u <= 2.0
    ensures FloatMod24(u) == if u >= 0.0 then u else u + 24.0
  {
    if u >= 0.0 {
      assert (u / 24.0).Floor == 0;
    } else {
      assert (u / 24.0).Floor == -1;
    }
  }

  /** The random draws of one `convert_time` call: `random.randint(0, 23)` used on
      the fallback path and `random.uniform(-2, 2)` used after a successful parse. */
  datatype TimeDraw = TimeDraw(fallbackHour: int, offset: real)

  predicate ValidTimeDraw(d: TimeDraw) {
    0 <= d.fallbackHour <= 23 && -2.0 <= d.offset <= 2.0
  }

  /** The web app's `convert_time`. `None` stands for both `None` and a value that
      is not a string (a NaN cell of the dataset). The parsed branch computes
      `hour + (offset % 24)`: `%` binds tighter than `+`. */
  function ServingHour(time: Option<string>, d: TimeDraw): real
    requires ValidTimeDraw(d)
  {
    if time.None? then d.fallbackHour as real
    else match ParseClock(time.value)
      case None => d.fallbackHour as real
      case Some(c) => Hour24(c) as real + FloatMod24(d.offset)
  }

  /** Absent, non-string and unparsable times all yield the drawn integer hour in [0, 23]. */
  lemma ServingHourFallback(time: Option<string>, d: TimeDraw)
    requires ValidTimeDraw(d)
    requires time.None? || ParseClock(time.value).None?
    ensures ServingHour(time, d) == d.fallbackHour as real
    ensures 0.0 <= ServingHour(time, d) <= 23.0
  {
  }

  /** A parsed time yields the parsed hour plus the offset taken modulo 24: never
      below the hour the training side reads from the same string, and up to a
      day above it. */
  lemma ServingHourParsed(s: string, d: TimeDraw)
    requires ValidTimeDraw(d) && ParseClock(s).Some?
    ensures var h := TrainingHour(s).value as real;
            && ServingHour(Some(s), d) == (if d.offset >= 0.0 then h + d.offset else h + d.offset + 24.0)
            && h <= ServingHour(Some(s), d) < h + 24.0
  {
    FloatMod24OfOffset(d.offset);
  }

  /** Every result lies in [0, 47); only a parsed time can reach 24 or more. */
  lemma ServingHourRange(time: Option<string>, d: TimeDraw)
    requires ValidTimeDraw(d)
    ensures 0.0 <= ServingHour(time, d) < 47.0
    ensures ServingHour(time, d) >= 24.0 ==> time.Some? && ParseClock(time.value).Some?
  {
    if time.Some? && ParseClock(time.value).Some? {
      FloatMod24OfOffset(d.offset);
    }
  }

  lemma LateFormats()
    ensures FormatClock(ClockTime(11, 0, 0, true)) == "11:00:00 PM"
    ensures FormatClock(ClockTime(1, 0, 0, false)) == "01:00:00 AM"
  {
  }

  /** Concrete inputs for which the web app's hour is not an hour of the day: 11 PM
      with a positive offset, and 1 AM with a negative one. */
  lemma ServingHourPastMidnight()
    ensures ServingHour(Some("11:00:00 PM"), TimeDraw(0, 1.0)) == 24.0
    ensures ServingHour(Some("01:00:00 AM"), TimeDraw(0, -1.0)) == 24.0
  {
    LateFormats();
    ParseFormatRoundTrip(ClockTime(11, 0, 0, true));
    ParseFormatRoundTrip(ClockTime(1, 0, 0, false));
    ServingHourParsed("11:00:00 PM", TimeDraw(0, 1.0));
    ServingHourParsed("01:00:00 AM", TimeDraw(0, -1.0));
  }
}
