/**
 * Time-of-day values, durations and timestamps of the server (src/time.rs).
 *
 * A `HourMinute` can only be built through `NewHourMinute` or `Deserialize`, so every value
 * of the type is in range; the subset type records that. Timestamps are whole seconds.
 * Local dates are day numbers; `FromDateHm` is a fixed injective map from a date and a time
 * of day to a timestamp (a local zone with a constant offset of zero).
 */
module Time {
  import opened Wrappers
  import opened Text

  datatype HourMinuteFields = HourMinuteFields(hour: nat, minute: nat)

  type HourMinute = hm: HourMinuteFields | hm.hour <= 23 && hm.minute <= 59
    witness HourMinuteFields(0, 0)

  /** `HourMinute::new`: range-checked construction. */
  function NewHourMinute(hour: nat, minute: nat): (r: Option<HourMinute>)
    ensures r.Some? <==> hour <= 23 && minute <= 59
    ensures r.Some? ==> r.value.hour == hour && r.value.minute == minute
  {
    if hour <= 23 && minute <= 59 then Some(HourMinuteFields(hour, minute)) else None
  }

  /** The serialized form, `format!("{:02}:{:02}", hour, minute)`. */
  function Serialize(hm: HourMinute): (s: string)
    ensures |s| == 5 && s[2] == ':'
    ensures AllDigits(s[..2]) && AllDigits(s[3..])
    ensures DigitsValue(s[..2]) == hm.hour && DigitsValue(s[3..]) == hm.minute
  {
    var s := Pad2(hm.hour) + ":" + Pad2(hm.minute);
    assert s[..2] == Pad2(hm.hour) && s[3..] == Pad2(hm.minute);
    s
  }

  datatype TimeError = OutOfRange(text: string) | ParseFailure(text: string)

  /** The custom deserializer error messages. */
  function ErrorMessage(e: TimeError): string
  {
    match e
    case OutOfRange(text) => "Time is out of range: '" + text + "'"
    case ParseFailure(text) => "Failed to parse time from string: '" + text + "'"
  }

  /** Matches `^(\d?\d):(\d\d)$` with ASCII digits: one or two digits, a colon, two digits. */
  predicate WellShaped(s: string)
  {
    && (|s| == 4 || |s| == 5)
    && s[|s| - 3] == ':'
    && AllDigits(s[..|s| - 3])
    && AllDigits(s[|s| - 2..])
  }

  /** The `Deserialize` implementation for `HourMinute`. */
  function Deserialize(s: string): (r: Result<HourMinute, TimeError>)
    ensures r.Ok? ==> WellShaped(s)
    ensures r.Ok? ==> r.value.hour == DigitsValue(s[..|s| - 3]) && r.value.minute == DigitsValue(s[|s| - 2..])
    ensures r == Err(ParseFailure(s)) <==> !WellShaped(s)
    ensures r == Err(OutOfRange(s)) <==>
              WellShaped(s) && (DigitsValue(s[..|s| - 3]) > 23 || DigitsValue(s[|s| - 2..]) > 59)
    ensures r.Err? ==> r.error.text == s
  {
    if WellShaped(s) then
      match NewHourMinute(DigitsValue(s[..|s| - 3]), DigitsValue(s[|s| - 2..]))
      case Some(hm) => Ok(hm)
      case None => Err(OutOfRange(s))
    else
      Err(ParseFailure(s))
  }

  /**
   * The text a failed `Deserialize` reports: a string of the right shape whose hour or minute is
   * too large is out of range, and any other string failed to parse.
   */
  lemma {:induction false} DeserializeErrorMessage(s: string)
    requires Deserialize(s).Err?
    ensures WellShaped(s) ==> ErrorMessage(Deserialize(s).error) == "Time is out of range: '" + s + "'"
    ensures !WellShaped(s) ==> ErrorMessage(Deserialize(s).error) == "Failed to parse time from string: '" + s + "'"
  {
  }

  lemma Pad2OfDigits(t: string)
    requires |t| == 2 && AllDigits(t)
    ensures DigitsValue(t) < 100 && Pad2(DigitsValue(t)) == t
  {
    assert t[..1][..0] == [];
    assert DigitsValue(t[..1]) == DigitValue(t[0]);
    assert DigitsValue(t) == DigitValue(t[0]) * 10 + DigitValue(t[1]);
  }

  /** Deserializing a serialized time gives it back. */
  lemma {:induction false} DeserializeSerialize(hm: HourMinute)
    ensures Deserialize(Serialize(hm)) == Ok(hm)
  {
    var s := Serialize(hm);
    assert s[|s| - 3] == ':' && s[..|s| - 3] == s[..2] && s[|s| - 2..] == s[3..];
  }

  /** A five-character string that deserializes is exactly the serialized form of its value. */
  lemma {:induction false} SerializeDeserialize(s: string)
    requires |s| == 5 && Deserialize(s).Ok?
    ensures Serialize(Deserialize(s).value) == s
  {
    var hm := Deserialize(s).value;
    Pad2OfDigits(s[..2]);
    Pad2OfDigits(s[3..]);
    assert s == s[..2] + ":" + s[3..];
  }

  datatype Duration = Duration(secs: int)

  /** `Duration::from_minutes`: a whole number of minutes, held in seconds. */
  function FromMinutes(minutes: int): (d: Duration)
    ensures d.secs % 60 == 0 && d.secs / 60 == minutes
  {
    Duration(minutes * 60)
  }

  /** Seconds since the epoch; ordered by that number (the derived `Ord`). */
  datatype Timestamp = Timestamp(secs: int)

  const Zero: Timestamp := Timestamp(0)

  /** `Timestamp + Duration`. */
  function Add(t: Timestamp, d: Duration): (r: Timestamp)
    ensures r.secs > t.secs <==> d.secs > 0
    ensures r.secs - t.secs == d.secs
  {
    Timestamp(t.secs + d.secs)
  }

  type Date = int

  const SecondsPerDay: int := 86400

  /** The local date of a timestamp. */
  function GetDate(t: Timestamp): Date
  {
    t.secs / SecondsPerDay
  }

  /** `Timestamp::from_date_hm`: the timestamp of `hm` on `date`. */
  function FromDateHm(date: Date, hm: HourMinute): (t: Timestamp)
    ensures GetDate(t) == date
    ensures t.secs % SecondsPerDay == hm.hour * 3600 + hm.minute * 60
  {
    var offset := hm.hour * 3600 + hm.minute * 60;
    assert 0 <= offset < SecondsPerDay;
    var t := Timestamp(date * SecondsPerDay + offset);
    assert t.secs == date * SecondsPerDay + offset;
    t
  }

  /** `Timestamp::from_date_hm_opt`. */
  function FromDateHmOpt(date: Date, hm: Option<HourMinute>): (r: Option<Timestamp>)
    ensures r.Some? <==> hm.Some?
    ensures r.Some? ==> r.value == FromDateHm(date, hm.value)
  {
    match hm
    case Some(v) => Some(FromDateHm(date, v))
    case None => None
  }

  /** Distinct dates or times of day never share a timestamp. */
  lemma {:induction false} FromDateHmInjective(d1: Date, hm1: HourMinute, d2: Date, hm2: HourMinute)
    requires FromDateHm(d1, hm1) == FromDateHm(d2, hm2)
    ensures d1 == d2 && hm1 == hm2
  {
    var t := FromDateHm(d1, hm1);
    assert hm1.hour * 3600 + hm1.minute * 60 == hm2.hour * 3600 + hm2.minute * 60;
  }

  /** On one date, a later time of day gives a later timestamp. */
  lemma {:induction false} FromDateHmMonotone(date: Date, hm1: HourMinute, hm2: HourMinute)
    requires hm1.hour < hm2.hour || (hm1.hour == hm2.hour && hm1.minute < hm2.minute)
    ensures FromDateHm(date, hm1).secs < FromDateHm(date, hm2).secs
  {
    if hm1.hour < hm2.hour {
      assert hm1.hour * 3600 + 3600 <= hm2.hour * 3600;
    }
  }
}
