/**
 * The pure half of `updateTime` (script.js:28-69): picking the hour, minute,
 * second and day period out of the host formatter's parts, converting to
 * 12-hour time, choosing the meridiem and padding the three numbers.
 *
 * The host formatter itself (`Intl.DateTimeFormat(...).formatToParts(now)`)
 * is not modelled: its output is an input here, a sequence of parts whose
 * numeric values have already been read by `parseInt`.
 */
module TimeFormat {
  import opened Results
  import opened Decimal

  datatype NumericField = Hour | Minute | Second

  /**
   * One part of the formatter's output: an hour, minute or second part with
   * its parsed value, a `dayPeriod` part with its label, or any other part
   * (separators, time zone names, ...), which the clock ignores.
   */
  datatype Part =
    | Numeric(field: NumericField, value: nat)
    | DayPeriod(period: string)
    | Literal(text: string)

  /**
   * The locals `hour`, `minute`, `second` and `amPm` once the `forEach` over
   * the parts has run; `None` stands for `undefined`.
   */
  datatype Fields = Fields(hour: Option<nat>, minute: Option<nat>, second: Option<nat>, amPm: string)

  /** The three padded numbers and the meridiem label written to the page. */
  datatype Rendered = Rendered(hours: string, minutes: string, seconds: string, amPm: string)

  /** `padNumber(undefined)` calls `toString` on `undefined`, which throws. */
  datatype FormatError = TypeError

  predicate IsField(p: Part, f: NumericField) {
    p.Numeric? && p.field == f
  }

  /** The value of the last part of kind `f`, or `None` when there is none. */
  function LastValue(parts: seq<Part>, f: NumericField): Option<nat> {
    if parts == [] then None
    else if IsField(parts[|parts| - 1], f) then Some(parts[|parts| - 1].value)
    else LastValue(parts[..|parts| - 1], f)
  }

  /** The label of the last `dayPeriod` part, or "" when there is none. */
  function LastDayPeriod(parts: seq<Part>): string {
    if parts == [] then ""
    else if parts[|parts| - 1].DayPeriod? then parts[|parts| - 1].period
    else LastDayPeriod(parts[..|parts| - 1])
  }

  /**
   * What the `forEach` at script.js:43-48 leaves in the four locals: a field
   * is `undefined` exactly when no part of its kind is present, and otherwise
   * holds a value that some part of its kind carries; `amPm` stays "" unless
   * a `dayPeriod` part supplied it.
   */
  function Extract(parts: seq<Part>): (f: Fields)
    ensures f.hour.None? <==> forall i :: 0 <= i < |parts| ==> !IsField(parts[i], Hour)
    ensures f.minute.None? <==> forall i :: 0 <= i < |parts| ==> !IsField(parts[i], Minute)
    ensures f.second.None? <==> forall i :: 0 <= i < |parts| ==> !IsField(parts[i], Second)
    ensures f.hour.Some? ==> Numeric(Hour, f.hour.value) in parts
    ensures f.minute.Some? ==> Numeric(Minute, f.minute.value) in parts
    ensures f.second.Some? ==> Numeric(Second, f.second.value) in parts
    ensures (forall i :: 0 <= i < |parts| ==> !parts[i].DayPeriod?) ==> f.amPm == ""
    ensures f.amPm != "" ==> DayPeriod(f.amPm) in parts
  {
    LastValueWins(parts, Hour);
    LastValueWins(parts, Minute);
    LastValueWins(parts, Second);
    LastDayPeriodWins(parts);
    Fields(LastValue(parts, Hour), LastValue(parts, Minute), LastValue(parts, Second), LastDayPeriod(parts))
  }

  /**
   * A field is `undefined` exactly when no part of its kind is present, and
   * otherwise it holds the value of the last such part: a later part
   * overwrites an earlier one.
   */
  lemma {:induction false} LastValueWins(parts: seq<Part>, f: NumericField)
    ensures LastValue(parts, f).None? <==> forall i :: 0 <= i < |parts| ==> !IsField(parts[i], f)
    ensures forall i :: 0 <= i < |parts| && IsField(parts[i], f) &&
                        (forall j :: i < j < |parts| ==> !IsField(parts[j], f))
                     ==> LastValue(parts, f) == Some(parts[i].value)
    ensures LastValue(parts, f).Some? ==> Numeric(f, LastValue(parts, f).value) in parts
  {
    if parts != [] {
      var init := parts[..|parts| - 1];
      LastValueWins(init, f);
      assert forall i :: 0 <= i < |init| ==> init[i] == parts[i];
    }
  }

  /**
   * `amPm` stays "" when no `dayPeriod` part is present, and otherwise holds
   * the label of the last one.
   */
  lemma {:induction false} LastDayPeriodWins(parts: seq<Part>)
    ensures (forall i :: 0 <= i < |parts| ==> !parts[i].DayPeriod?) ==> LastDayPeriod(parts) == ""
    ensures forall i :: 0 <= i < |parts| && parts[i].DayPeriod? &&
                        (forall j :: i < j < |parts| ==> !parts[j].DayPeriod?)
                     ==> LastDayPeriod(parts) == parts[i].period
    ensures LastDayPeriod(parts) != "" ==> DayPeriod(LastDayPeriod(parts)) in parts
  {
    if parts != [] {
      var init := parts[..|parts| - 1];
      LastDayPeriodWins(init);
      assert forall i :: 0 <= i < |init| ==> init[i] == parts[i];
    }
  }

  /** The `forEach` at script.js:41-48, one part at a time. */
  method ExtractFields(parts: seq<Part>) returns (fields: Fields)
    ensures fields == Extract(parts)
  {
    var hour: Option<nat>, minute: Option<nat>, second: Option<nat>, amPm := None, None, None, "";
    var i := 0;
    while i < |parts|
      invariant 0 <= i <= |parts|
      invariant hour == LastValue(parts[..i], Hour)
      invariant minute == LastValue(parts[..i], Minute)
      invariant second == LastValue(parts[..i], Second)
      invariant amPm == LastDayPeriod(parts[..i])
    {
      var part := parts[i];
      if IsField(part, Hour) { hour := Some(part.value); }
      if IsField(part, Minute) { minute := Some(part.value); }
      if IsField(part, Second) { second := Some(part.value); }
      if part.DayPeriod? { amPm := part.period; }
      assert parts[..i + 1][..i] == parts[..i];
      i := i + 1;
    }
    assert parts[..|parts|] == parts;
    fields := Fields(hour, minute, second, amPm);
  }

  /**
   * `hour % 12 || 12` (script.js:54): the hour on a 12-hour dial, which has
   * the same remainder modulo 12 and lies in 1..12. Hours 1..12 keep their
   * value and hours 13..23 lose 12; 0 (and 24) become 12.
   */
  function To12Hour(hour: nat): (r: nat)
    ensures 1 <= r <= 12 && r % 12 == hour % 12
    ensures 1 <= hour <= 12 ==> r == hour
    ensures 13 <= hour <= 23 ==> r == hour - 12
  {
    if hour % 12 == 0 then 12 else hour % 12
  }

  /** Converting an hour that is already on the 12-hour dial changes nothing. */
  lemma To12HourIdempotent(hour: nat)
    ensures To12Hour(To12Hour(hour)) == To12Hour(hour)
  {
  }

  /**
   * Without a label from the formatter, the 12-hour dial and the derived
   * meridiem together lose nothing: every hour of the day can be recovered
   * from them.
   */
  lemma TwelveHourReversible(hour: nat)
    requires hour < 24
    ensures hour == To12Hour(hour) % 12 + (if Meridiem("", Some(hour)) == "PM" then 12 else 0)
  {
  }

  /**
   * `displayHour` (script.js:51-54): the parsed hour in 24-hour mode, `undefined`
   * included; in 12-hour mode always an hour on the 12-hour dial, because an
   * `undefined` hour gives `NaN`, which `|| 12` replaces with 12.
   */
  function DisplayHour(hour: Option<nat>, is24Hour: bool): (r: Option<nat>)
    ensures is24Hour ==> r == hour
    ensures !is24Hour ==> r.Some? && 1 <= r.value <= 12
    ensures !is24Hour && hour.Some? ==> r.value % 12 == hour.value % 12
    ensures !is24Hour && hour.None? ==> r.value == 12
  {
    if is24Hour then hour
    else if hour.Some? then Some(To12Hour(hour.value))
    else Some(12)
  }

  /**
   * `amPm || (hour >= 12 ? 'PM' : 'AM')` (script.js:53): a non-empty label from
   * the formatter is kept; an empty one is replaced by "PM" for hours from 12
   * on and by "AM" otherwise, including when the hour is `undefined` (the
   * comparison `undefined >= 12` is false).
   */
  function Meridiem(period: string, hour: Option<nat>): (r: string)
    ensures r != ""
    ensures period != "" ==> r == period
    ensures period == "" ==> (r == "PM" <==> hour.Some? && hour.value >= 12) && (r == "AM" || r == "PM")
  {
    if period != "" then period else if hour.Some? && hour.value >= 12 then "PM" else "AM"
  }

  /**
   * The rest of `updateTime` (script.js:50-62). In 24-hour mode the hour is
   * shown as parsed and the meridiem is empty; in 12-hour mode the hour is put
   * on the 12-hour dial (an `undefined` hour becomes `NaN`, which `|| 12`
   * turns into 12) and the meridiem is chosen by `Meridiem`. Padding an
   * `undefined` hour, minute or second throws.
   */
  function RenderTime(f: Fields, is24Hour: bool): (r: Result<Rendered, FormatError>)
    ensures r.Failure? <==> f.minute.None? || f.second.None? || (is24Hour && f.hour.None?)
    ensures r.Success? ==>
      && AllDigits(r.value.hours) && AllDigits(r.value.minutes) && AllDigits(r.value.seconds)
      && |r.value.hours| >= 2 && |r.value.minutes| >= 2 && |r.value.seconds| >= 2
    ensures r.Success? && is24Hour ==> r.value.amPm == ""
    ensures r.Success? && !is24Hour ==> r.value.amPm != "" && (f.amPm != "" ==> r.value.amPm == f.amPm)
    ensures r.Success? && !is24Hour && f.amPm == "" ==> (r.value.amPm == "PM" <==> f.hour.Some? && f.hour.value >= 12)
  {
    var displayHour := DisplayHour(f.hour, is24Hour);
    var amPm := if is24Hour then "" else Meridiem(f.amPm, f.hour);
    if displayHour.None? || f.minute.None? || f.second.None? then
      Failure(TypeError)
    else
      Success(Rendered(PadNumber(displayHour.value), PadNumber(f.minute.value), PadNumber(f.second.value), amPm))
  }

  /**
   * The padded texts read back as the numbers shown: minute and second as
   * parsed, the hour as parsed in 24-hour mode and on the 12-hour dial
   * otherwise.
   */
  lemma RenderTimeReadsBack(f: Fields, is24Hour: bool)
    requires RenderTime(f, is24Hour).Success?
    ensures var t := RenderTime(f, is24Hour).value;
      && ParseDigits(t.minutes) == f.minute.value
      && ParseDigits(t.seconds) == f.second.value
      && (is24Hour ==> ParseDigits(t.hours) == f.hour.value)
      && (!is24Hour ==> 1 <= ParseDigits(t.hours) <= 12)
      && (!is24Hour && f.hour.Some? ==> ParseDigits(t.hours) % 12 == f.hour.value % 12)
  {
    var t := RenderTime(f, is24Hour).value;
    PadNumberRoundTrip(f.minute.value);
    PadNumberRoundTrip(f.second.value);
    if is24Hour {
      PadNumberRoundTrip(f.hour.value);
    } else if f.hour.Some? {
      PadNumberRoundTrip(To12Hour(f.hour.value));
    } else {
      PadNumberRoundTrip(12);
    }
  }

  /**
   * In 12-hour mode an `undefined` hour still renders: `undefined % 12` is
   * `NaN`, which `|| 12` replaces, so the hours text is "12" and the meridiem
   * falls back to "AM" unless the formatter gave one.
   */
  lemma MissingHourShowsTwelve(f: Fields)
    requires f.hour.None? && f.minute.Some? && f.second.Some?
    ensures RenderTime(f, false).Success?
    ensures RenderTime(f, false).value.hours == "12"
    ensures RenderTime(f, false).value.amPm == (if f.amPm == "" then "AM" else f.amPm)
  {
  }

  /**
   * The whole formatting pipeline of `updateTime` (script.js:41-62), from the
   * formatter's parts to the page texts. It throws exactly when the parts
   * lack a minute or a second, or lack an hour in 24-hour mode; otherwise it
   * yields digit strings, an empty meridiem in 24-hour mode, and in 12-hour
   * mode an hour on the 12-hour dial with a non-empty meridiem.
   */
  function FormatParts(parts: seq<Part>, is24Hour: bool): (r: Result<Rendered, FormatError>)
    ensures r.Failure? <==>
      || (forall i :: 0 <= i < |parts| ==> !IsField(parts[i], Minute))
      || (forall i :: 0 <= i < |parts| ==> !IsField(parts[i], Second))
      || (is24Hour && forall i :: 0 <= i < |parts| ==> !IsField(parts[i], Hour))
    ensures r.Success? ==> AllDigits(r.value.hours) && AllDigits(r.value.minutes) && AllDigits(r.value.seconds)
    ensures r.Success? && is24Hour ==> r.value.amPm == ""
    ensures r.Success? && !is24Hour ==> 1 <= ParseDigits(r.value.hours) <= 12 && r.value.amPm != ""
  {
    var f := Extract(parts);
    var r := RenderTime(f, is24Hour);
    if r.Success? then RenderTimeReadsBack(f, is24Hour); r else r
  }

  /**
   * Every number the pipeline shows comes from the formatter: the minute and
   * second texts read back as the values of a minute and a second part, and in
   * 24-hour mode the hour text as the value of an hour part.
   */
  lemma FormatPartsReadsBack(parts: seq<Part>, is24Hour: bool)
    requires FormatParts(parts, is24Hour).Success?
    ensures var t := FormatParts(parts, is24Hour).value;
      && Numeric(Minute, ParseDigits(t.minutes)) in parts
      && Numeric(Second, ParseDigits(t.seconds)) in parts
      && (is24Hour ==> Numeric(Hour, ParseDigits(t.hours)) in parts)
  {
    RenderTimeReadsBack(Extract(parts), is24Hour);
  }

  /** The padded spellings that the examples below rely on. */
  lemma PaddedExamples()
    ensures PadNumber(0) == "00" && PadNumber(5) == "05" && PadNumber(9) == "09"
    ensures PadNumber(12) == "12" && PadNumber(13) == "13"
  {
  }

  /**
   * In 12-hour mode, midnight past five minutes and nine seconds shows as
   * 12:05:09 AM; with no `dayPeriod` part the meridiem comes from the hour.
   */
  lemma TwelveHourMidnightExample(parts: seq<Part>)
    requires parts == [Numeric(Hour, 0), Literal(":"), Numeric(Minute, 5), Literal(":"), Numeric(Second, 9)]
    ensures FormatParts(parts, false) == Success(Rendered("12", "05", "09", "AM"))
  {
    var f := Fields(Some(0), Some(5), Some(9), "");
    assert Extract(parts) == f by {
      LastValueWins(parts, Hour);
      LastValueWins(parts, Minute);
      LastValueWins(parts, Second);
      LastDayPeriodWins(parts);
      assert IsField(parts[0], Hour) && IsField(parts[2], Minute) && IsField(parts[4], Second);
    }
    assert RenderTime(f, false) == Success(Rendered("12", "05", "09", "AM")) by {
      assert DisplayHour(Some(0), false) == Some(12);
      assert Meridiem("", Some(0)) == "AM";
      assert RenderTime(f, false) == Success(Rendered(PadNumber(12), PadNumber(5), PadNumber(9), "AM"));
      PaddedExamples();
    }
  }

  /** In 24-hour mode 13:00:00 shows as 13:00:00 with an empty meridiem, whatever day period the formatter gave. */
  lemma TwentyFourHourExample(parts: seq<Part>)
    requires parts == [Numeric(Hour, 13), Literal(":"), Numeric(Minute, 0), Literal(":"), Numeric(Second, 0),
                       Literal(" "), DayPeriod("PM")]
    ensures FormatParts(parts, true) == Success(Rendered("13", "00", "00", ""))
  {
    var f := Fields(Some(13), Some(0), Some(0), "PM");
    assert Extract(parts) == f by {
      LastValueWins(parts, Hour);
      LastValueWins(parts, Minute);
      LastValueWins(parts, Second);
      LastDayPeriodWins(parts);
      assert IsField(parts[0], Hour) && IsField(parts[2], Minute) && IsField(parts[4], Second) && parts[6].DayPeriod?;
    }
    assert RenderTime(f, true) == Success(Rendered("13", "00", "00", "")) by {
      assert RenderTime(f, true) == Success(Rendered(PadNumber(13), PadNumber(0), PadNumber(0), ""));
      PaddedExamples();
    }
  }

  /**
   * The shape a formatter asked for 12-hour time actually produces at
   * midnight: hour "12" and a `dayPeriod` of "AM", which is kept as it is.
   */
  lemma TwelveHourFormatterExample(parts: seq<Part>)
    requires parts == [Numeric(Hour, 12), Literal(":"), Numeric(Minute, 5), Literal(":"), Numeric(Second, 9),
                       Literal(" "), DayPeriod("AM")]
    ensures FormatParts(parts, false) == Success(Rendered("12", "05", "09", "AM"))
  {
    var f := Fields(Some(12), Some(5), Some(9), "AM");
    assert Extract(parts) == f by {
      LastValueWins(parts, Hour);
      LastValueWins(parts, Minute);
      LastValueWins(parts, Second);
      LastDayPeriodWins(parts);
      assert IsField(parts[0], Hour) && IsField(parts[2], Minute) && IsField(parts[4], Second) && parts[6].DayPeriod?;
    }
    assert RenderTime(f, false) == Success(Rendered("12", "05", "09", "AM")) by {
      assert DisplayHour(Some(12), false) == Some(12);
      assert Meridiem("AM", Some(12)) == "AM";
      assert RenderTime(f, false) == Success(Rendered(PadNumber(12), PadNumber(5), PadNumber(9), "AM"));
      PaddedExamples();
    }
  }
}
