/** getDuration of the get_event tool: the `duration_interval` of an event read
    with the ISO 8601 duration pattern `PnYnMnDTnHnMnS` (section 4.4.3.2 of
    ISO 8601:2004), turned into text that names the days, hours and minutes.

    The pattern is searched for, not anchored: it matches at the first `P` of the
    string, and each `(\d+)X` group is taken when a run of digits followed by the
    designator `X` comes next. */
module Duration {
  import opened LumaTypes
  import opened Strings

  /** The capture groups of the pattern: years, months, days, then after `T`
      hours, minutes, seconds. A captured group is a non-empty run of digits. */
  datatype Captures = Captures(
    years: Option<string>,
    months: Option<string>,
    days: Option<string>,
    hours: Option<string>,
    minutes: Option<string>,
    seconds: Option<string>)

  predicate Numeral(o: Option<string>) {
    o.Some? ==> o.value != "" && AllDigits(o.value)
  }

  predicate WellFormed(c: Captures) {
    Numeral(c.years) && Numeral(c.months) && Numeral(c.days) &&
    Numeral(c.hours) && Numeral(c.minutes) && Numeral(c.seconds)
  }

  /** The position of the first `P`, if any. */
  function FindP(s: string): (r: Option<nat>)
    ensures r.None? <==> 'P' !in s
    ensures r.Some? ==> r.value < |s| && s[r.value] == 'P' && 'P' !in s[..r.value]
  {
    if s == [] then None
    else if s[0] == 'P' then Some(0)
    else match FindP(s[1..])
      case None => None
      case Some(k) =>
        assert s[..k + 1] == [s[0]] + s[1..][..k];
        Some(k + 1)
  }

  /** One optional group `(?:(\d+)X)?` at the start of `s`: the digits it
      captures and what follows the designator, or no capture and `s` itself. */
  function Group(s: string, designator: char): (r: (Option<string>, string))
    ensures Numeral(r.0)
    ensures r.0.Some? ==> s == r.0.value + [designator] + r.1
    ensures r.0.None? ==> r.1 == s
  {
    var j := DigitRunEnd(s, 0);
    if 0 < j < |s| && s[j] == designator then
      assert s == s[..j] + [designator] + s[j + 1..];
      (Some(s[..j]), s[j + 1..])
    else (None, s)
  }

  /** The optional time part `(?:T(?:(\d+)H)?(?:(\d+)M)?(?:(\d+)S)?)?`. */
  function TimePart(s: string): (Option<string>, Option<string>, Option<string>) {
    if s != [] && s[0] == 'T' then
      var h := Group(s[1..], 'H');
      var mi := Group(h.1, 'M');
      var se := Group(mi.1, 'S');
      (h.0, mi.0, se.0)
    else (None, None, None)
  }

  /** `duration_interval.match(pattern)`: null exactly when there is no `P`. */
  function MatchDuration(s: string): (r: Option<Captures>)
    ensures r.None? <==> 'P' !in s
    ensures r.Some? ==> WellFormed(r.value)
  {
    match FindP(s)
    case None => None
    case Some(p) =>
      var y := Group(s[p + 1..], 'Y');
      var mo := Group(y.1, 'M');
      var d := Group(mo.1, 'D');
      var t := TimePart(d.1);
      Some(Captures(y.0, mo.0, d.0, t.0, t.1, t.2))
  }

  // ---------------------------------------------------------------------------
  // The text

  /** `${digits} unit`, with an `s` when the value is more than one, for a
      captured group whose value is positive; nothing otherwise. */
  function Component(digits: Option<string>, unit: string): (r: seq<string>)
    requires Numeral(digits)
    ensures r != [] <==> digits.Some? && DecimalValue(digits.value) > 0
    ensures |r| <= 1
    ensures r != [] ==> r[0] == digits.value + " " + unit + (if DecimalValue(digits.value) > 1 then "s" else "")
  {
    if digits.Some? && digits.value != "" && DecimalValue(digits.value) > 0 then
      [digits.value + " " + unit + (if DecimalValue(digits.value) > 1 then "s" else "")]
    else []
  }

  /** The shown components, in the order days, hours, minutes: one for each
      positive count among them, each starting with its digits. */
  function DurationParts(c: Captures): (r: seq<string>)
    requires WellFormed(c)
    ensures |r| == Shown(c.days) + Shown(c.hours) + Shown(c.minutes)
    ensures forall p :: p in r ==> p != "" && IsDigit(p[0])
    ensures Shown(c.days) == 1 ==> r[0] == Component(c.days, "day")[0]
    ensures Shown(c.hours) == 1 ==> r[Shown(c.days)] == Component(c.hours, "hour")[0]
    ensures Shown(c.minutes) == 1 ==> r[Shown(c.days) + Shown(c.hours)] == Component(c.minutes, "minute")[0]
  {
    ComponentStartsWithDigits(c.days, "day");
    ComponentStartsWithDigits(c.hours, "hour");
    ComponentStartsWithDigits(c.minutes, "minute");
    Component(c.days, "day") + Component(c.hours, "hour") + Component(c.minutes, "minute")
  }

  /** 1 when a captured count is positive, else 0. */
  function Shown(digits: Option<string>): nat
    requires Numeral(digits)
  {
    if digits.Some? && DecimalValue(digits.value) > 0 then 1 else 0
  }

  const UnknownDuration := "Unknown duration"

  /** `parts.join(', ') || 'Unknown duration'` */
  function DurationText(c: Captures): (r: string)
    requires WellFormed(c)
    ensures r != ""
    ensures DurationParts(c) == [] ==> r == UnknownDuration
  {
    var joined := Join(DurationParts(c), ", ");
    if joined == "" then UnknownDuration else joined
  }

  /** What the Duration line of get_event shows: the text of a matched
      `duration_interval`, else the rounded hours between start and end (the
      arithmetic on dates is not modelled), else "Not specified". */
  datatype DurationValue = Described(text: string) | HoursBetween(startAt: string, endAt: string) | NotSpecified

  function GetDuration(e: EventDetails): (r: DurationValue)
    ensures r.Described? <==> Truthy(e.durationInterval) && 'P' in e.durationInterval.value
    ensures r.HoursBetween? <==> !r.Described? && Truthy(e.endAt)
    ensures r.HoursBetween? ==> r == HoursBetween(e.startAt, e.endAt.value)
    ensures r.Described? ==>
      MatchDuration(e.durationInterval.value).Some? &&
      r.text == DurationText(MatchDuration(e.durationInterval.value).value)
  {
    if Truthy(e.durationInterval) && MatchDuration(e.durationInterval.value).Some? then
      Described(DurationText(MatchDuration(e.durationInterval.value).value))
    else if Truthy(e.endAt) then HoursBetween(e.startAt, e.endAt.value)
    else NotSpecified
  }

  /** Every component that is shown starts with its digits. */
  lemma ComponentStartsWithDigits(digits: Option<string>, unit: string)
    requires Numeral(digits)
    ensures forall p :: p in Component(digits, unit) ==> p != "" && IsDigit(p[0])
  {
  }

  /** The text is "Unknown duration" exactly when no day, hour or minute count is
      positive; otherwise it is the shown components joined by ", ", in the order
      days, hours, minutes. */
  lemma {:induction false} DurationTextUnknown(c: Captures)
    requires WellFormed(c)
    ensures DurationText(c) == UnknownDuration <==>
      !(c.days.Some? && DecimalValue(c.days.value) > 0) &&
      !(c.hours.Some? && DecimalValue(c.hours.value) > 0) &&
      !(c.minutes.Some? && DecimalValue(c.minutes.value) > 0)
    ensures DurationParts(c) != [] ==> DurationText(c) == Join(DurationParts(c), ", ")
  {
    var parts := DurationParts(c);
    if parts != [] {
      ComponentStartsWithDigits(c.days, "day");
      ComponentStartsWithDigits(c.hours, "hour");
      ComponentStartsWithDigits(c.minutes, "minute");
      assert parts[0] in parts;
      assert parts[0] != "" && IsDigit(parts[0][0]);
      JoinStartsWithFirst(parts, ", ");
      var joined := Join(parts, ", ");
      assert joined[0] == parts[0][0];
      assert joined != UnknownDuration;
    }
  }

  /** Years, months and seconds never change the text. */
  lemma IgnoredComponents(c: Captures, years: Option<string>, months: Option<string>, seconds: Option<string>)
    requires WellFormed(c) && Numeral(years) && Numeral(months) && Numeral(seconds)
    ensures WellFormed(c.(years := years, months := months, seconds := seconds))
    ensures DurationText(c.(years := years, months := months, seconds := seconds)) == DurationText(c)
  {
  }

  // ---------------------------------------------------------------------------
  // Writing a duration, and reading it back

  /** `nX` for a present count, nothing for an absent one. */
  function Designated(o: Option<string>, designator: char): string {
    if o.Some? then o.value + [designator] else ""
  }

  /** The duration written with the designators of the pattern; `T` appears only
      when a time count is present. */
  function Format(c: Captures): (s: string)
    ensures s != [] && s[0] == 'P'
  {
    var time := if c.hours.Some? || c.minutes.Some? || c.seconds.Some? then
      ['T'] + (Designated(c.hours, 'H') + (Designated(c.minutes, 'M') + Designated(c.seconds, 'S')))
      else "";
    ['P'] + (Designated(c.years, 'Y') + (Designated(c.months, 'M') + (Designated(c.days, 'D') + time)))
  }

  /** A string that does not start with a digit offers no group. */
  lemma GroupAtNonDigit(s: string, designator: char)
    requires s == [] || !IsDigit(s[0])
    ensures Group(s, designator) == (None, s)
  {
  }

  /** A present count is read by its own group; an absent one leaves what
      follows to be read. */
  lemma GroupOfDesignated(o: Option<string>, designator: char, tail: string)
    requires Numeral(o) && !IsDigit(designator)
    requires o.None? ==> Group(tail, designator).0.None?
    ensures Group(Designated(o, designator) + tail, designator) == (o, tail)
  {
    if o.Some? {
      var s := Designated(o, designator) + tail;
      assert s[0..|o.value|] == o.value;
      DigitRunEndOf(s, 0, o.value);
      assert s[..|o.value|] == o.value;
      assert s[|o.value| + 1..] == tail;
    }
  }

  /** A group for one designator does not read a count written with another. */
  lemma GroupMissesOther(o: Option<string>, other: char, tail: string, designator: char)
    requires Numeral(o) && !IsDigit(other) && other != designator
    requires o.None? ==> Group(tail, designator).0.None?
    ensures Group(Designated(o, other) + tail, designator).0.None?
  {
    var s := Designated(o, other) + tail;
    if o.Some? {
      assert s[0..|o.value|] == o.value;
      DigitRunEndOf(s, 0, o.value);
      assert s[|o.value|] == other;
    } else {
      assert s == tail;
    }
  }

  lemma {:induction false} TimePartOfFormat(c: Captures)
    requires WellFormed(c)
    ensures var time := ['T'] + (Designated(c.hours, 'H') + (Designated(c.minutes, 'M') + Designated(c.seconds, 'S')));
      TimePart(time) == (c.hours, c.minutes, c.seconds)
  {
    var s3 := Designated(c.seconds, 'S');
    var s2 := Designated(c.minutes, 'M') + s3;
    var s1 := Designated(c.hours, 'H') + s2;
    var time := ['T'] + s1;
    assert time[1..] == s1;
    GroupAtNonDigit("", 'S');
    GroupOfDesignated(c.seconds, 'S', "");
    assert s3 + "" == s3;
    GroupAtNonDigit("", 'M');
    GroupMissesOther(c.seconds, 'S', "", 'M');
    GroupOfDesignated(c.minutes, 'M', s3);
    GroupAtNonDigit("", 'H');
    GroupMissesOther(c.seconds, 'S', "", 'H');
    GroupMissesOther(c.minutes, 'M', s3, 'H');
    GroupOfDesignated(c.hours, 'H', s2);
  }

  /** Reading back a written duration gives the same counts. */
  lemma {:induction false} FormatRoundTrip(c: Captures)
    requires WellFormed(c)
    ensures MatchDuration(Format(c)) == Some(c)
  {
    var s := Format(c);
    var hasTime := c.hours.Some? || c.minutes.Some? || c.seconds.Some?;
    var time := if hasTime then
      ['T'] + (Designated(c.hours, 'H') + (Designated(c.minutes, 'M') + Designated(c.seconds, 'S')))
      else "";
    var a3 := Designated(c.days, 'D') + time;
    var a2 := Designated(c.months, 'M') + a3;
    var a1 := Designated(c.years, 'Y') + a2;
    assert s == ['P'] + a1;
    assert FindP(s) == Some(0);
    assert s[1..] == a1;
    GroupAtNonDigit(time, 'D');
    GroupAtNonDigit(time, 'M');
    GroupAtNonDigit(time, 'Y');
    GroupOfDesignated(c.days, 'D', time);
    GroupMissesOther(c.days, 'D', time, 'M');
    GroupOfDesignated(c.months, 'M', a3);
    GroupMissesOther(c.days, 'D', time, 'Y');
    GroupMissesOther(c.months, 'M', a3, 'Y');
    GroupOfDesignated(c.years, 'Y', a2);
    if hasTime {
      TimePartOfFormat(c);
    }
  }

  /** The counts of "P0Y0M1DT11H0M0S". */
  const OneDayElevenHoursCounts := Captures(Some("0"), Some("0"), Some("1"), Some("11"), Some("0"), Some("0"))

  lemma OneDayElevenHoursWritten()
    ensures Format(OneDayElevenHoursCounts) == "P0Y0M1DT11H0M0S"
  {
  }

  /** The values of the numerals of the example. */
  lemma OneDayElevenHoursValues()
    ensures DecimalValue("0") == 0 && DecimalValue("1") == 1 && DecimalValue("11") == 11
  {
    assert "0"[..0] == "";
    assert "1"[..0] == "";
    assert "11"[..1] == "1";
  }

  /** The components of the example: one day, eleven hours, no minutes. */
  lemma OneDayElevenHoursComponents()
    ensures Component(Some("1"), "day") == ["1 day"]
    ensures Component(Some("11"), "hour") == ["11 hours"]
    ensures Component(Some("0"), "minute") == []
  {
    OneDayElevenHoursValues();
    assert "1" + " " + "day" + "" == "1 day";
    assert "11" + " " + "hour" + "s" == "11 hours";
  }

  lemma OneDayElevenHoursText()
    ensures WellFormed(OneDayElevenHoursCounts)
    ensures DurationText(OneDayElevenHoursCounts) == "1 day, 11 hours"
  {
    var c := OneDayElevenHoursCounts;
    OneDayElevenHoursComponents();
    assert DurationParts(c) == ["1 day", "11 hours"];
    assert Join(["1 day", "11 hours"], ", ") == "1 day, 11 hours" by {
      assert ["1 day", "11 hours"][1..] == ["11 hours"];
    }
  }

  /** "P0Y0M1DT11H0M0S" reads as one day and eleven hours. */
  lemma OneDayElevenHours()
    ensures MatchDuration("P0Y0M1DT11H0M0S") == Some(OneDayElevenHoursCounts)
    ensures DurationText(MatchDuration("P0Y0M1DT11H0M0S").value) == "1 day, 11 hours"
  {
    OneDayElevenHoursWritten();
    OneDayElevenHoursText();
    FormatRoundTrip(OneDayElevenHoursCounts);
  }
}
