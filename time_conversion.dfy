/**
  Conversion between calendar values and Julian days (`datetime_to_julday`
  and `julday_to_datetime` of utils.py).

  The calendar arithmetic itself is the ephemeris's (`swe.julday` and
  `swe.revjul`); both conversions take it as a parameter. What the application
  adds is the clock-time part: building a fractional hour from clock fields,
  and breaking a fractional hour back down into whole hours, minutes and seconds.
*/
module TimeConversion {
  import opened SwissEph
  import opened PyNumeric

  /**
    A Python `date` (no clock fields) or `datetime` value. Field ranges are
    those Python's constructors enforce.
  */
  datatype CalendarValue =
    | Date(year: int, month: int, day: int)
    | DateTime(year: int, month: int, day: int,
               hour: int, minute: int, second: int, microsecond: int)

  /** What `swe.revjul` reports: a calendar date and the hour of that day. */
  datatype CalendarHour = CalendarHour(year: int, month: int, day: int, hour: DayHour)

  /** A clock time truncated to whole seconds. */
  datatype Clock = Clock(hour: int, minute: int, second: int)

  /**
    The fractional hour exactly as utils.py:174 builds it. The microsecond
    field is divided by 3 600 000, the number of MILLIseconds in an hour, so a
    microsecond count weighs a thousand times what it should.
  */
  function HourFractionAsWritten(hour: int, minute: int, second: int, microsecond: int): real
  {
    hour as real + minute as real / 60.0 + second as real / 3600.0
      + microsecond as real / 3600000.0
  }

  /**
    The fractional hour with microseconds weighted as microseconds
    (3 600 000 000 to the hour): the evidently intended expression. The
    application only ever passes a zero microsecond field, where this agrees
    with the code as written.
  */
  function HourFraction(hour: int, minute: int, second: int, microsecond: int): (h: real)
    ensures microsecond == 0 ==> h == HourFractionAsWritten(hour, minute, second, microsecond)
    ensures 0 <= minute < 60 && 0 <= second < 60 && 0 <= microsecond < 1000000 ==>
              hour as real <= h < hour as real + 1.0
  {
    hour as real + minute as real / 60.0 + second as real / 3600.0
      + microsecond as real / 3600000000.0
  }

  /**
    The hour passed to the ephemeris for a calendar value, as utils.py:169-174
    builds it: clock fields that a `date` lacks count as zero, and the
    microsecond weight is the one written in the source.
  */
  function HourOf(v: CalendarValue): (h: real)
    ensures v.Date? ==> h == 0.0
    ensures v.DateTime? && 0 <= v.minute < 60 && 0 <= v.second < 60 && 0 <= v.microsecond < 1000 ==>
              v.hour as real <= h < v.hour as real + 1.0
  {
    match v
    case Date(_, _, _) => 0.0
    case DateTime(_, _, _, hour, minute, second, microsecond) =>
      HourFractionAsWritten(hour, minute, second, microsecond)
  }

  /** The hour of a calendar value with the intended microsecond weight. */
  function CorrectedHourOf(v: CalendarValue): (h: real)
    ensures v.Date? ==> h == 0.0
    ensures v.Date? || v.microsecond == 0 ==> h == HourOf(v)
  {
    match v
    case Date(_, _, _) => 0.0
    case DateTime(_, _, _, hour, minute, second, microsecond) =>
      HourFraction(hour, minute, second, microsecond)
  }

  /** `datetime_to_julday(date)`: `swe.julday(year, month, day, hour_float)`, as written. */
  function DatetimeToJulday(v: CalendarValue, julday: (int, int, int, real) -> real): (jd: real)
    ensures jd == julday(v.year, v.month, v.day, HourOf(v))
    ensures v.Date? ==> jd == julday(v.year, v.month, v.day, 0.0)
  {
    julday(v.year, v.month, v.day, HourOf(v))
  }

  /**
    `datetime_to_julday` with the intended microsecond weight. It agrees with
    the code as written on every `date` and on every `datetime` whose
    microsecond field is zero, which is all the application ever passes.
  */
  function CorrectedDatetimeToJulday(v: CalendarValue, julday: (int, int, int, real) -> real): (jd: real)
    ensures jd == julday(v.year, v.month, v.day, CorrectedHourOf(v))
    ensures v.Date? || v.microsecond == 0 ==> jd == DatetimeToJulday(v, julday)
  {
    julday(v.year, v.month, v.day, CorrectedHourOf(v))
  }

  /**
    The truncating breakdown of utils.py:190-192: whole hours, then whole
    minutes of the remainder, then whole seconds of what is left. Each field is
    truncated, never rounded, so the clock time never exceeds the fractional
    hour and falls short of it by less than one second.
  */
  function Breakdown(hour: DayHour): (c: Clock)
    ensures 0 <= c.hour <= 23 && 0 <= c.minute <= 59 && 0 <= c.second <= 59
    ensures c.hour as real + c.minute as real / 60.0 + c.second as real / 3600.0 <= hour
    ensures hour < c.hour as real + c.minute as real / 60.0 + (c.second + 1) as real / 3600.0
  {
    var hours := Trunc(hour);
    var minutes := Trunc((hour - hours as real) * 60.0);
    var seconds := Trunc(((hour - hours as real) * 60.0 - minutes as real) * 60.0);
    Clock(hours, minutes, seconds)
  }

  /**
    `julday_to_datetime(julday)`: the calendar date from `swe.revjul` and the
    truncated clock time of its hour; the microsecond field is always zero.
  */
  function JuldayToDatetime(jd: real, revjul: real -> CalendarHour): (v: CalendarValue)
    ensures v.DateTime? && v.microsecond == 0
    ensures var c := revjul(jd);
            v.year == c.year && v.month == c.month && v.day == c.day
    ensures 0 <= v.hour <= 23 && 0 <= v.minute <= 59 && 0 <= v.second <= 59
    ensures var clock := v.hour as real + v.minute as real / 60.0 + v.second as real / 3600.0;
            clock <= revjul(jd).hour < clock + 1.0 / 3600.0
  {
    var c := revjul(jd);
    var clock := Breakdown(c.hour);
    DateTime(c.year, c.month, c.day, clock.hour, clock.minute, clock.second, 0)
  }

  /**
    Breaking down a fractional hour built from a clock time gives that clock
    time back, whatever is added below one second.
  */
  lemma {:induction false} BreakdownOfClock(h: int, m: int, s: int, e: real)
    requires 0 <= h < 24 && 0 <= m < 60 && 0 <= s < 60 && 0.0 <= e < 1.0 / 3600.0
    ensures var x := h as real + m as real / 60.0 + s as real / 3600.0 + e;
            0.0 <= x < 24.0 && Breakdown(x) == Clock(h, m, s)
  {
    var x := h as real + m as real / 60.0 + s as real / 3600.0 + e;
    var f := m as real / 60.0 + s as real / 3600.0 + e;
    assert x == h as real + f;
    assert 0.0 <= f < 1.0;
    assert Trunc(x) == h;
    var g := s as real / 60.0 + e * 60.0;
    assert (x - h as real) * 60.0 == m as real + g;
    assert 0.0 <= g < 1.0;
    assert Trunc((x - h as real) * 60.0) == m;
    assert ((x - h as real) * 60.0 - m as real) * 60.0 == s as real + e * 3600.0;
    assert Trunc(((x - h as real) * 60.0 - m as real) * 60.0) == s;
  }

  /**
    With the intended weight, breaking down a fractional hour built from a
    clock time gives that clock time back for every sub-second part.
  */
  lemma BreakdownOfHourFraction(h: int, m: int, s: int, us: int)
    requires 0 <= h < 24 && 0 <= m < 60 && 0 <= s < 60 && 0 <= us < 1000000
    ensures 0.0 <= HourFraction(h, m, s, us) < 24.0
    ensures Breakdown(HourFraction(h, m, s, us)) == Clock(h, m, s)
  {
    BreakdownOfClock(h, m, s, us as real / 3600000000.0);
  }

  /**
    With the weight as written, the clock time comes back only while the
    microsecond field stays below 1000, where it still adds less than a second.
  */
  lemma BreakdownOfHourFractionAsWritten(h: int, m: int, s: int, us: int)
    requires 0 <= h < 24 && 0 <= m < 60 && 0 <= s < 60 && 0 <= us < 1000
    ensures 0.0 <= HourFractionAsWritten(h, m, s, us) < 24.0
    ensures Breakdown(HourFractionAsWritten(h, m, s, us)) == Clock(h, m, s)
  {
    BreakdownOfClock(h, m, s, us as real / 3600000.0);
  }

  /**
    The two conversions as written are inverse up to the sub-second part for
    microsecond fields below 1000: given an ephemeris whose `revjul` undoes
    its `julday` at this instant, converting a `datetime` to a Julian day and
    back yields the same date and clock time with the microseconds dropped.
  */
  lemma JuldayRoundTrip(y: int, mo: int, d: int, h: int, mi: int, s: int, us: int,
                        julday: (int, int, int, real) -> real,
                        revjul: real -> CalendarHour)
    requires 0 <= h < 24 && 0 <= mi < 60 && 0 <= s < 60 && 0 <= us < 1000
    requires var hf := HourFractionAsWritten(h, mi, s, us);
             0.0 <= hf < 24.0 && revjul(julday(y, mo, d, hf)) == CalendarHour(y, mo, d, hf)
    ensures JuldayToDatetime(DatetimeToJulday(DateTime(y, mo, d, h, mi, s, us), julday), revjul)
            == DateTime(y, mo, d, h, mi, s, 0)
  {
    BreakdownOfHourFractionAsWritten(h, mi, s, us);
  }

  /**
    With the intended weight the round trip holds for every microsecond field.
  */
  lemma CorrectedJuldayRoundTrip(y: int, mo: int, d: int, h: int, mi: int, s: int, us: int,
                                 julday: (int, int, int, real) -> real,
                                 revjul: real -> CalendarHour)
    requires 0 <= h < 24 && 0 <= mi < 60 && 0 <= s < 60 && 0 <= us < 1000000
    requires var hf := HourFraction(h, mi, s, us);
             0.0 <= hf < 24.0 && revjul(julday(y, mo, d, hf)) == CalendarHour(y, mo, d, hf)
    ensures JuldayToDatetime(CorrectedDatetimeToJulday(DateTime(y, mo, d, h, mi, s, us), julday), revjul)
            == DateTime(y, mo, d, h, mi, s, 0)
  {
    BreakdownOfHourFraction(h, mi, s, us);
  }

  /**
    With the microsecond weight written in the source, half a second becomes
    eight minutes and twenty seconds: the breakdown of the built hour no longer
    gives back the clock time it was built from.
  */
  lemma HalfSecondAsWritten()
    ensures HourFractionAsWritten(0, 0, 0, 500000) == 5.0 / 36.0
    ensures Breakdown(5.0 / 36.0) == Clock(0, 8, 20)
  {
    var x: DayHour := 5.0 / 36.0;
    assert Trunc(x) == 0;
    assert x * 60.0 == 25.0 / 3.0;
    assert Trunc(x * 60.0) == 8;
    assert (x * 60.0 - 8.0) * 60.0 == 20.0;
  }

  /**
    The round trip of the code as written, at midnight plus half a second:
    the `datetime` that comes back reads 00:08:20.
  */
  lemma HalfSecondRoundTripAsWritten(y: int, mo: int, d: int,
                                     julday: (int, int, int, real) -> real,
                                     revjul: real -> CalendarHour)
    requires revjul(julday(y, mo, d, 5.0 / 36.0)) == CalendarHour(y, mo, d, 5.0 / 36.0)
    ensures JuldayToDatetime(DatetimeToJulday(DateTime(y, mo, d, 0, 0, 0, 500000), julday), revjul)
            == DateTime(y, mo, d, 0, 8, 20, 0)
  {
    HalfSecondAsWritten();
  }
}
