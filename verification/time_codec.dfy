/**
 * The punch log's timestamps (`YYYYMMDDTHHMMSS`), the whole minutes between
 * two of them, and the "(H hours M minutes)" rendering of a minute count
 * (`get_time`, `translate_time_to_secs`, `get_duration_in_minutes`,
 * `format_minutes` in trunk/Punch.py).
 */
module TimeCodec {
  import opened Wrappers
  import opened Errors
  import opened PyText
  import opened Numerals

  /** A broken-down local time, as `time.localtime()` and `time.strptime()` give it. */
  datatype CalendarTime = CalendarTime(year: int, month: int, day: int, hour: int, minute: int, second: int)

  predicate IsLeapYear(y: int) {
    y % 4 == 0 && (y % 100 != 0 || y % 400 == 0)
  }

  function DaysInMonth(y: int, m: int): (n: int)
    requires 1 <= m <= 12
    ensures 28 <= n <= 31
  {
    if m == 2 then (if IsLeapYear(y) then 29 else 28)
    else if m == 4 || m == 6 || m == 9 || m == 11 then 30
    else 31
  }

  /** The times `strptime` accepts for `%Y%m%dT%H%M%S`; Python lets seconds run to 61. */
  predicate ValidTime(t: CalendarTime) {
    1 <= t.year <= 9999 && 1 <= t.month <= 12 && 1 <= t.day <= DaysInMonth(t.year, t.month)
    && 0 <= t.hour < 24 && 0 <= t.minute < 60 && 0 <= t.second <= 61
  }

  /**
   * A reading of `time.localtime()`, which `get_time` formats: a valid time
   * in a year from 1900 on, which `strftime` and `mktime` take as it is.
   */
  predicate ClockTime(t: CalendarTime) {
    ValidTime(t) && 1900 <= t.year
  }

  /** Fifteen characters: eight digits, a 'T', six digits. */
  predicate IsStampShaped(p: string) {
    |p| == 15 && p[8] == 'T' && AllDigits(p[..8]) && AllDigits(p[9..])
  }

  /**
   * What `strptime` matches against `%Y%m%dT%H%M%S` in fifteen characters:
   * every field at its full width, the 'T' in either case (it matches
   * ignoring case), and the day either two digits or a space before one
   * digit, as `%d` also accepts.
   */
  predicate IsStampText(p: string) {
    |p| == 15 && (p[8] == 'T' || p[8] == 't') && AllDigits(p[..6]) && IsDayField(p[6..8]) && AllDigits(p[9..])
  }

  /** The two characters `%d` matches: two digits, or a space and a digit from 1 to 9. */
  predicate IsDayField(d: string) {
    |d| == 2 && (AllDigits(d) || (d[0] == ' ' && '1' <= d[1] <= '9'))
  }

  function DayValue(d: string): (n: nat)
    requires IsDayField(d)
    ensures n < 100
  {
    if d[0] == ' ' then DigitValue(d[1]) else Pad2OfDigits(d); DigitsValue(d)
  }

  /** The first eight characters of a stamp, a space before the day written as `0`, as `strftime` writes the date back. */
  function PaddedDate(ts: string): (d: string)
    requires |ts| >= 8
    ensures |d| == 8 && d[..6] == ts[..6] && d[7] == ts[7]
    ensures d == ts[..8] <==> ts[6] != ' '
  {
    ts[..6] + [if ts[6] == ' ' then '0' else ts[6]] + ts[7..8]
  }

  /** `time.strftime('%Y%m%d', t)`: the report's date key. */
  function FormatDate(t: CalendarTime): (s: string)
    requires ValidTime(t)
    ensures |s| == 8 && AllDigits(s)
  {
    Pad4(t.year) + Pad2(t.month) + Pad2(t.day)
  }

  /** `time.strftime('%Y%m%dT%H%M%S', t)`: the log's timestamp, as `get_time` writes it. */
  function FormatStamp(t: CalendarTime): (s: string)
    requires ValidTime(t)
    ensures IsStampShaped(s)
  {
    var s := FormatDate(t) + "T" + Pad2(t.hour) + Pad2(t.minute) + Pad2(t.second);
    assert s[..8] == FormatDate(t);
    assert s[9..] == Pad2(t.hour) + Pad2(t.minute) + Pad2(t.second);
    s
  }

  /**
   * `translate_time_to_secs`: the first fifteen characters read as four
   * digits of year, two each of month, day, hour, minute and second, with
   * the `T` between date and time matched regardless of case and a day
   * that may be a space and one digit.
   * None stands for the ValueError `strptime` raises.
   */
  function ParseStamp(ts: string): (r: Option<CalendarTime>)
    ensures r.Some? ==> ValidTime(r.value)
  {
    var p := Slice(ts, 0, 15);
    if !IsStampText(p) then None
    else
      assert AllDigits(p[..4]) && AllDigits(p[4..6]) by {
        assert p[..4] == p[..6][..4] && p[4..6] == p[..6][4..6];
      }
      assert AllDigits(p[9..11]) && AllDigits(p[11..13]) && AllDigits(p[13..15]) by {
        assert p[9..11] == p[9..][..2] && p[11..13] == p[9..][2..4] && p[13..15] == p[9..][4..6];
      }
      var t := CalendarTime(DigitsValue(p[..4]), DigitsValue(p[4..6]), DayValue(p[6..8]),
                            DigitsValue(p[9..11]), DigitsValue(p[11..13]), DigitsValue(p[13..15]));
      if ValidTime(t) then Some(t) else None
  }

  /** Reading back a timestamp the tool wrote gives the same time, whatever follows it on the line. */
  lemma ParseFormatStamp(t: CalendarTime, rest: string)
    requires ValidTime(t)
    ensures ParseStamp(FormatStamp(t) + rest) == Some(t)
  {
    var s := FormatStamp(t);
    var p := Slice(s + rest, 0, 15);
    assert p == s;
    assert p[..4] == Pad4(t.year) && p[4..6] == Pad2(t.month) && p[6..8] == Pad2(t.day);
    assert p[9..11] == Pad2(t.hour) && p[11..13] == Pad2(t.minute) && p[13..15] == Pad2(t.second);
  }

  /** A timestamp the tool wrote reads back as the time it was written for. */
  lemma ParseOwnStamp(t: CalendarTime)
    requires ValidTime(t)
    ensures ParseStamp(FormatStamp(t)) == Some(t)
  {
    ParseFormatStamp(t, []);
    assert FormatStamp(t) + [] == FormatStamp(t);
  }

  /**
   * A timestamp that parses is, in its first fifteen characters, the one
   * `get_time` would write for that time, but for the case of its 'T' and
   * a space before a one-digit day.
   */
  lemma FormatParseStamp(ts: string)
    requires ParseStamp(ts).Some?
    ensures |ts| >= 15 && (ts[8] == 'T' || ts[8] == 't')
    ensures ts[6] == ' ' ==> '1' <= ts[7] <= '9'
    ensures FormatStamp(ParseStamp(ts).value) == PaddedDate(ts) + "T" + ts[9..15]
  {
    var p := Slice(ts, 0, 15);
    assert p == ts[..15];
    var t := ParseStamp(ts).value;
    DatePartWritten(p);
    ClockPartWritten(p);
    assert t.year == DigitsValue(p[..4]) && t.month == DigitsValue(p[4..6]) && t.day == DayValue(p[6..8]);
    assert t.hour == DigitsValue(p[9..11]) && t.minute == DigitsValue(p[11..13]) && t.second == DigitsValue(p[13..15]);
    var date, clock := Pad4(t.year) + Pad2(t.month) + Pad2(t.day), Pad2(t.hour) + Pad2(t.minute) + Pad2(t.second);
    assert FormatStamp(t) == date + "T" + clock;
    assert date == PaddedDate(ts) by {
      assert PaddedDate(ts) == PaddedDate(p);
    }
    assert clock == ts[9..15];
  }

  /** The date read from a stamp text, written again, is its date with the day zero-padded. */
  lemma DatePartWritten(p: string)
    requires IsStampText(p)
    ensures AllDigits(p[..4]) && AllDigits(p[4..6])
    ensures DigitsValue(p[..4]) < 10000 && DigitsValue(p[4..6]) < 100
    ensures Pad4(DigitsValue(p[..4])) + Pad2(DigitsValue(p[4..6])) + Pad2(DayValue(p[6..8])) == PaddedDate(p)
  {
    assert p[..4] == p[..6][..4] && p[4..6] == p[..6][4..6];
    Pad4OfDigits(p[..4]);
    Pad2OfDigits(p[4..6]);
    DayFieldWritten(p[6..8]);
  }

  /** The clock read from a stamp text, written again, is its last six characters. */
  lemma ClockPartWritten(p: string)
    requires IsStampText(p)
    ensures AllDigits(p[9..11]) && AllDigits(p[11..13]) && AllDigits(p[13..15])
    ensures DigitsValue(p[9..11]) < 100 && DigitsValue(p[11..13]) < 100 && DigitsValue(p[13..15]) < 100
    ensures Pad2(DigitsValue(p[9..11])) + Pad2(DigitsValue(p[11..13])) + Pad2(DigitsValue(p[13..15])) == p[9..]
  {
    assert p[9..11] == p[9..][..2] && p[11..13] == p[9..][2..4] && p[13..15] == p[9..][4..6];
    Pad2OfDigits(p[9..11]);
    Pad2OfDigits(p[11..13]);
    Pad2OfDigits(p[13..15]);
  }

  /** `strftime` writes a day `%d` read back with a zero in place of the space. */
  lemma DayFieldWritten(d: string)
    requires IsDayField(d)
    ensures Pad2(DayValue(d)) == [if d[0] == ' ' then '0' else d[0], d[1]]
  {
    if d[0] == ' ' {
      assert DigitChar(DigitValue(d[1])) == d[1];
    } else {
      Pad2OfDigits(d);
    }
  }

  /** `strptime` also reads a stamp whose one-digit day is written after a space. */
  lemma SpacePaddedDay(t: CalendarTime, rest: string)
    requires ValidTime(t) && t.day < 10
    ensures ParseStamp(FormatDate(t)[..6] + " " + FormatStamp(t)[7..] + rest) == Some(t)
  {
    var s := FormatStamp(t);
    var clock := Pad2(t.hour) + Pad2(t.minute) + Pad2(t.second);
    var day := Pad2(t.day);
    assert s == Pad4(t.year) + Pad2(t.month) + day + "T" + clock;
    assert FormatDate(t)[..6] == Pad4(t.year) + Pad2(t.month);
    assert day[0] == '0' && s[7] == day[1];
    var u := Pad4(t.year) + Pad2(t.month) + [' ', day[1]] + "T" + clock;
    assert FormatDate(t)[..6] + " " + s[7..] == u;
    var p := Slice(u + rest, 0, 15);
    assert p == u;
    assert p[..4] == Pad4(t.year) && p[4..6] == Pad2(t.month) && p[6..8] == [' ', day[1]];
    assert p[9..11] == Pad2(t.hour) && p[11..13] == Pad2(t.minute) && p[13..15] == Pad2(t.second);
    assert DayValue(p[6..8]) == t.day by {
      assert DigitChar(t.day % 10) == day[1];
    }
  }

  /** `strptime` also reads a stamp whose 'T' is written in lower case. */
  lemma LowerCaseSeparator(t: CalendarTime, rest: string)
    requires ValidTime(t)
    ensures ParseStamp(FormatDate(t) + "t" + FormatStamp(t)[9..] + rest) == Some(t)
  {
    var s := FormatStamp(t);
    var d, clock := FormatDate(t), Pad2(t.hour) + Pad2(t.minute) + Pad2(t.second);
    assert s == d + "T" + clock;
    assert s[9..] == clock;
    var u := d + "t" + clock;
    var p := Slice(u + rest, 0, 15);
    assert p == u;
    assert p[..4] == Pad4(t.year) && p[4..6] == Pad2(t.month) && p[6..8] == Pad2(t.day);
    assert p[9..11] == Pad2(t.hour) && p[11..13] == Pad2(t.minute) && p[13..15] == Pad2(t.second);
  }

  /**
   * The report's date key of a start stamp (`strftime('%Y%m%d')` of what
   * `strptime` read): its month and day are the stamp's, a space before
   * the day written as `0`, and the whole key is that date exactly when the
   * year is from 1900 on; a two-digit year comes out moved to 19yy or 20yy.
   */
  lemma DateKeyIsPrefix(ts: string)
    requires StructOf(ts).Some?
    ensures |ts| >= 8 && |FormatDate(StructOf(ts).value)| == 8
    ensures FormatDate(StructOf(ts).value)[4..] == PaddedDate(ts)[4..]
    ensures FormatDate(StructOf(ts).value) == PaddedDate(ts) <==> ParseStamp(ts).value.year >= 1900
  {
    FormatParseStamp(ts);
    var t := ParseStamp(ts).value;
    var s := StructOf(ts).value;
    assert FormatStamp(t)[..8] == FormatDate(t);
    assert FormatDate(t) == PaddedDate(ts);
    assert FormatDate(s)[4..] == FormatDate(t)[4..];
    if FormatDate(s) == PaddedDate(ts) {
      assert Pad4(s.year) == FormatDate(s)[..4] == FormatDate(t)[..4] == Pad4(t.year);
    }
  }

  function DaysBeforeYear(y: int): int
    requires y >= 1
  {
    365 * (y - 1) + (y - 1) / 4 - (y - 1) / 100 + (y - 1) / 400
  }

  function DaysBeforeMonth(y: int, m: int): int
    requires 1 <= m <= 12
  {
    if m == 1 then 0 else DaysBeforeMonth(y, m - 1) + DaysInMonth(y, m - 1)
  }

  /**
   * The `struct_time` that `time.mktime` and `time.strftime` take (`gettmarg`
   * in Python 2, two-digit years allowed as by default): a year below 69 is
   * read as 20yy, one from 69 to 99 as 19yy, and one from 100 to 1899
   * raises ValueError (None here).
   */
  function TmArg(t: CalendarTime): (r: Option<CalendarTime>)
    requires ValidTime(t)
    ensures r.None? <==> 100 <= t.year < 1900
    ensures r.Some? ==> ClockTime(r.value) && r.value == t.(year := r.value.year)
    ensures t.year >= 1900 ==> r == Some(t)
    ensures t.year < 100 ==> r.value.year == t.year + (if t.year < 69 then 2000 else 1900)
  {
    if t.year < 69 then
      LeapYearMoved(t.year, 2000);
      Some(t.(year := t.year + 2000))
    else if t.year < 100 then
      LeapYearMoved(t.year, 1900);
      Some(t.(year := t.year + 1900))
    else if t.year < 1900 then None
    else Some(t)
  }

  /** Moving a two-digit year by a whole number of centuries into 1969..2068 keeps it a leap year or not. */
  lemma LeapYearMoved(y: int, shift: int)
    requires 1 <= y < 100 && ((shift == 2000 && y < 69) || (shift == 1900 && 69 <= y))
    ensures IsLeapYear(y + shift) == IsLeapYear(y)
  {
    assert (y + shift) % 4 == y % 4;
    assert (y + shift) % 100 == y % 100 != 0;
  }

  /** The struct `mktime` receives for a stamp: None when `strptime` or `gettmarg` raises ValueError. */
  function StructOf(ts: string): (r: Option<CalendarTime>)
    ensures r.None? <==> ParseStamp(ts).None? || 100 <= ParseStamp(ts).value.year < 1900
    ensures r.Some? ==> ClockTime(r.value)
  {
    match ParseStamp(ts)
    case None => None
    case Some(t) => TmArg(t)
  }

  /**
   * `time.mktime(t)`, taken naively: seconds since 0001-01-01T00:00:00 on
   * the proleptic Gregorian calendar, with no time zone or daylight saving.
   */
  function EpochSeconds(t: CalendarTime): int
    requires ValidTime(t)
  {
    var days := DaysBeforeYear(t.year) + DaysBeforeMonth(t.year, t.month) + t.day - 1;
    ((days * 24 + t.hour) * 60 + t.minute) * 60 + t.second
  }

  /** `(mktime(end) - mktime(start)) // 60`: the whole minutes elapsed, rounded down. */
  function MinutesBetween(start: CalendarTime, end: CalendarTime): (m: int)
    requires ValidTime(start) && ValidTime(end)
    ensures 60 * m <= EpochSeconds(end) - EpochSeconds(start) < 60 * m + 60
  {
    (EpochSeconds(end) - EpochSeconds(start)) / 60
  }

  /**
   * `get_duration_in_minutes`: both stamps are parsed, then `mktime` takes
   * the end and the start; ValueError if any of these raises.
   */
  function DurationInMinutes(startStamp: string, endStamp: string): (r: Result<int, PunchError>)
    ensures r.Failure? <==> StructOf(startStamp).None? || StructOf(endStamp).None?
    ensures r.Failure? ==> r.error == ValueError
    ensures r.Success? ==> r.value == MinutesBetween(StructOf(startStamp).value, StructOf(endStamp).value)
  {
    match ParseStamp(startStamp)
    case None => Failure(ValueError)
    case Some(start) =>
      match ParseStamp(endStamp)
      case None => Failure(ValueError)
      case Some(end) =>
        match TmArg(end)
        case None => Failure(ValueError)
        case Some(e) =>
          match TmArg(start)
          case None => Failure(ValueError)
          case Some(s) => Success(MinutesBetween(s, e))
  }

  /** The minutes between the stamps of two clock readings are the minutes between those readings. */
  lemma DurationOfStamps(start: CalendarTime, end: CalendarTime)
    requires ClockTime(start) && ClockTime(end)
    ensures DurationInMinutes(FormatStamp(start), FormatStamp(end)) == Success(MinutesBetween(start, end))
  {
    ParseOwnStamp(start);
    ParseOwnStamp(end);
  }

  /** A start stamp in a year from 100 to 1899 parses, but `mktime` refuses it: ValueError whatever the end. */
  lemma OldYearRaises(start: CalendarTime, endStamp: string)
    requires ValidTime(start) && 100 <= start.year < 1900
    ensures ParseStamp(FormatStamp(start)).Some?
    ensures DurationInMinutes(FormatStamp(start), endStamp) == Failure(ValueError)
  {
    ParseOwnStamp(start);
  }

  /**
   * Stamps in two-digit years are measured after the move to 19yy or 20yy:
   * a start in year 68 is a century after an end in year 69.
   */
  lemma TwoDigitYearsMoved(start: CalendarTime, end: CalendarTime)
    requires ValidTime(start) && ValidTime(end) && start.year == 68 && end.year == 69
    ensures DurationInMinutes(FormatStamp(start), FormatStamp(end))
         == Success(MinutesBetween(start.(year := 2068), end.(year := 1969)))
  {
    ParseOwnStamp(start);
    ParseOwnStamp(end);
  }

  /** Two times on the same calendar day are as many minutes apart as their clock readings say. */
  lemma SameDayMinutes(start: CalendarTime, end: CalendarTime)
    requires ValidTime(start) && ValidTime(end)
    requires start.year == end.year && start.month == end.month && start.day == end.day
    ensures MinutesBetween(start, end)
         == ((end.hour - start.hour) * 3600 + (end.minute - start.minute) * 60 + end.second - start.second) / 60
  {
  }

  /**
   * `format_minutes`: more than 60 minutes reads "(H hours M minutes)" with
   * H = minutes // 60, otherwise "(M minutes)"; exactly 60 stays in minutes.
   */
  function FormatMinutes(minutes: int): string {
    if minutes > 60 then
      var hours := minutes / 60;
      Enclosed(IntStr(hours) + " hours " + IntStr(minutes - hours * 60))
    else
      Enclosed(IntStr(minutes))
  }

  /** The envelope both forms share: "(" before the count, " minutes)" after it. */
  function Enclosed(count: string): string {
    "(" + count + " minutes)"
  }

  /** Reads a rendered duration back into minutes: the inverse of `FormatMinutes`. */
  function ReadMinutes(s: string): Option<int> {
    if |s| < 10 || s[0] != '(' || s[|s| - 9..] != " minutes)" then None
    else ReadCount(s[1..|s| - 9])
  }

  /** The text between the parentheses: "M" or "H hours M". */
  function ReadCount(inner: string): Option<int> {
    var sp := Find(inner, ' ');
    if sp < 0 then ParseInt(inner)
    else if |inner| < sp + 7 || inner[sp..sp + 7] != " hours " then None
    else ReadHours(ParseInt(inner[..sp]), ParseInt(inner[sp + 7..]))
  }

  function ReadHours(hours: Option<int>, minutes: Option<int>): Option<int> {
    if hours.Some? && minutes.Some? then Some(60 * hours.value + minutes.value) else None
  }

  lemma ReadEnclosed(count: string)
    ensures ReadMinutes(Enclosed(count)) == ReadCount(count)
  {
    var s := Enclosed(count);
    assert s[|s| - 9..] == " minutes)";
    assert s[1..|s| - 9] == count;
  }

  lemma IntStrHasNoSpace(i: int)
    ensures IntStr(i) != [] && ' ' !in IntStr(i)
  {
    var s := IntStr(i);
    assert forall k :: 0 <= k < |s| ==> s[k] != ' ';
  }

  lemma ReadCountHoursForm(a: string, b: string)
    requires ' ' !in a
    ensures ReadCount(a + " hours " + b) == ReadHours(ParseInt(a), ParseInt(b))
  {
    var inner := a + " hours " + b;
    FindFirst(a, ' ', " hours " + b);
    assert inner == a + (" hours " + b);
    assert inner[..|a|] == a;
    assert inner[|a|..|a| + 7] == " hours ";
    assert inner[|a| + 7..] == b;
  }

  lemma ReadHoursText(hours: int, minutes: int)
    ensures ReadCount(IntStr(hours) + " hours " + IntStr(minutes)) == Some(60 * hours + minutes)
  {
    IntStrHasNoSpace(hours);
    ReadCountHoursForm(IntStr(hours), IntStr(minutes));
    ParseIntStr(hours);
    ParseIntStr(minutes);
    ReadHoursOfValues(ParseInt(IntStr(hours)), ParseInt(IntStr(minutes)), hours, minutes);
  }

  lemma ReadHoursOfValues(h: Option<int>, m: Option<int>, hours: int, minutes: int)
    requires h == Some(hours) && m == Some(minutes)
    ensures ReadHours(h, m) == Some(60 * hours + minutes)
  {
  }

  lemma ReadMinutesText(minutes: int)
    ensures ReadCount(IntStr(minutes)) == Some(minutes)
  {
    IntStrHasNoSpace(minutes);
    ParseIntStr(minutes);
  }

  /** Rendering loses nothing: the minute count can be read back from the text, hours form or not. */
  lemma ReadFormatMinutes(minutes: int)
    ensures ReadMinutes(FormatMinutes(minutes)) == Some(minutes)
  {
    if minutes > 60 {
      var hours := minutes / 60;
      var rest := minutes - hours * 60;
      ReadHoursText(hours, rest);
      ReadEnclosed(IntStr(hours) + " hours " + IntStr(rest));
    } else {
      ReadMinutesText(minutes);
      ReadEnclosed(IntStr(minutes));
    }
  }

  /** Past an hour the text shows whole hours and the minutes left over, fewer than sixty, that add back up to the count. */
  lemma FormatMinutesHoursForm(minutes: int)
    requires minutes > 60
    ensures FormatMinutes(minutes) == Enclosed(IntStr(minutes / 60) + " hours " + IntStr(minutes % 60))
    ensures minutes / 60 >= 1 && 0 <= minutes % 60 < 60 && 60 * (minutes / 60) + minutes % 60 == minutes
  {
  }

  /** The boundary the tool keeps: exactly an hour is still shown in minutes, one minute more in hours. */
  lemma FormatMinutesHourBoundary()
    ensures FormatMinutes(60) == Enclosed("60")
    ensures FormatMinutes(61) == Enclosed("1" + " hours " + "1")
  {
    HourInMinutes();
    HourAndMinute();
  }

  lemma HourInMinutes()
    ensures FormatMinutes(60) == Enclosed("60")
  {
    assert IntStr(60) == "60" by {
      assert NatStr(6) == "6";
      assert NatStr(60) == NatStr(6) + [DigitChar(0)];
    }
  }

  lemma HourAndMinute()
    ensures FormatMinutes(61) == Enclosed("1" + " hours " + "1")
  {
    assert 61 / 60 == 1 && 61 - 1 * 60 == 1;
    assert IntStr(1) == "1";
  }
}
