/**
 * `parse_posted_date`: the stripped date text is tried against eight
 * `strptime` formats in a fixed order; the first one that parses decides,
 * and the date comes back in `isoformat()` form. `strptime` belongs to
 * Python's library, so the parser is a parameter; `StrictStrptime` is one
 * instance of it, used to work the examples.
 */
module Dates {
  import opened Options
  import opened Strings

  /** A `datetime` without microseconds or time zone. */
  datatype DateTime = DateTime(year: nat, month: nat, day: nat, hour: nat, minute: nat, second: nat)

  /** The eight formats, named after their fields. */
  datatype Format =
    | YearMonthDay        // %Y-%m-%d
    | DaySlashMonth       // %d/%m/%Y
    | MonthSlashDay       // %m/%d/%Y
    | YearMonthDayTime    // %Y-%m-%d %H:%M:%S
    | DayDashMonth        // %d-%m-%Y
    | MonthDashDay        // %m-%d-%Y
    | LongMonthName       // %B %d, %Y
    | ShortMonthName      // %b %d, %Y

  /** The formats in the order the source tries them. */
  const Formats: seq<Format> := [
    YearMonthDay, DaySlashMonth, MonthSlashDay, YearMonthDayTime,
    DayDashMonth, MonthDashDay, LongMonthName, ShortMonthName]

  /** `datetime.strptime(text, format)`: the parsed value, or `None` where
      Python raises `ValueError`. */
  type Strptime = (string, Format) -> Option<DateTime>

  // ---------------------------------------------------------------------
  // isoformat()

  /** `n` in decimal, padded with zeros on the left to `width` digits. */
  function Padded(n: nat, width: nat): (r: string)
    ensures |r| >= width && AllDigits(r)
    ensures DigitsValue(r) == n
  {
    var digits := NatToString(n);
    if |digits| >= width then digits
    else
      LeadingZeros(width - |digits|, digits);
      Zeros(width - |digits|) + digits
  }

  /** Zeros on the left do not change a number's value. */
  lemma {:induction false} LeadingZeros(k: nat, s: string)
    requires AllDigits(s)
    ensures AllDigits(Zeros(k) + s) && DigitsValue(Zeros(k) + s) == DigitsValue(s)
    decreases |s|
  {
    var t := Zeros(k) + s;
    if s == [] {
      assert t == Zeros(k);
    } else {
      LeadingZeros(k, s[..|s| - 1]);
      assert t[..|t| - 1] == Zeros(k) + s[..|s| - 1];
    }
  }

  function Zeros(k: nat): (r: string)
    ensures |r| == k && AllDigits(r) && DigitsValue(r) == 0
  {
    if k == 0 then [] else
      var r := Zeros(k - 1) + "0";
      assert r[..k - 1] == Zeros(k - 1);
      r
  }

  /** `YYYY-MM-DD`. */
  function DatePart(d: DateTime): string
  {
    Padded(d.year, 4) + "-" + Padded(d.month, 2) + "-" + Padded(d.day, 2)
  }

  /** `HH:MM:SS`. */
  function TimePart(d: DateTime): string
  {
    Padded(d.hour, 2) + ":" + Padded(d.minute, 2) + ":" + Padded(d.second, 2)
  }

  /** `datetime.isoformat()` with no microseconds: `YYYY-MM-DDTHH:MM:SS`. */
  function IsoFormat(d: DateTime): string
  {
    DatePart(d) + "T" + TimePart(d)
  }

  // ---------------------------------------------------------------------
  // The lookup

  /** The first format of `formats` that parses `text`, with its value. */
  function FirstMatch(formats: seq<Format>, text: string, strptime: Strptime): Option<DateTime>
  {
    if formats == [] then None
    else if strptime(text, formats[0]).Some? then strptime(text, formats[0])
    else FirstMatch(formats[1..], text, strptime)
  }

  /** What `parse_posted_date` returns. */
  function PostedDate(dateStr: string, strptime: Strptime): Option<string>
  {
    if dateStr == [] then None
    else match FirstMatch(Formats, Strip(dateStr), strptime)
      case Some(d) => Some(IsoFormat(d))
      case None => None
  }

  /** The source's loop: try each format in turn and return at the first
      that parses. */
  method ParsePostedDate(dateStr: string, strptime: Strptime) returns (result: Option<string>)
    ensures result == PostedDate(dateStr, strptime)
  {
    if dateStr == [] {
      return None;
    }
    for i := 0 to |Formats|
      invariant FirstMatch(Formats, Strip(dateStr), strptime) == FirstMatch(Formats[i..], Strip(dateStr), strptime)
    {
      assert Formats[i..][1..] == Formats[i + 1..];
      var parsed := strptime(Strip(dateStr), Formats[i]);
      if parsed.Some? {
        return Some(IsoFormat(parsed.value));
      }
    }
    return None;
  }

  // ---------------------------------------------------------------------
  // Properties of the lookup

  /** The first match is the value of the earliest format that parses: it
      parses, and no format before it does. */
  lemma {:induction false} FirstMatchIsFirst(formats: seq<Format>, text: string, strptime: Strptime)
    ensures FirstMatch(formats, text, strptime).Some? <==>
      exists i :: 0 <= i < |formats| && strptime(text, formats[i]).Some?
    ensures FirstMatch(formats, text, strptime).Some? ==>
      exists i :: 0 <= i < |formats| && strptime(text, formats[i]) == FirstMatch(formats, text, strptime)
        && forall j :: 0 <= j < i ==> strptime(text, formats[j]).None?
  {
    if formats != [] {
      FirstMatchIsFirst(formats[1..], text, strptime);
      if strptime(text, formats[0]).None? {
        if exists i :: 0 <= i < |formats| && strptime(text, formats[i]).Some? {
          var i :| 0 <= i < |formats| && strptime(text, formats[i]).Some?;
          assert formats[1..][i - 1] == formats[i];
        }
        if FirstMatch(formats, text, strptime).Some? {
          var i :| 0 <= i < |formats[1..]| && strptime(text, formats[1..][i]) == FirstMatch(formats, text, strptime)
            && forall j :: 0 <= j < i ==> strptime(text, formats[1..][j]).None?;
          assert forall j :: 0 <= j < i + 1 ==> strptime(text, formats[j]).None? by {
            forall j | 0 <= j < i + 1
              ensures strptime(text, formats[j]).None?
            {
              if j > 0 {
                assert formats[j] == formats[1..][j - 1];
              }
            }
          }
          assert strptime(text, formats[i + 1]) == FirstMatch(formats, text, strptime);
        }
      } else {
        assert strptime(text, formats[0]) == FirstMatch(formats, text, strptime);
      }
    }
  }

  /** `parse_posted_date` gives `None` exactly for empty input and for
      text that no format parses. */
  lemma NoneWhenNoFormatParses(dateStr: string, strptime: Strptime)
    ensures PostedDate(dateStr, strptime).None? <==>
      dateStr == [] || forall i :: 0 <= i < |Formats| ==> strptime(Strip(dateStr), Formats[i]).None?
  {
    FirstMatchIsFirst(Formats, Strip(dateStr), strptime);
  }

  /** A date at midnight. */
  predicate Midnight(d: DateTime)
  {
    d.hour == 0 && d.minute == 0 && d.second == 0
  }

  /** The parser yields only valid date-times, and the date-only formats
      yield midnight. */
  ghost predicate DateOnlyAtMidnight(strptime: Strptime)
  {
    forall text, format :: strptime(text, format).Some? ==>
      ValidDateTime(strptime(text, format).value)
      && (format != YearMonthDayTime ==> Midnight(strptime(text, format).value))
  }

  /** A date without a time comes back as `YYYY-MM-DDT00:00:00` whenever the
      parser fills in midnight, as `strptime` does: when the first format
      that parses the text is a date-only one, the time is midnight. */
  lemma {:induction false} DateOnlyRendersMidnight(dateStr: string, strptime: Strptime, i: nat)
    requires DateOnlyAtMidnight(strptime)
    requires dateStr != []
    requires i < |Formats| && Formats[i] != YearMonthDayTime
    requires strptime(Strip(dateStr), Formats[i]).Some?
    requires forall j :: 0 <= j < i ==> strptime(Strip(dateStr), Formats[j]).None?
    ensures PostedDate(dateStr, strptime).Some?
    ensures |PostedDate(dateStr, strptime).value| == 19
    ensures PostedDate(dateStr, strptime).value[10..] == "T00:00:00"
  {
    var text := Strip(dateStr);
    FirstMatchIsFirst(Formats, text, strptime);
    var k :| 0 <= k < |Formats| && strptime(text, Formats[k]) == FirstMatch(Formats, text, strptime)
      && forall j :: 0 <= j < k ==> strptime(text, Formats[j]).None?;
    assert k == i;
    var d := strptime(text, Formats[i]).value;
    assert FirstMatch(Formats, text, strptime) == Some(d);
    assert ValidDateTime(d) && Midnight(d);
    assert PostedDate(dateStr, strptime) == Some(IsoFormat(d));
    IsoFormatShape(d);
  }

  /** The strict parser fills in midnight for the date-only formats. */
  lemma StrictDateOnlyAtMidnight()
    ensures DateOnlyAtMidnight(StrictStrptime)
  {
  }

  // ---------------------------------------------------------------------
  // A strict strptime

  /** Gregorian leap years. */
  predicate LeapYear(year: nat)
  {
    year % 4 == 0 && (year % 100 != 0 || year % 400 == 0)
  }

  function DaysInMonth(year: nat, month: nat): nat
    requires 1 <= month <= 12
  {
    if month == 2 then (if LeapYear(year) then 29 else 28)
    else if month == 4 || month == 6 || month == 9 || month == 11 then 30
    else 31
  }

  /** The values `datetime` accepts. */
  predicate ValidDateTime(d: DateTime)
  {
    1 <= d.year <= 9999 && 1 <= d.month <= 12 && 1 <= d.day <= DaysInMonth(d.year, d.month)
    && d.hour < 24 && d.minute < 60 && d.second < 60
  }

  /** The digits of `s` as a number, if `s` is all digits. */
  function Number(s: string): (r: Option<nat>)
    ensures r.Some? <==> s != [] && AllDigits(s)
  {
    if s != [] && AllDigits(s) then Some(DigitsValue(s)) else None
  }

  /** The date-time from its six fields, if all are present and valid. */
  function Build(year: Option<nat>, month: Option<nat>, day: Option<nat>,
                 hour: Option<nat>, minute: Option<nat>, second: Option<nat>): (r: Option<DateTime>)
    ensures r.Some? ==> ValidDateTime(r.value)
  {
    if year.Some? && month.Some? && day.Some? && hour.Some? && minute.Some? && second.Some? then
      var d := DateTime(year.value, month.value, day.value, hour.value, minute.value, second.value);
      if ValidDateTime(d) then Some(d) else None
    else None
  }

  /** A date at midnight. */
  function BuildDate(year: Option<nat>, month: Option<nat>, day: Option<nat>): (r: Option<DateTime>)
    ensures r.Some? ==> ValidDateTime(r.value)
  {
    Build(year, month, day, Some(0), Some(0), Some(0))
  }

  const MonthNames: seq<string> := [
    "January", "February", "March", "April", "May", "June", "July",
    "August", "September", "October", "November", "December"]

  /** `%b`: the first three letters of each month name. */
  const MonthAbbreviations: seq<string> := [
    "Jan", "Feb", "Mar", "Apr", "May", "Jun", "Jul", "Aug", "Sep", "Oct", "Nov", "Dec"]

  /** The month number (from 1) of a name in `names`. */
  function MonthNumber(name: string, names: seq<string>): (r: Option<nat>)
    ensures r.Some? ==> 1 <= r.value <= |names| && names[r.value - 1] == name
    ensures r.None? ==> name !in names
  {
    if names == [] then None
    else if names[0] == name then Some(1)
    else match MonthNumber(name, names[1..])
      case Some(m) => Some(m + 1)
      case None => None
  }

  /** `DD?MM?YYYY`-shaped text read with `separator`; `dayFirst` picks the
      field order. */
  function NumericDate(text: string, separator: char, dayFirst: bool): Option<DateTime>
  {
    if |text| == 10 && text[2] == separator && text[5] == separator then
      var first := Number(text[..2]);
      var second := Number(text[3..5]);
      var year := Number(text[6..]);
      if dayFirst then BuildDate(year, second, first) else BuildDate(year, first, second)
    else None
  }

  /** `<month name> DD, YYYY` with the names in `names`. */
  function NamedDate(text: string, names: seq<string>): Option<DateTime>
  {
    if |text| >= 9 && text[|text| - 9] == ' ' && text[|text| - 6..|text| - 4] == ", " then
      BuildDate(Number(text[|text| - 4..]), MonthNumber(text[..|text| - 9], names),
                Number(text[|text| - 8..|text| - 6]))
    else None
  }

  /** `YYYY-MM-DD`. */
  function IsoDate(text: string): Option<DateTime>
  {
    if |text| == 10 && text[4] == '-' && text[7] == '-' then
      BuildDate(Number(text[..4]), Number(text[5..7]), Number(text[8..]))
    else None
  }

  /** `HH:MM:SS` as hours, minutes and seconds. */
  function ClockTime(text: string): Option<(nat, nat, nat)>
  {
    if |text| == 8 && text[2] == ':' && text[5] == ':' then
      var hour := Number(text[..2]);
      var minute := Number(text[3..5]);
      var second := Number(text[6..]);
      if hour.Some? && minute.Some? && second.Some? then Some((hour.value, minute.value, second.value))
      else None
    else None
  }

  /** `YYYY-MM-DD HH:MM:SS`. */
  function IsoDateTime(text: string): (r: Option<DateTime>)
    ensures r.Some? ==> ValidDateTime(r.value)
  {
    if |text| == 19 && text[10] == ' ' then
      var date := IsoDate(text[..10]);
      var time := ClockTime(text[11..]);
      if date.Some? && time.Some? then
        var d := date.value;
        Build(Some(d.year), Some(d.month), Some(d.day), Some(time.value.0), Some(time.value.1), Some(time.value.2))
      else None
    else None
  }

  /** A `strptime` that takes every field at its full width with zero
      padding and month names in their capitalised spelling; the date-only
      formats give midnight. */
  function StrictStrptime(text: string, format: Format): (r: Option<DateTime>)
    ensures r.Some? ==> ValidDateTime(r.value)
  {
    match format
    case YearMonthDay => IsoDate(text)
    case DaySlashMonth => NumericDate(text, '/', true)
    case MonthSlashDay => NumericDate(text, '/', false)
    case YearMonthDayTime => IsoDateTime(text)
    case DayDashMonth => NumericDate(text, '-', true)
    case MonthDashDay => NumericDate(text, '-', false)
    case LongMonthName => NamedDate(text, MonthNames)
    case ShortMonthName => NamedDate(text, MonthAbbreviations)
  }

  // ---------------------------------------------------------------------
  // Worked examples with the strict parser

  /** A two-digit field. */
  lemma TwoDigits(s: string)
    requires |s| == 2 && IsDigit(s[0]) && IsDigit(s[1])
    ensures Number(s) == Some(DigitValue(s[0]) * 10 + DigitValue(s[1]))
  {
    var head := s[..1];
    assert head[..0] == [] && head[0] == s[0];
    assert DigitsValue(head) == DigitValue(s[0]);
    assert s[..|s| - 1] == head;
  }

  /** A four-digit field. */
  lemma FourDigits(s: string)
    requires |s| == 4 && AllDigits(s)
    ensures Number(s) == Some(DigitValue(s[0]) * 1000 + DigitValue(s[1]) * 100 + DigitValue(s[2]) * 10 + DigitValue(s[3]))
  {
    var front := s[..3];
    TwoDigits(s[..2]);
    assert front[..2] == s[..2] && front[2] == s[2];
    assert DigitsValue(front) == DigitsValue(s[..2]) * 10 + DigitValue(s[2]);
    assert s[..|s| - 1] == front;
  }

  /** "01/02/2024" is read day first: the second of January would need the
      month-first format, which comes later. */
  lemma DayFirstExample(s: string)
    requires s == "01/02/2024"
    ensures PostedDate(s, StrictStrptime) == Some("2024-02-01T00:00:00")
  {
    assert Trimmed(s);
    assert IsoDate(s) == None;
    TwoDigits(s[..2]);
    TwoDigits(s[3..5]);
    FourDigits(s[6..]);
    assert DaysInMonth(2024, 2) == 29;
    assert StrictStrptime(s, DaySlashMonth) == Some(DateTime(2024, 2, 1, 0, 0, 0));
    assert Formats[1..][0] == DaySlashMonth;
    assert FirstMatch(Formats, s, StrictStrptime) == Some(DateTime(2024, 2, 1, 0, 0, 0));
    ExampleRendering(DateTime(2024, 2, 1, 0, 0, 0), DateTime(2024, 1, 15, 0, 0, 0));
  }

  lemma Padded2024()
    ensures Padded(2024, 4) == "2024"
  {
    assert NatToString(2) == "2";
    assert NatToString(20) == "20";
    assert NatToString(202) == "202";
  }

  lemma PaddedSmall(n: nat)
    requires n < 10
    ensures Padded(n, 2) == ['0', Digit(n)]
  {
    assert Zeros(1) == "0";
  }

  lemma Padded15()
    ensures Padded(15, 2) == "15"
  {
    assert NatToString(1) == "1";
  }

  /** `isoformat()` of a midnight date from its rendered fields. */
  lemma MidnightIsoFormat(d: DateTime, year: string, month: string, day: string)
    requires Midnight(d)
    requires Padded(d.year, 4) == year && Padded(d.month, 2) == month && Padded(d.day, 2) == day
    ensures IsoFormat(d) == year + "-" + month + "-" + day + "T" + "00:00:00"
  {
    MidnightTime(d);
  }

  lemma SpellFirst(year: string, month: string, day: string)
    requires year == "2024" && month == "02" && day == "01"
    ensures year + "-" + month + "-" + day + "T" + "00:00:00" == "2024-02-01T00:00:00"
  {
  }

  lemma SpellSecond(year: string, month: string, day: string)
    requires year == "2024" && month == "01" && day == "15"
    ensures year + "-" + month + "-" + day + "T" + "00:00:00" == "2024-01-15T00:00:00"
  {
  }

  /** The rendering of the two example dates. */
  lemma ExampleRendering(first: DateTime, second: DateTime)
    requires first == DateTime(2024, 2, 1, 0, 0, 0) && second == DateTime(2024, 1, 15, 0, 0, 0)
    ensures IsoFormat(first) == "2024-02-01T00:00:00"
    ensures IsoFormat(second) == "2024-01-15T00:00:00"
  {
    Padded2024();
    PaddedSmall(1);
    PaddedSmall(2);
    Padded15();
    MidnightIsoFormat(first, "2024", "02", "01");
    SpellFirst("2024", "02", "01");
    MidnightIsoFormat(second, "2024", "01", "15");
    SpellSecond("2024", "01", "15");
  }

  /** "01/15/2024" has no fifteenth month, so the day-first format fails
      and the month-first one reads it. */
  lemma MonthFirstFallbackExample(s: string)
    requires s == "01/15/2024"
    ensures PostedDate(s, StrictStrptime) == Some("2024-01-15T00:00:00")
  {
    assert Trimmed(s);
    assert IsoDate(s) == None;
    TwoDigits(s[..2]);
    TwoDigits(s[3..5]);
    FourDigits(s[6..]);
    assert StrictStrptime(s, DaySlashMonth) == None;
    assert StrictStrptime(s, MonthSlashDay) == Some(DateTime(2024, 1, 15, 0, 0, 0));
    assert Formats[1..][1..][0] == MonthSlashDay;
    assert FirstMatch(Formats[1..][1..], s, StrictStrptime) == Some(DateTime(2024, 1, 15, 0, 0, 0));
    assert FirstMatch(Formats[1..], s, StrictStrptime) == Some(DateTime(2024, 1, 15, 0, 0, 0));
    assert FirstMatch(Formats, s, StrictStrptime) == Some(DateTime(2024, 1, 15, 0, 0, 0));
    ExampleRendering(DateTime(2024, 2, 1, 0, 0, 0), DateTime(2024, 1, 15, 0, 0, 0));
  }

  // ---------------------------------------------------------------------
  // Rendering and reading back

  /** Decimal `n` needs at most as many digits as the power of ten above it. */
  lemma {:induction false} NatToStringLength(n: nat, width: nat, bound: nat)
    requires width >= 1 && bound == Power10(width) && n < bound
    ensures |NatToString(n)| <= width
    decreases width
  {
    if n >= 10 {
      NatToStringLength(n / 10, width - 1, Power10(width - 1));
    }
  }

  function Power10(k: nat): (r: nat)
    ensures r >= 1
  {
    if k == 0 then 1 else 10 * Power10(k - 1)
  }

  /** A field below `10^width` renders in exactly `width` digits and reads
      back as itself. */
  lemma PaddedField(n: nat, width: nat)
    requires width >= 1 && n < Power10(width)
    ensures |Padded(n, width)| == width
    ensures Number(Padded(n, width)) == Some(n)
  {
    NatToStringLength(n, width, Power10(width));
  }

  /** The time part of a date-time at midnight is `00:00:00`. */
  lemma MidnightTime(d: DateTime)
    requires d.hour == 0 && d.minute == 0 && d.second == 0
    ensures TimePart(d) == "00:00:00"
  {
    assert Padded(0, 2) == Zeros(1) + "0";
    assert Zeros(1) == "0";
  }

  /** The positions of the three fields of `a x b y c`. */
  lemma ThreeFields(a: string, x: char, b: string, y: char, c: string)
    ensures var t := a + [x] + b + [y] + c;
      |t| == |a| + |b| + |c| + 2 && t[..|a|] == a && t[|a|] == x
      && t[|a| + 1..|a| + 1 + |b|] == b && t[|a| + 1 + |b|] == y && t[|a| + 2 + |b|..] == c
  {
  }

  /** `isoformat()` of a valid date-time is 19 characters; at midnight it
      ends in `T00:00:00`. */
  lemma IsoFormatShape(d: DateTime)
    requires ValidDateTime(d)
    ensures |IsoFormat(d)| == 19 && IsoFormat(d)[..10] == DatePart(d)
    ensures d.hour == 0 && d.minute == 0 && d.second == 0 ==> IsoFormat(d)[10..] == "T00:00:00"
  {
    DateShape(d);
    TimeShape(d);
    Glued(DatePart(d), 'T', TimePart(d));
    if d.hour == 0 && d.minute == 0 && d.second == 0 {
      MidnightTime(d);
      MidnightSuffix(DatePart(d), TimePart(d));
    }
  }

  lemma MidnightSuffix(date: string, time: string)
    requires time == "00:00:00"
    ensures (date + "T" + time)[|date|..] == "T00:00:00"
  {
    assert (date + "T" + time)[|date|..] == "T" + time;
  }

  /** The two sides of `a x b`. */
  lemma Glued(a: string, x: char, b: string)
    ensures var t := a + [x] + b; |t| == |a| + 1 + |b| && t[..|a|] == a && t[|a|..] == [x] + b && t[|a| + 1..] == b
  {
  }

  /** Reading a `YYYY-MM-DD` text whose fields are known. */
  lemma ReadDate(t: string, year: nat, month: nat, day: nat)
    requires |t| == 10 && t[4] == '-' && t[7] == '-'
    requires Number(t[..4]) == Some(year) && Number(t[5..7]) == Some(month) && Number(t[8..]) == Some(day)
    requires ValidDateTime(DateTime(year, month, day, 0, 0, 0))
    ensures IsoDate(t) == Some(DateTime(year, month, day, 0, 0, 0))
  {
  }

  /** The date part: a four-digit year, then two-digit month and day. */
  lemma DateShape(d: DateTime)
    requires ValidDateTime(d)
    ensures var t := DatePart(d);
      |t| == 10 && t[4] == '-' && t[7] == '-' && Number(t[..4]) == Some(d.year)
      && Number(t[5..7]) == Some(d.month) && Number(t[8..]) == Some(d.day)
  {
    PaddedField(d.year, 4);
    PaddedField(d.month, 2);
    PaddedField(d.day, 2);
    ThreeFields(Padded(d.year, 4), '-', Padded(d.month, 2), '-', Padded(d.day, 2));
  }

  /** The time part: three two-digit fields. */
  lemma TimeShape(d: DateTime)
    requires ValidDateTime(d)
    ensures var t := TimePart(d);
      |t| == 8 && t[2] == ':' && t[5] == ':' && Number(t[..2]) == Some(d.hour)
      && Number(t[3..5]) == Some(d.minute) && Number(t[6..]) == Some(d.second)
  {
    PaddedField(d.hour, 2);
    PaddedField(d.minute, 2);
    PaddedField(d.second, 2);
    ThreeFields(Padded(d.hour, 2), ':', Padded(d.minute, 2), ':', Padded(d.second, 2));
  }

  /** The strict `%Y-%m-%d` reads back the date part of any valid
      date-time, at midnight. */
  lemma DateRoundTrip(d: DateTime)
    requires ValidDateTime(d)
    ensures IsoDate(DatePart(d)) == Some(DateTime(d.year, d.month, d.day, 0, 0, 0))
  {
    DateShape(d);
    ReadDate(DatePart(d), d.year, d.month, d.day);
  }

  /** The strict `%Y-%m-%d %H:%M:%S` reads back any valid date-time written
      with a space between its date and time parts. */
  lemma DateTimeRoundTrip(d: DateTime)
    requires ValidDateTime(d)
    ensures IsoDateTime(DatePart(d) + " " + TimePart(d)) == Some(d)
  {
    DateShape(d);
    DateRoundTrip(d);
    TimeShape(d);
    ReadTime(TimePart(d), d.hour, d.minute, d.second);
    ReadDateTime(DatePart(d), TimePart(d), d);
  }

  /** Reading an `HH:MM:SS` text whose fields are known. */
  lemma ReadTime(t: string, hour: nat, minute: nat, second: nat)
    requires |t| == 8 && t[2] == ':' && t[5] == ':'
    requires Number(t[..2]) == Some(hour) && Number(t[3..5]) == Some(minute) && Number(t[6..]) == Some(second)
    ensures ClockTime(t) == Some((hour, minute, second))
  {
  }

  /** Reading a `YYYY-MM-DD HH:MM:SS` text whose parts are known. */
  lemma ReadDateTime(date: string, time: string, d: DateTime)
    requires ValidDateTime(d) && |date| == 10 && |time| == 8
    requires IsoDate(date) == Some(DateTime(d.year, d.month, d.day, 0, 0, 0))
    requires ClockTime(time) == Some((d.hour, d.minute, d.second))
    ensures IsoDateTime(date + " " + time) == Some(d)
  {
    Glued(date, ' ', time);
  }
}
