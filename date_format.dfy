/**
 * The date format both write handlers share: `datetime.strptime(s, '%Y-%m-%d %H:%M')`
 * to read a request's date and `strftime('%Y-%m-%d %H:%M')` to print a stored one.
 *
 * strptime compiles the format to a regular expression, one group per directive:
 *   %Y  four digits
 *   %m  1[0-2] | 0[1-9] | [1-9]
 *   %d  3[01] | [12]digit | 0[1-9] | [1-9] | ' '[1-9]
 *   %H  2[0-3] | [0-1]digit | digit
 *   %M  [0-5]digit | digit
 * with each blank of the format replaced by "one or more whitespace characters".
 * The match must consume the whole string (otherwise "unconverted data remains"),
 * and the resulting fields must form a real date (year at least 1, day within
 * its month). Every group but the last is followed by a non-digit ('-', blank,
 * ':'), so each group's numeral is the whole run of digits in its place, and the
 * first match the regular expression finds is the full one whenever there is a
 * full one; the parser below reads the runs directly.
 */
module DateFormat {
  import opened Wrappers

  /** A naive timestamp of minute precision; the seconds strptime fills in are always zero. */
  datatype DateTime = DateTime(year: int, month: int, day: int, hour: int, minute: int)

  predicate IsLeapYear(year: int) {
    year % 4 == 0 && (year % 100 != 0 || year % 400 == 0)
  }

  function DaysInMonth(year: int, month: int): int
    requires 1 <= month <= 12
  {
    if month == 2 then (if IsLeapYear(year) then 29 else 28)
    else if month == 4 || month == 6 || month == 9 || month == 11 then 30
    else 31
  }

  /** The ranges the format's fields can be written in: four-digit year, day up to 31. */
  predicate Fits(d: DateTime) {
    && 0 <= d.year <= 9999
    && 1 <= d.month <= 12
    && 1 <= d.day <= 31
    && 0 <= d.hour <= 23
    && 0 <= d.minute <= 59
  }

  /** The range `datetime` accepts. */
  predicate Valid(d: DateTime) {
    Fits(d) && 1 <= d.year && d.day <= DaysInMonth(d.year, d.month)
  }

  // ---------------------------------------------------------------- characters

  predicate IsDigit(c: char) { '0' <= c <= '9' }

  function DigitValue(c: char): int
    requires IsDigit(c)
  {
    c as int - '0' as int
  }

  function DigitChar(n: int): char
    requires 0 <= n <= 9
  {
    ('0' as int + n) as char
  }

  /** What `\s` matches in a str pattern: the characters for which str.isspace() holds. */
  predicate IsSpace(c: char) {
    || c == ' '
    || '\t' <= c <= '\r'
    || '\U{1c}' <= c <= '\U{1f}'
    || c == '\U{85}' || c == '\U{a0}' || c == '\U{1680}'
    || '\U{2000}' <= c <= '\U{200a}'
    || c == '\U{2028}' || c == '\U{2029}' || c == '\U{202f}' || c == '\U{205f}' || c == '\U{3000}'
  }

  /** Length of the run of digits at the head of `s`. */
  function DigitRun(s: string): (n: nat)
    ensures n <= |s|
    ensures forall i :: 0 <= i < n ==> IsDigit(s[i])
    ensures n < |s| ==> !IsDigit(s[n])
  {
    if s != [] && IsDigit(s[0]) then 1 + DigitRun(s[1..]) else 0
  }

  /** Length of the run of whitespace at the head of `s`. */
  function SpaceRun(s: string): (n: nat)
    ensures n <= |s|
    ensures forall i :: 0 <= i < n ==> IsSpace(s[i])
    ensures n < |s| ==> !IsSpace(s[n])
  {
    if s != [] && IsSpace(s[0]) then 1 + SpaceRun(s[1..]) else 0
  }

  // ---------------------------------------------------------------- parsing

  /** A numeral read from the head of the input, and how many characters it took. */
  datatype Field = Field(value: int, width: nat)

  /** A one- or two-digit numeral that fills the whole run of digits at the head of `s`. */
  function Numeral(s: string): (r: Option<Field>)
    ensures r.Some? ==> r.value.width == DigitRun(s) && 1 <= r.value.width <= 2
    ensures r.Some? ==> 0 <= r.value.value <= 99
    ensures r.Some? && r.value.width == 1 ==> r.value.value <= 9
  {
    var n := DigitRun(s);
    if n == 1 then Some(Field(DigitValue(s[0]), 1))
    else if n == 2 then Some(Field(10 * DigitValue(s[0]) + DigitValue(s[1]), 2))
    else None
  }

  /** The day directive also takes a blank followed by one digit from 1 to 9. */
  function DayNumeral(s: string): (r: Option<Field>)
    ensures r.Some? ==> 1 <= r.value.width <= |s| && r.value.width <= 2 && 0 <= r.value.value <= 99
  {
    if 2 <= |s| && s[0] == ' ' && IsDigit(s[1]) && s[1] != '0' then Some(Field(DigitValue(s[1]), 2))
    else Numeral(s)
  }

  /** `datetime.strptime(text, '%Y-%m-%d %H:%M')`; None where it raises ValueError. */
  function ParseDate(text: string): (r: Option<DateTime>)
    ensures r.Some? ==> Valid(r.value)
  {
    if DigitRun(text) == 4 && 4 < |text| && text[4] == '-'
    then ParseMonth(YearValue(text), text[5..])
    else None
  }

  /** The value of the four digits at the head of `text`. */
  function YearValue(text: string): (year: int)
    requires 4 <= |text| && forall i :: 0 <= i < 4 ==> IsDigit(text[i])
    ensures 0 <= year <= 9999
  {
    1000 * DigitValue(text[0]) + 100 * DigitValue(text[1]) + 10 * DigitValue(text[2]) + DigitValue(text[3])
  }

  function ParseMonth(year: int, s: string): (r: Option<DateTime>)
    requires 0 <= year <= 9999
    ensures r.Some? ==> Valid(r.value) && r.value.year == year
  {
    match Numeral(s)
    case None => None
    case Some(m) =>
      if 1 <= m.value <= 12 && m.width < |s| && s[m.width] == '-'
      then ParseDay(year, m.value, s[m.width + 1..])
      else None
  }

  function ParseDay(year: int, month: int, s: string): (r: Option<DateTime>)
    requires 0 <= year <= 9999 && 1 <= month <= 12
    ensures r.Some? ==> Valid(r.value) && r.value.year == year && r.value.month == month
  {
    match DayNumeral(s)
    case None => None
    case Some(d) =>
      var gap := SpaceRun(s[d.width..]);
      if 1 <= d.value <= 31 && 0 < gap
      then ParseHour(year, month, d.value, s[d.width + gap..])
      else None
  }

  function ParseHour(year: int, month: int, day: int, s: string): (r: Option<DateTime>)
    requires 0 <= year <= 9999 && 1 <= month <= 12 && 1 <= day <= 31
    ensures r.Some? ==> Valid(r.value) && r.value.year == year && r.value.month == month && r.value.day == day
  {
    match Numeral(s)
    case None => None
    case Some(h) =>
      if h.value <= 23 && h.width < |s| && s[h.width] == ':'
      then ParseMinute(year, month, day, h.value, s[h.width + 1..])
      else None
  }

  /** The minute is the last group: whatever follows it is "unconverted data". */
  function ParseMinute(year: int, month: int, day: int, hour: int, s: string): (r: Option<DateTime>)
    requires 0 <= year <= 9999 && 1 <= month <= 12 && 1 <= day <= 31 && 0 <= hour <= 23
    ensures r.Some? ==> Valid(r.value) && r.value.year == year && r.value.month == month && r.value.day == day
    ensures r.Some? ==> r.value.hour == hour
  {
    match Numeral(s)
    case None => None
    case Some(m) =>
      if m.value <= 59 && m.width == |s| then MakeDate(year, month, day, hour, m.value) else None
  }

  /** The range checks of `datetime` itself, which strptime reports as the same ValueError. */
  function MakeDate(year: int, month: int, day: int, hour: int, minute: int): (r: Option<DateTime>)
    requires 0 <= year <= 9999 && 1 <= month <= 12 && 1 <= day <= 31 && 0 <= hour <= 23 && 0 <= minute <= 59
    ensures r.Some? <==> 1 <= year && day <= DaysInMonth(year, month)
    ensures r.Some? ==> Valid(r.value) && r.value == DateTime(year, month, day, hour, minute)
  {
    if 1 <= year && day <= DaysInMonth(year, month)
    then Some(DateTime(year, month, day, hour, minute))
    else None
  }

  // ---------------------------------------------------------------- printing

  function TwoDigits(n: int): string
    requires 0 <= n <= 99
  {
    [DigitChar(n / 10), DigitChar(n % 10)]
  }

  /** A month, hour or minute as written: zero-padded, or bare when below ten and not padded. */
  function NumeralText(n: int, padded: bool): string
    requires 0 <= n <= 99
  {
    if n < 10 && !padded then [DigitChar(n)] else TwoDigits(n)
  }

  function YearText(year: int): string
    requires 0 <= year <= 9999
  {
    [DigitChar(year / 1000), DigitChar(year / 100 % 10), DigitChar(year / 10 % 10), DigitChar(year % 10)]
  }

  /** How a day below ten is written: '5', '05' or ' 5'. */
  datatype DayStyle = Bare | ZeroPadded | SpacePadded

  function DayText(day: int, style: DayStyle): string
    requires 1 <= day <= 31
  {
    if day >= 10 then TwoDigits(day)
    else match style
      case Bare => [DigitChar(day)]
      case ZeroPadded => TwoDigits(day)
      case SpacePadded => [' ', DigitChar(day)]
  }

  /** The freedom a string accepted by strptime has: padding of each field and the blank between date and time. */
  datatype Layout = Layout(padMonth: bool, dayStyle: DayStyle, gap: string, padHour: bool, padMinute: bool)

  predicate IsGap(gap: string) {
    |gap| > 0 && forall i :: 0 <= i < |gap| ==> IsSpace(gap[i])
  }

  function Render(d: DateTime, layout: Layout): string
    requires Fits(d)
  {
    YearText(d.year) + "-" + NumeralText(d.month, layout.padMonth) + "-" + DayText(d.day, layout.dayStyle)
    + layout.gap + NumeralText(d.hour, layout.padHour) + ":" + NumeralText(d.minute, layout.padMinute)
  }

  /** What strftime('%Y-%m-%d %H:%M') writes: every field zero-padded, one blank. */
  const Strftime := Layout(true, ZeroPadded, " ", true, true)

  function FormatDate(d: DateTime): (s: string)
    requires Valid(d)
  {
    Render(d, Strftime)
  }

  /**
   * strftime('%Y-%m-%d %H:%M') as the GNU C library writes it: there %Y has no leading
   * zeros, so years 1 to 999 come out with fewer than four digits.
   */
  function GlibcFormatDate(d: DateTime): string
    requires Valid(d)
  {
    GlibcYearText(d.year) + "-" + TwoDigits(d.month) + "-" + TwoDigits(d.day) + " "
    + TwoDigits(d.hour) + ":" + TwoDigits(d.minute)
  }

  function GlibcYearText(year: int): string
    requires 1 <= year <= 9999
  {
    if year >= 1000 then YearText(year)
    else if year >= 100 then [DigitChar(year / 100), DigitChar(year / 10 % 10), DigitChar(year % 10)]
    else if year >= 10 then [DigitChar(year / 10), DigitChar(year % 10)]
    else [DigitChar(year)]
  }

  // ---------------------------------------------------------------- lemmas

  lemma {:induction false} DigitRunOfDigits(a: string, b: string)
    requires forall i :: 0 <= i < |a| ==> IsDigit(a[i])
    requires b == [] || !IsDigit(b[0])
    ensures DigitRun(a + b) == |a|
  {
    if a != [] {
      assert (a + b)[1..] == a[1..] + b;
      DigitRunOfDigits(a[1..], b);
    } else {
      assert a + b == b;
    }
  }

  lemma {:induction false} SpaceRunOfGap(a: string, b: string)
    requires forall i :: 0 <= i < |a| ==> IsSpace(a[i])
    requires b == [] || !IsSpace(b[0])
    ensures SpaceRun(a + b) == |a|
  {
    if a != [] {
      assert (a + b)[1..] == a[1..] + b;
      SpaceRunOfGap(a[1..], b);
    } else {
      assert a + b == b;
    }
  }

  lemma NumeralTextDigits(n: int, padded: bool)
    requires 0 <= n <= 99
    ensures var s := NumeralText(n, padded);
      1 <= |s| <= 2 && (forall i :: 0 <= i < |s| ==> IsDigit(s[i]))
      && (|s| == 1 ==> DigitValue(s[0]) == n)
      && (|s| == 2 ==> 10 * DigitValue(s[0]) + DigitValue(s[1]) == n)
  {
  }

  lemma NumeralOfText(n: int, padded: bool, rest: string)
    requires 0 <= n <= 99
    requires rest == [] || !IsDigit(rest[0])
    ensures var s := NumeralText(n, padded);
      Numeral(s + rest) == Some(Field(n, |s|)) && (s + rest)[|s|..] == rest
  {
    var s := NumeralText(n, padded);
    NumeralTextDigits(n, padded);
    DigitRunOfDigits(s, rest);
    assert (s + rest)[0] == s[0];
    if |s| == 2 {
      assert (s + rest)[1] == s[1];
    }
  }

  lemma Regroup(a: string, b: string, c: string, d: string, e: string)
    ensures a + b + (c + d + e) == a + b + c + d + e
  {
  }

  lemma MinuteStage(year: int, month: int, day: int, hour: int, minute: int, padded: bool)
    requires 0 <= year <= 9999 && 1 <= month <= 12 && 1 <= day <= 31
    requires 0 <= hour <= 23 && 0 <= minute <= 59
    ensures ParseMinute(year, month, day, hour, NumeralText(minute, padded))
            == MakeDate(year, month, day, hour, minute)
  {
    NumeralOfText(minute, padded, []);
    assert NumeralText(minute, padded) + [] == NumeralText(minute, padded);
  }

  lemma HourStage(year: int, month: int, day: int, hour: int, padded: bool, tail: string)
    requires 0 <= year <= 9999 && 1 <= month <= 12 && 1 <= day <= 31 && 0 <= hour <= 23
    ensures ParseHour(year, month, day, NumeralText(hour, padded) + ":" + tail)
            == ParseMinute(year, month, day, hour, tail)
  {
    var s := NumeralText(hour, padded);
    NumeralOfText(hour, padded, ":" + tail);
    assert s + ":" + tail == s + (":" + tail);
    assert (s + ":" + tail)[|s| + 1..] == tail;
  }

  /** A day written in any style, followed by a non-digit, reads back as that day. */
  lemma DayNumeralOfText(day: int, style: DayStyle, rest: string)
    requires 1 <= day <= 31 && rest != [] && !IsDigit(rest[0])
    ensures var t := DayText(day, style);
      DayNumeral(t + rest) == Some(Field(day, |t|)) && (t + rest)[|t|..] == rest
  {
    var t := DayText(day, style);
    if day < 10 && style == SpacePadded {
      assert (t + rest)[0] == ' ' && (t + rest)[1] == DigitChar(day);
    } else {
      assert t == NumeralText(day, style != Bare);
      NumeralOfText(day, style != Bare, rest);
      assert (t + rest)[0] == t[0];
    }
  }

  /** The blank between date and time is read whole, up to the hour's first digit. */
  lemma GapOfText(gap: string, tail: string)
    requires IsGap(gap) && tail != [] && IsDigit(tail[0])
    ensures SpaceRun(gap + tail) == |gap| && (gap + tail)[|gap|..] == tail
  {
    SpaceRunOfGap(gap, tail);
  }

  lemma DayStage(year: int, month: int, day: int, style: DayStyle, gap: string, tail: string)
    requires 0 <= year <= 9999 && 1 <= month <= 12 && 1 <= day <= 31
    requires IsGap(gap) && tail != [] && IsDigit(tail[0])
    ensures ParseDay(year, month, DayText(day, style) + gap + tail) == ParseHour(year, month, day, tail)
  {
    var t := DayText(day, style);
    var s := t + gap + tail;
    assert s == t + (gap + tail);
    assert (gap + tail)[0] == gap[0];
    DayNumeralOfText(day, style, gap + tail);
    GapOfText(gap, tail);
    assert s[|t| + |gap|..] == tail;
  }

  lemma MonthStage(year: int, month: int, padded: bool, tail: string)
    requires 0 <= year <= 9999 && 1 <= month <= 12
    ensures ParseMonth(year, NumeralText(month, padded) + "-" + tail) == ParseDay(year, month, tail)
  {
    var s := NumeralText(month, padded);
    NumeralOfText(month, padded, "-" + tail);
    assert s + "-" + tail == s + ("-" + tail);
    assert (s + "-" + tail)[|s| + 1..] == tail;
  }

  lemma YearTextDigits(year: int)
    requires 0 <= year <= 9999
    ensures var y := YearText(year);
      |y| == 4 && (forall i :: 0 <= i < 4 ==> IsDigit(y[i]))
      && 1000 * DigitValue(y[0]) + 100 * DigitValue(y[1]) + 10 * DigitValue(y[2]) + DigitValue(y[3]) == year
  {
    var a, b, c, d := year / 1000, year / 100 % 10, year / 10 % 10, year % 10;
    assert year / 100 == 10 * a + b;
    assert year / 10 == 10 * (year / 100) + c;
    assert year == 10 * (year / 10) + d;
  }

  lemma YearTextOfDigits(text: string)
    requires 4 <= |text| && forall i :: 0 <= i < 4 ==> IsDigit(text[i])
    ensures YearText(YearValue(text)) == text[..4]
  {
    var a, b, c, d := DigitValue(text[0]), DigitValue(text[1]), DigitValue(text[2]), DigitValue(text[3]);
    var year := YearValue(text);
    assert year == 1000 * a + 100 * b + 10 * c + d;
    assert year / 10 == 100 * a + 10 * b + c && year % 10 == d;
    assert year / 100 == 10 * a + b && year / 100 % 10 == b;
    assert year / 10 % 10 == c;
    assert year / 1000 == a;
  }

  lemma YearStage(year: int, tail: string)
    requires 0 <= year <= 9999
    ensures ParseDate(YearText(year) + "-" + tail) == ParseMonth(year, tail)
  {
    var y := YearText(year);
    var s := y + "-" + tail;
    YearTextDigits(year);
    assert s == y + ("-" + tail);
    DigitRunOfDigits(y, "-" + tail);
    assert s[4] == '-';
    assert s[5..] == tail;
    assert s[0] == y[0] && s[1] == y[1] && s[2] == y[2] && s[3] == y[3];
    assert YearValue(s) == year;
  }

  /**
   * Every way of writing a date that the format allows reads back as that date when it
   * exists, and is rejected when it does not (year 0000, 30 February).
   */
  lemma RenderParses(d: DateTime, layout: Layout)
    requires Fits(d) && IsGap(layout.gap)
    ensures ParseDate(Render(d, layout)) == if Valid(d) then Some(d) else None
  {
    var minute := NumeralText(d.minute, layout.padMinute);
    var hourPart := NumeralText(d.hour, layout.padHour) + ":" + minute;
    var dayPart := DayText(d.day, layout.dayStyle) + layout.gap + hourPart;
    var monthPart := NumeralText(d.month, layout.padMonth) + "-" + dayPart;
    assert Render(d, layout) == YearText(d.year) + "-" + monthPart;
    YearStage(d.year, monthPart);
    MonthStage(d.year, d.month, layout.padMonth, dayPart);
    NumeralTextDigits(d.hour, layout.padHour);
    DayStage(d.year, d.month, d.day, layout.dayStyle, layout.gap, hourPart);
    HourStage(d.year, d.month, d.day, d.hour, layout.padHour, minute);
    MinuteStage(d.year, d.month, d.day, d.hour, d.minute, layout.padMinute);
  }

  /** The date strftime writes is the date strptime reads back (the update handler relies on it). */
  lemma FormatParseRoundTrip(d: DateTime)
    requires Valid(d)
    ensures ParseDate(FormatDate(d)) == Some(d)
    ensures |FormatDate(d)| == 16
  {
    RenderParses(d, Strftime);
  }

  /** The text a numeral came from is that numeral written with or without padding. */
  lemma NumeralShape(s: string) returns (padded: bool)
    requires Numeral(s).Some?
    ensures Numeral(s).value.width <= |s|
    ensures s[..Numeral(s).value.width] == NumeralText(Numeral(s).value.value, padded)
  {
    var f := Numeral(s).value;
    padded := f.width == 2;
    if f.width == 2 {
      var a, b := DigitValue(s[0]), DigitValue(s[1]);
      assert f.value == 10 * a + b;
      assert f.value / 10 == a && f.value % 10 == b;
    }
  }

  lemma DayShape(s: string) returns (style: DayStyle)
    requires DayNumeral(s).Some? && 1 <= DayNumeral(s).value.value <= 31
    ensures s[..DayNumeral(s).value.width] == DayText(DayNumeral(s).value.value, style)
  {
    var f := DayNumeral(s).value;
    if 2 <= |s| && s[0] == ' ' && IsDigit(s[1]) && s[1] != '0' {
      style := SpacePadded;
    } else {
      var padded := NumeralShape(s);
      style := if padded then ZeroPadded else Bare;
    }
  }

  lemma MinuteShape(year: int, month: int, day: int, hour: int, s: string) returns (padded: bool)
    requires 0 <= year <= 9999 && 1 <= month <= 12 && 1 <= day <= 31 && 0 <= hour <= 23
    requires ParseMinute(year, month, day, hour, s).Some?
    ensures s == NumeralText(ParseMinute(year, month, day, hour, s).value.minute, padded)
  {
    padded := NumeralShape(s);
    assert s[..|s|] == s;
  }

  lemma HourShape(year: int, month: int, day: int, s: string) returns (padHour: bool, padMinute: bool)
    requires 0 <= year <= 9999 && 1 <= month <= 12 && 1 <= day <= 31
    requires ParseHour(year, month, day, s).Some?
    ensures var d := ParseHour(year, month, day, s).value;
      s == NumeralText(d.hour, padHour) + ":" + NumeralText(d.minute, padMinute)
  {
    var h := Numeral(s).value;
    var rest;
    padHour, rest := NumeralThen(s);
    padMinute := MinuteShape(year, month, day, h.value, rest);
  }

  /** What ParseDay reads before handing the rest to ParseHour. */
  lemma DayUnfold(year: int, month: int, s: string)
    requires 0 <= year <= 9999 && 1 <= month <= 12
    requires ParseDay(year, month, s).Some?
    ensures DayNumeral(s).Some? && 1 <= DayNumeral(s).value.value <= 31
    ensures 0 < SpaceRun(s[DayNumeral(s).value.width..])
    ensures var w := DayNumeral(s).value.width;
      ParseDay(year, month, s) == ParseHour(year, month, DayNumeral(s).value.value, s[w + SpaceRun(s[w..])..])
  {
  }

  /** Cuts the text after the month into the day numeral, the blank and the time. */
  lemma DaySplit(s: string) returns (gap: string, rest: string)
    requires DayNumeral(s).Some? && 0 < SpaceRun(s[DayNumeral(s).value.width..])
    ensures IsGap(gap)
    ensures |gap| == SpaceRun(s[DayNumeral(s).value.width..])
    ensures rest == s[DayNumeral(s).value.width + |gap|..]
    ensures s == s[..DayNumeral(s).value.width] + (gap + rest)
  {
    var w := DayNumeral(s).value.width;
    var after := s[w..];
    var n := SpaceRun(after);
    gap := after[..n];
    rest := s[w + n..];
    CutTwice(s, w, n);
  }

  lemma CutTwice(s: string, w: nat, n: nat)
    requires w + n <= |s|
    ensures s == s[..w] + (s[w..][..n] + s[w + n..])
  {
    assert s == s[..w] + s[w..];
    assert s[w..] == s[w..][..n] + s[w + n..];
  }

  /** The text after the month as the day written in some style, a blank, and the time. */
  lemma DayThen(s: string) returns (style: DayStyle, gap: string, rest: string)
    requires DayNumeral(s).Some? && 1 <= DayNumeral(s).value.value <= 31
    requires 0 < SpaceRun(s[DayNumeral(s).value.width..])
    ensures IsGap(gap)
    ensures var w := DayNumeral(s).value.width; rest == s[w + SpaceRun(s[w..])..]
    ensures s == DayText(DayNumeral(s).value.value, style) + gap + rest
  {
    gap, rest := DaySplit(s);
    style := DayShape(s);
  }

  lemma DayPartShape(year: int, month: int, s: string) returns (style: DayStyle, gap: string, padHour: bool, padMinute: bool)
    requires 0 <= year <= 9999 && 1 <= month <= 12
    requires ParseDay(year, month, s).Some?
    ensures IsGap(gap)
    ensures var d := ParseDay(year, month, s).value;
      s == DayText(d.day, style) + gap + NumeralText(d.hour, padHour) + ":" + NumeralText(d.minute, padMinute)
  {
    DayUnfold(year, month, s);
    var rest;
    style, gap, rest := DayThen(s);
    var day := DayNumeral(s).value.value;
    padHour, padMinute := HourShape(year, month, day, rest);
    var d := ParseDay(year, month, s).value;
    Regroup(DayText(d.day, style), gap, NumeralText(d.hour, padHour), ":", NumeralText(d.minute, padMinute));
  }

  /** What ParseMonth reads before handing the rest to ParseDay. */
  lemma MonthUnfold(year: int, s: string)
    requires 0 <= year <= 9999
    requires ParseMonth(year, s).Some?
    ensures Numeral(s).Some? && 1 <= Numeral(s).value.value <= 12
    ensures Numeral(s).value.width < |s| && s[Numeral(s).value.width] == '-'
    ensures ParseMonth(year, s) == ParseDay(year, Numeral(s).value.value, s[Numeral(s).value.width + 1..])
  {
  }

  /** A numeral followed by one more character: the numeral as written, that character, and the rest. */
  lemma NumeralThen(s: string) returns (padded: bool, rest: string)
    requires Numeral(s).Some? && Numeral(s).value.width < |s|
    ensures rest == s[Numeral(s).value.width + 1..]
    ensures s == NumeralText(Numeral(s).value.value, padded) + [s[Numeral(s).value.width]] + rest
  {
    var w := Numeral(s).value.width;
    padded := NumeralShape(s);
    rest := s[w + 1..];
    CutAround(s, w);
  }

  /** The text after the year: the month as written, a dash, and what ParseDay reads. */
  lemma MonthPieces(year: int, s: string) returns (month: int, padMonth: bool, rest: string)
    requires 0 <= year <= 9999
    requires ParseMonth(year, s).Some?
    ensures 1 <= month <= 12
    ensures s == NumeralText(month, padMonth) + "-" + rest
    ensures ParseMonth(year, s) == ParseDay(year, month, rest)
  {
    MonthUnfold(year, s);
    month := Numeral(s).value.value;
    padMonth, rest := NumeralThen(s);
  }

  lemma MonthPartShape(year: int, s: string) returns (layout: Layout)
    requires 0 <= year <= 9999
    requires ParseMonth(year, s).Some?
    ensures IsGap(layout.gap)
    ensures var d := ParseMonth(year, s).value;
      YearText(year) + "-" + s == Render(d, layout)
  {
    var month, padMonth, rest := MonthPieces(year, s);
    var style, gap, padHour, padMinute := DayPartShape(year, month, rest);
    layout := Layout(padMonth, style, gap, padHour, padMinute);
    var d := ParseDay(year, month, rest).value;
    RegroupRender(YearText(d.year), NumeralText(d.month, padMonth), DayText(d.day, style), gap,
                  NumeralText(d.hour, padHour), NumeralText(d.minute, padMinute));
  }

  lemma CutAround(s: string, w: nat)
    requires w < |s|
    ensures s == s[..w] + ([s[w]] + s[w + 1..])
  {
    assert s == s[..w] + s[w..];
    assert s[w..] == [s[w]] + s[w + 1..];
  }

  lemma RegroupRender(y: string, mo: string, d: string, g: string, h: string, mi: string)
    ensures y + "-" + (mo + "-" + (d + g + h + ":" + mi)) == y + "-" + mo + "-" + d + g + h + ":" + mi
  {
  }

  /** Every string strptime accepts is some layout of the date it returns. */
  lemma ParsedIsRendered(text: string) returns (layout: Layout)
    requires ParseDate(text).Some?
    ensures IsGap(layout.gap) && Render(ParseDate(text).value, layout) == text
  {
    var year := YearValue(text);
    assert ParseDate(text) == ParseMonth(year, text[5..]);
    layout := MonthPartShape(year, text[5..]);
    YearTextOfDigits(text);
    CutAround(text, 4);
  }

  /**
   * The exact language strptime('%Y-%m-%d %H:%M') accepts: a text parses to `d` if and
   * only if `d` is a real date and the text is `d` written in one of the allowed layouts.
   */
  lemma ParseDateCharacterization(text: string, d: DateTime)
    ensures ParseDate(text) == Some(d) <==>
            Valid(d) && exists layout: Layout :: IsGap(layout.gap) && Render(d, layout) == text
  {
    if ParseDate(text) == Some(d) {
      var layout := ParsedIsRendered(text);
    }
    if Valid(d) && exists layout: Layout :: IsGap(layout.gap) && Render(d, layout) == text {
      var layout: Layout :| IsGap(layout.gap) && Render(d, layout) == text;
      RenderParses(d, layout);
    }
  }

  /**
   * Data left after a complete date is "unconverted data": appending anything that does not
   * begin with a digit (the seconds ':00', say) to an accepted string makes strptime fail.
   */
  lemma ParseRejectsTrailingData(text: string, t: string)
    requires ParseDate(text).Some? && t != [] && !IsDigit(t[0])
    ensures ParseDate(text + t) == None
  {
    var d := ParseDate(text).value;
    var layout := ParsedIsRendered(text);
    var y, mo, dd := YearText(d.year), NumeralText(d.month, layout.padMonth), DayText(d.day, layout.dayStyle);
    var h, mi := NumeralText(d.hour, layout.padHour), NumeralText(d.minute, layout.padMinute);
    var hourPart := h + ":" + (mi + t);
    var dayPart := dd + layout.gap + hourPart;
    var monthPart := mo + "-" + dayPart;
    RegroupTrailing(y, mo, dd, layout.gap, h, mi, t);
    YearStage(d.year, monthPart);
    MonthStage(d.year, d.month, layout.padMonth, dayPart);
    NumeralTextDigits(d.hour, layout.padHour);
    DayStage(d.year, d.month, d.day, layout.dayStyle, layout.gap, hourPart);
    HourStage(d.year, d.month, d.day, d.hour, layout.padHour, mi + t);
    NumeralOfText(d.minute, layout.padMinute, t);
  }

  lemma RegroupTrailing(y: string, mo: string, d: string, g: string, h: string, mi: string, t: string)
    ensures y + "-" + mo + "-" + d + g + h + ":" + mi + t == y + "-" + (mo + "-" + (d + g + (h + ":" + (mi + t))))
  {
  }

  /** strptime accepts the zero-padded form strftime writes. */
  lemma StrptimeAcceptsPadded()
    ensures ParseDate("2024-03-01 10:00") == Some(DateTime(2024, 3, 1, 10, 0))
  {
    AcceptsPaddedText();
    RenderParses(DateTime(2024, 3, 1, 10, 0), Strftime);
  }

  lemma AcceptsPaddedText()
    ensures Render(DateTime(2024, 3, 1, 10, 0), Strftime) == "2024-03-01 10:00"
  {
    assert YearText(2024) == "2024";
    assert NumeralText(3, true) == "03" && DayText(1, ZeroPadded) == "01";
    assert NumeralText(10, true) == "10" && NumeralText(0, true) == "00";
  }

  /** strptime also accepts fields without their leading zero. */
  lemma StrptimeAcceptsUnpadded()
    ensures ParseDate("2024-3-1 9:05") == Some(DateTime(2024, 3, 1, 9, 5))
  {
    var loose := Layout(false, Bare, " ", false, true);
    AcceptsUnpaddedText();
    RenderParses(DateTime(2024, 3, 1, 9, 5), loose);
  }

  lemma AcceptsUnpaddedText()
    ensures Render(DateTime(2024, 3, 1, 9, 5), Layout(false, Bare, " ", false, true)) == "2024-3-1 9:05"
  {
    assert YearText(2024) == "2024";
    assert NumeralText(3, false) == "3" && DayText(1, Bare) == "1";
    assert NumeralText(9, false) == "9" && NumeralText(5, true) == "05";
  }

  /** 29 February exists in a leap year. */
  lemma StrptimeAcceptsLeapDay()
    ensures ParseDate("2024-02-29 10:00") == Some(DateTime(2024, 2, 29, 10, 0))
  {
    AcceptsLeapDayText();
    RenderParses(DateTime(2024, 2, 29, 10, 0), Strftime);
  }

  lemma AcceptsLeapDayText()
    ensures Render(DateTime(2024, 2, 29, 10, 0), Strftime) == "2024-02-29 10:00"
  {
    assert YearText(2024) == "2024";
    assert NumeralText(2, true) == "02" && DayText(29, ZeroPadded) == "29";
    assert NumeralText(10, true) == "10" && NumeralText(0, true) == "00";
  }

  /** A seconds field is rejected (the check the create handler's comment asks for). */
  lemma StrptimeRejectsSeconds()
    ensures ParseDate("2024-03-01 10:00" + ":00") == None
  {
    StrptimeAcceptsPadded();
    ParseRejectsTrailingData("2024-03-01 10:00", ":00");
  }

  /** A day that its month does not have is rejected. */
  lemma StrptimeRejectsMissingDay()
    ensures ParseDate("2023-02-29 10:00") == None
  {
    var d := DateTime(2023, 2, 29, 10, 0);
    MissingDayText();
    RenderParses(d, Strftime);
  }

  lemma MissingDayText()
    ensures Render(DateTime(2023, 2, 29, 10, 0), Strftime) == "2023-02-29 10:00"
  {
    assert YearText(2023) == "2023";
    assert NumeralText(2, true) == "02" && DayText(29, ZeroPadded) == "29";
    assert NumeralText(10, true) == "10" && NumeralText(0, true) == "00";
  }

  /**
   * With the GNU C library's strftime, a stored date before the year 1000 does not read
   * back: the year has fewer than the four digits strptime's %Y demands.
   */
  lemma GlibcFormatBreaksRoundTrip(d: DateTime)
    requires Valid(d) && d.year < 1000
    ensures ParseDate(GlibcFormatDate(d)) == None
  {
    var y := GlibcYearText(d.year);
    var rest := "-" + TwoDigits(d.month) + "-" + TwoDigits(d.day) + " " + TwoDigits(d.hour) + ":" + TwoDigits(d.minute);
    assert GlibcFormatDate(d) == y + rest;
    assert |y| < 4 && forall i :: 0 <= i < |y| ==> IsDigit(y[i]);
    DigitRunOfDigits(y, rest);
  }
}
