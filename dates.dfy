/**
 * Calendar dates as the bot reads and writes them: `formatDate`, which
 * prints `DD.MM.YYYY HH:MM`, and the parse of the same format that the
 * schedule-date handler performs before it builds a Date.
 */
module Dates {
  import opened Wrappers
  import opened Strings

  /** The local calendar fields of a Date; months count from 0, as in JavaScript. */
  datatype DateFields = DateFields(year: int, month: int, day: int, hours: int, minutes: int, seconds: int, millis: int)

  /** The ranges a valid Date's getters return values in. */
  predicate IsCalendarTime(f: DateFields) {
    && 1 <= f.day <= 31 && 0 <= f.month <= 11
    && 0 <= f.hours <= 23 && 0 <= f.minutes <= 59
    && 0 <= f.seconds <= 59 && 0 <= f.millis <= 999
  }

  /** `formatDate(date)`: `DD.MM.YYYY HH:MM`, day, month, hours and minutes zero-padded, the month counted from 1. */
  function FormatDate(f: DateFields): (r: string)
    requires IsCalendarTime(f)
    ensures |r| == 12 + |IntToString(f.year)|
    ensures r[2] == '.' && r[5] == '.' && r[|r| - 6] == ' ' && r[|r| - 3] == ':'
  {
    PadTwo(f.day) + "." + PadTwo(f.month + 1) + "." + IntToString(f.year) + " " + PadTwo(f.hours) + ":" + PadTwo(f.minutes)
  }

  /** What the schedule-date handler makes of the operator's text before it compares it with the clock. */
  datatype DateInput =
    | MissingTime                    // no space: `timePart` is undefined and `timePart.split` throws
    | NotANumber                     // some field is NaN for `parseInt`: the Date becomes invalid
    | Calendar(fields: DateFields)   // the fields handed to the Date setters

  /** `parseInt(parts[i])` after array destructuring: a missing piece is `undefined`, whose `parseInt` is NaN. */
  function ParsePiece(parts: seq<string>, i: nat): Option<int> {
    if i < |parts| then ParseInt(parts[i]) else None
  }

  /**
   * The parse of `DD.MM.YYYY HH:MM`: split at spaces, the first piece at
   * dots into day, month and year, the second at colons into hours and
   * minutes; the month is decremented and seconds and milliseconds are zero.
   * Pieces beyond those are ignored.
   */
  function ParseScheduleDate(text: string): (r: DateInput)
    ensures r.MissingTime? <==> ' ' !in text
    ensures r.Calendar? ==> r.fields.seconds == 0 && r.fields.millis == 0
  {
    var parts := Split(text, ' ');
    if |parts| < 2 then MissingTime
    else
      var date := Split(parts[0], '.');
      var time := Split(parts[1], ':');
      var day, month, year := ParsePiece(date, 0), ParsePiece(date, 1), ParsePiece(date, 2);
      var hours, minutes := ParsePiece(time, 0), ParsePiece(time, 1);
      if year.None? || month.None? || day.None? || hours.None? || minutes.None? then NotANumber
      else Calendar(DateFields(year.value, month.value - 1, day.value, hours.value, minutes.value, 0, 0))
  }

  /** A digit string, possibly after a minus sign, holds no space, dot or colon. */
  lemma NumberHasNoSeparator(s: string, digits: string)
    requires AllDigits(digits)
    requires s == digits || s == "-" + digits
    ensures ' ' !in s && '.' !in s && ':' !in s
  {
    forall i | 0 <= i < |s| ensures s[i] != ' ' && s[i] != '.' && s[i] != ':' {
      if s != digits {
        if i > 0 {
          assert s[i] == digits[i - 1];
        }
      }
    }
  }

  /** Two pieces around one separator split apart again. */
  lemma SplitTwo(a: string, b: string, sep: char)
    requires sep !in a && sep !in b
    ensures Split(a + [sep] + b, sep) == [a, b]
  {
    SplitAtSeparator(a, sep, b);
    SplitWithoutSeparator(b, sep);
  }

  /** Three pieces joined by a separator split apart again. */
  lemma SplitThree(a: string, b: string, c: string, sep: char)
    requires sep !in a && sep !in b && sep !in c
    ensures Split(a + [sep] + b + [sep] + c, sep) == [a, b, c]
  {
    assert a + [sep] + b + [sep] + c == a + [sep] + (b + [sep] + c);
    SplitAtSeparator(a, sep, b + [sep] + c);
    SplitTwo(b, c, sep);
  }

  /** The year printed by `String(year)` holds no separator the parse splits at. */
  lemma YearHasNoSeparator(year: int)
    ensures var y := IntToString(year); ' ' !in y && '.' !in y && ':' !in y
  {
    if year < 0 {
      NumberHasNoSeparator(IntToString(year), NatToString(-year));
    } else {
      NumberHasNoSeparator(IntToString(year), NatToString(year));
    }
  }

  /** A zero-padded field holds no separator the parse splits at. */
  lemma PaddedHasNoSeparator(n: nat)
    ensures var d := PadTwo(n); ' ' !in d && '.' !in d && ':' !in d
  {
    NumberHasNoSeparator(PadTwo(n), PadTwo(n));
  }

  /** `formatDate` splits at its space into the date and the time part, each at its own separator. */
  lemma FormatDatePieces(f: DateFields)
    requires IsCalendarTime(f)
    ensures var parts := Split(FormatDate(f), ' ');
      && |parts| == 2
      && Split(parts[0], '.') == [PadTwo(f.day), PadTwo(f.month + 1), IntToString(f.year)]
      && Split(parts[1], ':') == [PadTwo(f.hours), PadTwo(f.minutes)]
  {
    var datePart := DatePart(f);
    var timePart := TimePart(f);
    FormatDateHalves(f);
    DatePartSplits(f);
    TimePartSplits(f);
    SplitTwo(datePart, timePart, ' ');
  }

  /** The text before the space of `formatDate`. */
  function DatePart(f: DateFields): string
    requires IsCalendarTime(f)
  {
    PadTwo(f.day) + "." + PadTwo(f.month + 1) + "." + IntToString(f.year)
  }

  /** The text after the space of `formatDate`. */
  function TimePart(f: DateFields): string
    requires IsCalendarTime(f)
  {
    PadTwo(f.hours) + ":" + PadTwo(f.minutes)
  }

  /** `formatDate` is the date part, a space and the time part. */
  lemma FormatDateHalves(f: DateFields)
    requires IsCalendarTime(f)
    ensures FormatDate(f) == DatePart(f) + [' '] + TimePart(f)
  {
  }

  /** The date part holds no space and splits at its dots into day, month and year. */
  lemma DatePartSplits(f: DateFields)
    requires IsCalendarTime(f)
    ensures ' ' !in DatePart(f)
    ensures Split(DatePart(f), '.') == [PadTwo(f.day), PadTwo(f.month + 1), IntToString(f.year)]
  {
    var dd, mm, yy := PadTwo(f.day), PadTwo(f.month + 1), IntToString(f.year);
    PaddedHasNoSeparator(f.day);
    PaddedHasNoSeparator(f.month + 1);
    YearHasNoSeparator(f.year);
    assert DatePart(f) == dd + ['.'] + mm + ['.'] + yy;
    SplitThree(dd, mm, yy, '.');
  }

  /** The time part holds no space and splits at its colon into hours and minutes. */
  lemma TimePartSplits(f: DateFields)
    requires IsCalendarTime(f)
    ensures ' ' !in TimePart(f)
    ensures Split(TimePart(f), ':') == [PadTwo(f.hours), PadTwo(f.minutes)]
  {
    var hh, mi := PadTwo(f.hours), PadTwo(f.minutes);
    PaddedHasNoSeparator(f.hours);
    PaddedHasNoSeparator(f.minutes);
    assert TimePart(f) == hh + [':'] + mi;
    SplitTwo(hh, mi, ':');
  }

  /** A zero-padded field read back by `parseInt`. */
  lemma ParsePadded(n: nat)
    ensures ParseInt(PadTwo(n)) == Some(n)
  {
    PadTwoValue(n, "");
    assert PadTwo(n) + "" == PadTwo(n);
  }

  /** The handler reads back every date `formatDate` prints, with seconds and milliseconds zeroed. */
  lemma FormatThenParse(f: DateFields)
    requires IsCalendarTime(f)
    ensures ParseScheduleDate(FormatDate(f)) == Calendar(f.(seconds := 0, millis := 0))
  {
    FormatDatePieces(f);
    var date := [PadTwo(f.day), PadTwo(f.month + 1), IntToString(f.year)];
    var time := [PadTwo(f.hours), PadTwo(f.minutes)];
    assert ParsePiece(date, 0) == Some(f.day) by {
      ParsePadded(f.day);
    }
    assert ParsePiece(date, 1) == Some(f.month + 1) by {
      ParsePadded(f.month + 1);
    }
    assert ParsePiece(date, 2) == Some(f.year) by {
      ParseIntOfString(f.year, "");
      assert IntToString(f.year) + "" == IntToString(f.year);
    }
    assert ParsePiece(time, 0) == Some(f.hours) by {
      ParsePadded(f.hours);
    }
    assert ParsePiece(time, 1) == Some(f.minutes) by {
      ParsePadded(f.minutes);
    }
    ReadFields(FormatDate(f), date, time, f.day, f.month + 1, f.year, f.hours, f.minutes);
  }

  /** Text whose pieces all read as numbers gives the Date those numbers describe. */
  lemma ReadFields(text: string, date: seq<string>, time: seq<string>, day: int, month: int, year: int, hours: int, minutes: int)
    requires |Split(text, ' ')| >= 2
    requires Split(Split(text, ' ')[0], '.') == date && Split(Split(text, ' ')[1], ':') == time
    requires ParsePiece(date, 0) == Some(day) && ParsePiece(date, 1) == Some(month) && ParsePiece(date, 2) == Some(year)
    requires ParsePiece(time, 0) == Some(hours) && ParsePiece(time, 1) == Some(minutes)
    ensures ParseScheduleDate(text) == Calendar(DateFields(year, month - 1, day, hours, minutes, 0, 0))
  {
  }

  /** The example the bot shows the operator reads as 1 February 2025, 15:30. */
  lemma ExampleDate()
    ensures ParseScheduleDate("01.02.2025 15:30") == Calendar(DateFields(2025, 1, 1, 15, 30, 0, 0))
  {
    var f := DateFields(2025, 1, 1, 15, 30, 0, 0);
    assert FormatDate(f) == "01.02.2025 15:30";
    FormatThenParse(f);
  }
}
