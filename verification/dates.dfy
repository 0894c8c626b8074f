/** Calendar dates as the formatter reads them from a JavaScript `Date`:
    `getUTCFullYear()`, `getUTCMonth() + 1` and `getUTCDate()`.  How
    JavaScript turns a string into a `Date` is left to the engine; the model
    takes that step as a parameter of type `DateParser` and offers one
    concrete, conservative instance, `ParseIsoDate`. */
module Dates {
  import opened Wrappers
  import opened Text

  datatype Ymd = Ymd(year: int, month: int, day: int)

  /** The UTC year, month (1-12) and day of month (1-31) of a valid date.
      Years before 0 are outside the model. */
  type Date = d: Ymd | 0 <= d.year && 1 <= d.month <= 12 && 1 <= d.day <= 31
    witness Ymd(1970, 1, 1)

  /** `new Date(s)` followed by the UTC getters; `None` when the time value
      is NaN ("Invalid Date"). */
  type DateParser = string -> Option<Date>

  predicate IsLeapYear(year: int) {
    year % 4 == 0 && (year % 100 != 0 || year % 400 == 0)
  }

  /** The last day of a month in the Gregorian calendar (RFC 3339 section 5.7). */
  function DaysInMonth(year: int, month: int): (days: int)
    requires 1 <= month <= 12
    ensures 28 <= days <= 31
    ensures days == 29 <==> month == 2 && IsLeapYear(year)
    ensures days == 28 <==> month == 2 && !IsLeapYear(year)
    ensures days == 30 <==> month == 4 || month == 6 || month == 9 || month == 11
  {
    if month == 2 then (if IsLeapYear(year) then 29 else 28)
    else if month == 4 || month == 6 || month == 9 || month == 11 then 30
    else 31
  }

  /** The twelve months make up 365 days, or 366 in a leap year. */
  lemma YearLength(year: int)
    ensures DaysInMonth(year, 1) + DaysInMonth(year, 2) + DaysInMonth(year, 3) + DaysInMonth(year, 4)
          + DaysInMonth(year, 5) + DaysInMonth(year, 6) + DaysInMonth(year, 7) + DaysInMonth(year, 8)
          + DaysInMonth(year, 9) + DaysInMonth(year, 10) + DaysInMonth(year, 11) + DaysInMonth(year, 12)
         == if IsLeapYear(year) then 366 else 365
  {
  }

  /** A day that exists in the Gregorian calendar. */
  predicate IsCalendarDate(d: Ymd) {
    1 <= d.month <= 12 && 1 <= d.day <= DaysInMonth(d.year, d.month)
  }

  /** `n` decimal digits start at offset `i` of `s`. */
  predicate DigitsAt(s: string, i: nat, n: nat) {
    i + n <= |s| && AllDigits(s[i..i + n])
  }

  predicate TwoDigitsBelow(s: string, i: nat, bound: nat) {
    DigitsAt(s, i, 2) && DecimalValue(s[i..i + 2]) < bound
  }

  /** The layout of `full-date`: 4DIGIT "-" 2DIGIT "-" 2DIGIT. */
  predicate FullDateShape(s: string) {
    |s| == 10 && DigitsAt(s, 0, 4) && s[4] == '-' && DigitsAt(s, 5, 2) && s[7] == '-' && DigitsAt(s, 8, 2)
  }

  /** The year, month and day the digits of a `full-date` spell. */
  function FullDateFields(s: string): Ymd
    requires FullDateShape(s)
  {
    Ymd(DecimalValue(s[0..4]), DecimalValue(s[5..7]), DecimalValue(s[8..10]))
  }

  /** `full-date` of RFC 3339 section 5.6, with the month and day ranges of
      section 5.7: accepted exactly when the layout is right and the digits
      spell a calendar date, which is then the result. */
  function ParseFullDate(s: string): (r: Option<Date>)
    ensures r.Some? <==> FullDateShape(s) && IsCalendarDate(FullDateFields(s))
    ensures r.Some? ==> r.value == FullDateFields(s) && r.value.year <= 9999
  {
    if FullDateShape(s) then
      var year := DecimalValue(s[0..4]);
      var month := DecimalValue(s[5..7]);
      var day := DecimalValue(s[8..10]);
      assert year <= 9999 by { DecimalBelowPower(s[0..4]); }
      if 1 <= month <= 12 && 1 <= day <= DaysInMonth(year, month) then Some(Ymd(year, month, day))
      else None
    else None
  }

  /** The `full-date` text of a date: year, month and day zero-padded to
      four, two and two digits. */
  function FullDateText(d: Date): string {
    PadStart(NatToDecimal(d.year), 4, '0') + "-" + PadStart(NatToDecimal(d.month), 2, '0')
      + "-" + PadStart(NatToDecimal(d.day), 2, '0')
  }

  /** Every calendar date of years 0 to 9999 is read back from its text. */
  lemma FullDateRoundTrip(d: Date)
    requires d.year <= 9999 && IsCalendarDate(d)
    ensures ParseFullDate(FullDateText(d)) == Some(d)
  {
    var y := PadStart(NatToDecimal(d.year), 4, '0');
    var m := PadStart(NatToDecimal(d.month), 2, '0');
    var x := PadStart(NatToDecimal(d.day), 2, '0');
    PaddedDecimal(d.year, 4);
    PaddedDecimal(d.month, 2);
    PaddedDecimal(d.day, 2);
    FullDateSlices(y, m, x);
  }

  /** Where the three fields of a `full-date` text lie. */
  lemma FullDateSlices(y: string, m: string, x: string)
    requires |y| == 4 && |m| == 2 && |x| == 2
    ensures var s := y + "-" + m + "-" + x;
      |s| == 10 && s[0..4] == y && s[4] == '-' && s[5..7] == m && s[7] == '-' && s[8..10] == x
  {
    var s := y + "-" + m + "-" + x;
    assert s == (y + "-" + m + "-") + x;
    assert s == (y + "-" + m) + "-" + x;
    assert y + "-" + m == (y + "-") + m;
  }

  /** Every string the parser accepts is the text of the date it returns:
      no other spelling of a date is accepted. */
  lemma FullDateTextOfParsed(s: string)
    requires ParseFullDate(s).Some?
    ensures FullDateText(ParseFullDate(s).value) == s
  {
    FixedWidthDecimal(s[0..4]);
    FixedWidthDecimal(s[5..7]);
    FixedWidthDecimal(s[8..10]);
    assert s == s[0..4] + "-" + s[5..7] + "-" + s[8..10];
  }

  /** "T" partial-time "Z" of RFC 3339 section 5.6, with the UTC designator
      as the only offset accepted (a numeric offset can move the UTC date). */
  predicate IsUtcTime(t: string) {
    && |t| >= 10 && t[0] == 'T'
    && TwoDigitsBelow(t, 1, 24) && t[3] == ':'
    && TwoDigitsBelow(t, 4, 60) && t[6] == ':'
    && TwoDigitsBelow(t, 7, 60)
    && t[|t| - 1] == 'Z'
    && (|t| == 10 || (|t| >= 12 && t[9] == '.' && AllDigits(t[10..|t| - 1])))
  }

  /** A date alone, or a UTC date-time, in the RFC 3339 format; anything
      else is treated as unparseable. */
  function ParseIsoDate(s: string): (r: Option<Date>)
    ensures r.Some? <==> |s| >= 10 && (|s| == 10 || IsUtcTime(s[10..])) && ParseFullDate(s[..10]).Some?
    ensures r.Some? ==> r == ParseFullDate(s[..10])
  {
    if |s| < 10 then None
    else if |s| == 10 || IsUtcTime(s[10..]) then ParseFullDate(s[..10])
    else None
  }

  /** A date's text, alone or followed by a UTC time, reads back as the date. */
  lemma IsoDateRoundTrip(d: Date, time: string)
    requires d.year <= 9999 && IsCalendarDate(d)
    requires time == [] || IsUtcTime(time)
    ensures ParseIsoDate(FullDateText(d) + time) == Some(d)
  {
    FullDateRoundTrip(d);
    PaddedDecimal(d.year, 4);
    PaddedDecimal(d.month, 2);
    PaddedDecimal(d.day, 2);
    var s := FullDateText(d) + time;
    assert |FullDateText(d)| == 10;
    assert s[..10] == FullDateText(d);
    assert s[10..] == time;
  }
}
