/**
 * Calendar days and their "dd/MM/yyyy" rendering (date-fns `format` with that
 * pattern): day and month zero-padded to two digits, the year to at least four.
 */
module Dates {
  import opened Numerals

  datatype CalendarDate = CalendarDate(day: nat, month: nat, year: nat)

  /** A day the calendar widget can produce, in the Common Era (date-fns prints the
      era year for `yyyy`, so year 0 would render as year 1 and is excluded). */
  predicate IsCalendarDay(d: CalendarDate) {
    1 <= d.day <= 31 && 1 <= d.month <= 12 && 1 <= d.year
  }

  /** A number rendered in decimal and zero-padded to `width` digits. */
  function Field(n: nat, width: nat): string {
    ZeroPad(NatDigits(n), width)
  }

  /** format(date, 'dd/MM/yyyy'): for a calendar day, two digits of day, a slash,
      two digits of month, a slash, and the year in at least four digits. */
  function FormatDate(d: CalendarDate): (r: string)
    ensures IsCalendarDay(d) ==> |r| >= 10 && r[2] == '/' && r[5] == '/'
  {
    var x1, x2, x3 := Field(d.day, 2), Field(d.month, 2), Field(d.year, 4);
    if IsCalendarDay(d) then
      TwoDigitFieldLength(d.day);
      TwoDigitFieldLength(d.month);
      SlashPositions(x1, x2, x3);
      x1 + "/" + x2 + "/" + x3
    else
      x1 + "/" + x2 + "/" + x3
  }

  /** A padded field reads back as the number it renders. */
  lemma FieldValue(n: nat, width: nat)
    ensures AllDigitsIn(Field(n, width), 10)
    ensures ValueIn(Field(n, width), 10) == n
  {
    NatDigitsValue(n);
    ZeroPadValue(NatDigits(n), width, 10);
  }

  /** Below 100, a two-digit field is exactly two characters. */
  lemma TwoDigitFieldLength(n: nat)
    requires n < 100
    ensures |Field(n, 2)| == 2
  {
  }

  /** Splitting "x1/x2/x3" with two-character x1 and x2 recovers the three parts. */
  lemma SplitSlashes(x1: string, x2: string, x3: string, y1: string, y2: string, y3: string)
    requires |x1| == |y1| == 2 && |x2| == |y2| == 2
    requires x1 + "/" + x2 + "/" + x3 == y1 + "/" + y2 + "/" + y3
    ensures x1 == y1 && x2 == y2 && x3 == y3
  {
    var s := x1 + "/" + x2 + "/" + x3;
    var r := y1 + "/" + y2 + "/" + y3;
    assert s[..2] == x1 && r[..2] == y1;
    assert s[3..5] == x2 && r[3..5] == y2;
    assert s[6..] == x3 && r[6..] == y3;
  }

  /** Two calendar days never share a rendering: the dd/MM/yyyy string determines the day. */
  lemma FormatDateInjective(a: CalendarDate, b: CalendarDate)
    requires IsCalendarDay(a) && IsCalendarDay(b)
    requires FormatDate(a) == FormatDate(b)
    ensures a == b
  {
    TwoDigitFieldLength(a.day);
    TwoDigitFieldLength(a.month);
    TwoDigitFieldLength(b.day);
    TwoDigitFieldLength(b.month);
    SplitSlashes(Field(a.day, 2), Field(a.month, 2), Field(a.year, 4),
                 Field(b.day, 2), Field(b.month, 2), Field(b.year, 4));
    FieldValue(a.day, 2);
    FieldValue(b.day, 2);
    FieldValue(a.month, 2);
    FieldValue(b.month, 2);
    FieldValue(a.year, 4);
    FieldValue(b.year, 4);
  }

  /** For a four-digit year the rendering is exactly ten characters, with '/' at 2 and 5. */
  lemma FormatDateShape(d: CalendarDate)
    requires IsCalendarDay(d) && d.year < 10000
    ensures |FormatDate(d)| == 10
    ensures FormatDate(d)[2] == '/' && FormatDate(d)[5] == '/'
  {
    var x1, x2, x3 := Field(d.day, 2), Field(d.month, 2), Field(d.year, 4);
    TwoDigitFieldLength(d.day);
    TwoDigitFieldLength(d.month);
    YearFieldLength(d.year);
    SlashPositions(x1, x2, x3);
  }

  /** Below 10000, the year field is exactly four characters. */
  lemma YearFieldLength(n: nat)
    requires n < 10000
    ensures |Field(n, 4)| == 4
  {
    FourDigitYear(n);
  }

  lemma SlashPositions(x1: string, x2: string, x3: string)
    requires |x1| == 2 && |x2| == 2
    ensures |x1 + "/" + x2 + "/" + x3| == 6 + |x3|
    ensures (x1 + "/" + x2 + "/" + x3)[2] == '/' && (x1 + "/" + x2 + "/" + x3)[5] == '/'
  {
  }

  /** A year below 10000 has at most four decimal digits. */
  lemma FourDigitYear(n: nat)
    requires n < 10000
    ensures |NatDigits(n)| <= 4
  {
    if n >= 10 {
      assert |NatDigits(n / 100)| <= 2;
      assert |NatDigits(n / 10)| <= 3;
    }
  }
}
