/**
 * How the analyzer reads the first token of a line: the printed form of a
 * LocalDateTime reads back as itself, a day past the month's end is
 * clamped, 24:00:00 rolls over to the next day, and everything else out
 * of range is no timestamp at all.
 */
module TimestampProofs {
  import opened Common
  import opened Analyzer

  /** The fixed-width text `yyyy-MM-dd'T'HH:mm:ss` for the given field values. */
  function Stamp(y: nat, mo: nat, d: nat, h: nat, mi: nat, se: nat): string {
    FixedDigits(y, 4) + "-" + FixedDigits(mo, 2) + "-" + FixedDigits(d, 2)
      + "T" + FixedDigits(h, 2) + ":" + FixedDigits(mi, 2) + ":" + FixedDigits(se, 2)
  }

  /** Where each field sits in the fixed-width text. */
  lemma StampLayout(a: string, b: string, c: string, d: string, e: string, f: string)
    requires |a| == 4 && |b| == 2 && |c| == 2 && |d| == 2 && |e| == 2 && |f| == 2
    requires forall i :: 0 <= i < |a| ==> IsDigit(a[i])
    requires forall i :: 0 <= i < 2 ==> IsDigit(b[i]) && IsDigit(c[i]) && IsDigit(d[i]) && IsDigit(e[i]) && IsDigit(f[i])
    ensures var s := a + "-" + b + "-" + c + "T" + d + ":" + e + ":" + f;
      && HasTimestampShape(s)
      && s[0..4] == a && s[5..7] == b && s[8..10] == c && s[11..13] == d && s[14..16] == e && s[17..19] == f
  {
  }

  /** Reading the fixed-width text back gives the field values, when each fits its width. */
  lemma StampFields(y: nat, mo: nat, d: nat, h: nat, mi: nat, se: nat)
    requires y < 10000 && mo < 100 && d < 100 && h < 100 && mi < 100 && se < 100
    ensures var s := Stamp(y, mo, d, h, mi, se);
      && HasTimestampShape(s)
      && DigitsValue(s[0..4]) == y && DigitsValue(s[5..7]) == mo && DigitsValue(s[8..10]) == d
      && DigitsValue(s[11..13]) == h && DigitsValue(s[14..16]) == mi && DigitsValue(s[17..19]) == se
  {
    assert Pow10(4) == 10000 && Pow10(2) == 100;
    StampLayout(FixedDigits(y, 4), FixedDigits(mo, 2), FixedDigits(d, 2), FixedDigits(h, 2), FixedDigits(mi, 2), FixedDigits(se, 2));
    FixedDigitsRoundTrip(y, 4);
    FixedDigitsRoundTrip(mo, 2);
    FixedDigitsRoundTrip(d, 2);
    FixedDigitsRoundTrip(h, 2);
    FixedDigitsRoundTrip(mi, 2);
    FixedDigitsRoundTrip(se, 2);
  }

  /** A date-time printed with the pattern parses back to itself (years of four digits). */
  lemma TimestampRoundTrip(dt: DateTime)
    requires IsValid(dt) && dt.year <= 9999
    ensures ParseTimestamp(FormatTimestamp(dt)) == Some(dt)
  {
    StampFields(dt.year, dt.month, dt.day, dt.hour, dt.minute, dt.second);
    assert FormatTimestamp(dt) == Stamp(dt.year, dt.month, dt.day, dt.hour, dt.minute, dt.second);
  }

  /** A day past the end of its month (but at most 31) is read as the month's last day. */
  lemma DayClampedToMonthEnd(y: nat, mo: nat, d: nat, h: nat, mi: nat, se: nat)
    requires 1 <= y < 10000 && 1 <= mo <= 12 && DaysInMonth(y, mo) < d <= 31
    requires h <= 23 && mi <= 59 && se <= 59
    ensures ParseTimestamp(Stamp(y, mo, d, h, mi, se)) == Some(DateTime(y, mo, DaysInMonth(y, mo), h, mi, se))
  {
    StampFields(y, mo, d, h, mi, se);
  }

  /** 24:00:00 is midnight at the start of the next day, after any clamping of the day. */
  lemma EndOfDayRollsOver(y: nat, mo: nat, d: nat)
    requires 1 <= y < 10000 && 1 <= mo <= 12 && 1 <= d <= 31
    ensures var day := if d <= DaysInMonth(y, mo) then d else DaysInMonth(y, mo);
      ParseTimestamp(Stamp(y, mo, d, 24, 0, 0)) == Some(NextDay(y, mo, day))
  {
    StampFields(y, mo, d, 24, 0, 0);
  }

  /** Exactly the out-of-range fields make the token no timestamp. */
  lemma StampRejected(y: nat, mo: nat, d: nat, h: nat, mi: nat, se: nat)
    requires y < 10000 && mo < 100 && d < 100 && h < 100 && mi < 100 && se < 100
    ensures ParseTimestamp(Stamp(y, mo, d, h, mi, se)).None?
      <==> y == 0 || mo == 0 || mo > 12 || d == 0 || d > 31 || mi > 59 || se > 59 || h > 24 || (h == 24 && (mi > 0 || se > 0))
  {
    StampFields(y, mo, d, h, mi, se);
  }

  /** February 30th reads as the 29th in a leap year. */
  lemma LeapFebruaryThirtieth(y: nat, h: nat, mi: nat, se: nat)
    requires 1 <= y < 10000 && IsLeapYear(y) && h <= 23 && mi <= 59 && se <= 59
    ensures ParseTimestamp(Stamp(y, 2, 30, h, mi, se)) == Some(DateTime(y, 2, 29, h, mi, se))
  {
    DayClampedToMonthEnd(y, 2, 30, h, mi, se);
  }

  /** February 29th and 30th read as the 28th in a common year. */
  lemma CommonFebruaryEnd(y: nat, d: nat, h: nat, mi: nat, se: nat)
    requires 1 <= y < 10000 && !IsLeapYear(y) && 29 <= d <= 30 && h <= 23 && mi <= 59 && se <= 59
    ensures ParseTimestamp(Stamp(y, 2, d, h, mi, se)) == Some(DateTime(y, 2, 28, h, mi, se))
  {
    DayClampedToMonthEnd(y, 2, d, h, mi, se);
  }

  /** 24:00:00 on December 31st is New Year's midnight. */
  lemma YearEndRollsOver(y: nat)
    requires 1 <= y < 10000
    ensures ParseTimestamp(Stamp(y, 12, 31, 24, 0, 0)) == Some(DateTime(y + 1, 1, 1, 0, 0, 0))
  {
    EndOfDayRollsOver(y, 12, 31);
  }

  /** An hour of 24 with minutes or seconds, and a year of zero, are refused. */
  lemma PastMidnightAndYearZeroRefused(y: nat, mo: nat, d: nat, h: nat, mi: nat, se: nat)
    requires y < 10000 && mo < 100 && d < 100 && h < 100 && mi < 100 && se < 100
    requires y == 0 || (h == 24 && (mi > 0 || se > 0))
    ensures ParseTimestamp(Stamp(y, mo, d, h, mi, se)).None?
  {
    StampRejected(y, mo, d, h, mi, se);
  }
}
