/**
 * The fields of a `java.time.LocalDateTime` and the fixed-width
 * `DateTimeFormatter` patterns the logging code prints them with
 * (`yyyy`, `MM`, `dd`, `HH`, `mm`, `ss`). The clock itself is never read
 * here: callers pass the date-time in.
 */
module Time {
  import opened JavaText

  datatype LocalDateTime = LocalDateTime(year: int, month: int, day: int, hour: int, minute: int, second: int)
  {
    /**
     * A date-time `LocalDateTime` can hold, with the year restricted to
     * 1..9999 so that `yyyy` prints exactly four digits and no sign.
     */
    predicate Valid()
    {
      && 1 <= year <= 9999
      && 1 <= month <= 12
      && 1 <= day <= DaysInMonth(year, month)
      && 0 <= hour <= 23
      && 0 <= minute <= 59
      && 0 <= second <= 59
    }
  }

  predicate IsLeapYear(year: int)
  {
    year % 4 == 0 && (year % 100 != 0 || year % 400 == 0)
  }

  function DaysInMonth(year: int, month: int): (n: int)
    ensures 28 <= n <= 31
  {
    if month == 2 then (if IsLeapYear(year) then 29 else 28)
    else if month == 4 || month == 6 || month == 9 || month == 11 then 30
    else 31
  }

  function Pow10(width: nat): (p: nat)
    ensures p >= 1
  {
    if width == 0 then 1 else 10 * Pow10(width - 1)
  }

  /** `n` in decimal, zero-padded on the left to exactly `width` digits. */
  function Pad(n: nat, width: nat): (r: string)
    requires n < Pow10(width)
    ensures |r| == width
    ensures AllDigits(r) && DigitsValue(r) == n
    decreases width
  {
    if width == 0 then []
    else
      var r := Pad(n / 10, width - 1) + [DigitChar(n % 10)];
      assert r[..|r| - 1] == Pad(n / 10, width - 1);
      r
  }

  /** `yyyy` + sep + `MM` + sep + `dd`. */
  function FormatDate(t: LocalDateTime, sep: char): (r: string)
    requires t.Valid()
    ensures |r| == 10 && r[4] == sep && r[7] == sep
  {
    Pad(t.year, 4) + [sep] + Pad(t.month, 2) + [sep] + Pad(t.day, 2)
  }

  /** The printed date can be read back field by field. */
  lemma FormatDateReadsBack(t: LocalDateTime, sep: char)
    requires t.Valid()
    ensures var r := FormatDate(t, sep);
      && AllDigits(r[..4]) && DigitsValue(r[..4]) == t.year
      && AllDigits(r[5..7]) && DigitsValue(r[5..7]) == t.month
      && AllDigits(r[8..]) && DigitsValue(r[8..]) == t.day
  {
    var r := FormatDate(t, sep);
    assert r[..4] == Pad(t.year, 4);
    assert r[5..7] == Pad(t.month, 2);
    assert r[8..] == Pad(t.day, 2);
  }

  /** `DateTimeFormatter.ISO_LOCAL_DATE` for a year in 1..9999. */
  function IsoLocalDate(t: LocalDateTime): (r: string)
    requires t.Valid()
    ensures |r| == 10
  {
    FormatDate(t, '-')
  }

  /** `yyyy-MM`. */
  function FormatYearMonth(t: LocalDateTime): (r: string)
    requires t.Valid()
    ensures |r| == 7 && r == IsoLocalDate(t)[..7]
  {
    Pad(t.year, 4) + "-" + Pad(t.month, 2)
  }
}
