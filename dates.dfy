/** Python's `datetime.date`: proleptic Gregorian dates with years 1 to
    9999, the `date(year, month, day)` constructor that rejects anything
    else, and the renderings `isoformat()`, `"%d-%m-%Y"` and `"%d.%m.%Y"`. */
module Dates {
  import opened Wrappers
  import opened Numerals

  datatype Date = Date(year: int, month: int, day: int)

  /** `datetime.MINYEAR` and `datetime.MAXYEAR`. */
  const MinYear := 1
  const MaxYear := 9999

  predicate IsLeapYear(y: int) {
    (y % 4 == 0 && y % 100 != 0) || y % 400 == 0
  }

  function DaysInMonth(y: int, m: int): (n: int)
    requires 1 <= m <= 12
    ensures 28 <= n <= 31
  {
    if m == 2 then (if IsLeapYear(y) then 29 else 28)
    else if m == 4 || m == 6 || m == 9 || m == 11 then 30
    else 31
  }

  /** The values `date(y, m, d)` accepts. */
  predicate IsValidDate(d: Date) {
    MinYear <= d.year <= MaxYear && 1 <= d.month <= 12 && 1 <= d.day <= DaysInMonth(d.year, d.month)
  }

  /** `date(y, m, d)`: `None` stands for the ValueError it raises. */
  function MakeDate(y: int, m: int, d: int): (r: Option<Date>)
    ensures r.Some? <==> IsValidDate(Date(y, m, d))
    ensures r.Some? ==> r.value == Date(y, m, d)
  {
    if MinYear <= y <= MaxYear && 1 <= m <= 12 && 1 <= d <= DaysInMonth(y, m) then Some(Date(y, m, d))
    else None
  }

  /** `d.isoformat()`, i.e. `YYYY-MM-DD`. */
  function IsoFormat(d: Date): (s: string)
    requires IsValidDate(d)
    ensures |s| == 10
  {
    PadWidths(d);
    Pad(d.year, 4) + "-" + Pad(d.month, 2) + "-" + Pad(d.day, 2)
  }

  /** `d.strftime("%d<sep>%m<sep>%Y")`: with `-` the date format of the
      municipality snapshot, with `.` the Swiss dotted format. */
  function DayFirstFormat(d: Date, sep: char): (s: string)
    requires IsValidDate(d)
    ensures |s| == 10
  {
    PadWidths(d);
    Pad(d.day, 2) + [sep] + Pad(d.month, 2) + [sep] + Pad(d.year, 4)
  }

  /** The fields of a valid date fit their widths, so each rendering has
      exactly 4 + 2 + 2 digits. */
  lemma PadWidths(d: Date)
    requires IsValidDate(d)
    ensures |Pad(d.year, 4)| == 4 && |Pad(d.month, 2)| == 2 && |Pad(d.day, 2)| == 2
  {
    assert Pow10(1) == 10 && Pow10(2) == 100 && Pow10(3) == 1000 && Pow10(4) == 10000;
    DigitsLength(d.year, 4);
    DigitsLength(d.month, 2);
    DigitsLength(d.day, 2);
  }
}
