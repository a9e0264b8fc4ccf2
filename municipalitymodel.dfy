/** `MunicipalityV1`, one record of the communes snapshot of the Swiss Federal
    Statistical Office: its fields, the validators that normalise the raw
    CSV values, the field constraints and the derived properties. */
module MunicipalityModel {
  import opened Wrappers
  import opened Text
  import opened Numerals
  import opened Dates
  import opened PyValues

  datatype Municipality = Municipality(
    historicalCode: string,
    bfsCode: Option<string>,
    name: string,
    shortName: Option<string>,
    cantonCode: Option<string>,
    cantonName: Option<string>,
    level: Option<int>,
    parent: Option<string>,
    validFrom: Option<Date>,
    validTo: Option<Date>,
    recType: Option<string>)

  /** The validator of the optional text fields: `None` and `''` give `None`;
      anything else is rendered with `str`, stripped, and kept unless that
      leaves nothing. */
  function HandleEmptyString(v: PyValue): (r: Option<string>)
    requires WellFormed(v)
  {
    if v == PyStr("") || v.PyNone? then None
    else
      var t := Strip(Str(v));
      if t == [] then None else Some(t)
  }

  /** `None` exactly for `None` and for values whose text is blank; the
      stripped text otherwise. */
  lemma HandleEmptyStringSpec(v: PyValue)
    requires WellFormed(v)
    ensures HandleEmptyString(v).None? <==> v.PyNone? || IsBlank(Str(v))
    ensures HandleEmptyString(v).Some? ==> HandleEmptyString(v).value == Strip(Str(v))
  {
    StripEmptyIffBlank(Str(v));
  }

  /** Normalising an already normalised value changes nothing. */
  lemma HandleEmptyStringIdempotent(v: PyValue)
    requires WellFormed(v)
    ensures var r := HandleEmptyString(v);
            r.Some? ==> HandleEmptyString(PyStr(r.value)) == r
  {
    StripIdempotent(Str(v));
    StripEmptyIffBlank(Strip(Str(v)));
  }

  /** What a kept value looks like: non-empty, with no whitespace at either end. */
  lemma HandleEmptyStringTrimmed(v: PyValue)
    requires WellFormed(v)
    ensures var r := HandleEmptyString(v);
            r.Some? ==> r.value != [] && !IsSpace(r.value[0]) && !IsSpace(r.value[|r.value| - 1])
  {
    StripEmptyIffBlank(Str(v));
    StripEnds(Str(v));
  }

  /** The range of a C `int`. `date()` converts each of its three arguments
      to one, year first, before any calendar check; a value outside the
      range raises OverflowError rather than ValueError. */
  predicate IsCInt(n: int) {
    -0x8000_0000 <= n <= 0x7fff_ffff
  }

  /** `date(int(y), int(m), int(d))` inside a handler for ValueError and
      IndexError. A field that is not an integer, or three integers that name
      no calendar date, give `Success(None)`. When all three are integers and
      one lies outside the C `int` range, the OverflowError of `date()`
      escapes the handler: `Failure(n)` carries the first such value. */
  function DateOfParts(y: string, m: string, d: string): (r: Result<Option<Date>, int>)
    ensures r.Success? && r.value.Some? ==>
      IsValidDate(r.value.value) &&
      ParseInt(y) == Some(r.value.value.year) && ParseInt(m) == Some(r.value.value.month) &&
      ParseInt(d) == Some(r.value.value.day)
    ensures r.Failure? ==>
      ParseInt(y).Some? && ParseInt(m).Some? && ParseInt(d).Some? && !IsCInt(r.error) &&
      (r.error == ParseInt(y).value || r.error == ParseInt(m).value || r.error == ParseInt(d).value)
  {
    match (ParseInt(y), ParseInt(m), ParseInt(d))
    case (Some(yy), Some(mm), Some(dd)) =>
      if !IsCInt(yy) then Failure(yy)
      else if !IsCInt(mm) then Failure(mm)
      else if !IsCInt(dd) then Failure(dd)
      else Success(MakeDate(yy, mm, dd))
    case _ => Success(None)
  }

  /** The text branches of the date validator, on the stripped, non-empty
      string: first the dash forms (day first when the first field has at
      most two characters, year first otherwise), then, whenever that gave
      neither a date nor an overflow, the dotted form day.month.year, whose
      fourth and later fields are ignored. */
  function ParseDateText(t: string): (r: Result<Option<Date>, int>)
    ensures r.Success? && r.value.Some? ==> IsValidDate(r.value.value)
    ensures r.Failure? ==> !IsCInt(r.error)
  {
    var dash :=
      if '-' in t && |Split(t, '-')| == 3 then
        var parts := Split(t, '-');
        if |parts[0]| <= 2 then DateOfParts(parts[2], parts[1], parts[0])
        else DateOfParts(parts[0], parts[1], parts[2])
      else Success(None);
    if dash != Success(None) then dash
    else if '.' in t then
      var parts := Split(t, '.');
      if |parts| < 3 then Success(None) else DateOfParts(parts[2], parts[1], parts[0])
    else Success(None)
  }

  /** The date validator of `valid_from` and `valid_to`. Every ValueError
      and IndexError is caught and gives `None`; the only exception that
      leaves it is the OverflowError of `date()`, as `Failure(n)`. */
  function ParseDate(v: PyValue): (r: Result<Option<Date>, int>)
    requires WellFormed(v)
    ensures r.Success? && r.value.Some? ==> IsValidDate(r.value.value)
    ensures r.Failure? ==> v.PyStr? && !IsCInt(r.error)
  {
    match v
    case PyNone => Success(None)
    case PyDate(d) => Success(Some(d))
    case PyStr(s) =>
      var t := Strip(s);
      if t == [] then Success(None) else ParseDateText(t)
    case _ => Success(None)
  }

  /** `None`, the empty string and blank strings give no date; a date object
      passes through unchanged; any other non-text value gives no date. */
  lemma ParseDateTrivialCases(v: PyValue)
    requires WellFormed(v)
    ensures v.PyNone? ==> ParseDate(v) == Success(None)
    ensures v.PyStr? && IsBlank(v.s) ==> ParseDate(v) == Success(None)
    ensures v.PyDate? ==> ParseDate(v) == Success(Some(v.d))
    ensures v.PyBool? || v.PyInt? ==> ParseDate(v) == Success(None)
  {
    if v.PyStr? {
      StripEmptyIffBlank(v.s);
    }
  }

  /** A string without whitespace at either end reaches the text branches as it stands. */
  lemma ParseDateUnpadded(t: string)
    requires t != [] && !IsSpace(t[0]) && !IsSpace(t[|t| - 1])
    ensures ParseDate(PyStr(t)) == ParseDateText(t)
  {
    StripOfUnpadded(t);
  }

  lemma DigitsHaveNoSeparator(s: string, c: char)
    requires AllDigits(s) && !IsDigit(c)
    ensures c !in s
  {
  }

  /** Reading back the three zero-padded fields of a valid date. */
  lemma DateOfPadded(d: Date)
    requires IsValidDate(d)
    ensures DateOfParts(Pad(d.year, 4), Pad(d.month, 2), Pad(d.day, 2)) == Success(Some(d))
  {
    ParsePad(d.year, 4);
    ParsePad(d.month, 2);
    ParsePad(d.day, 2);
  }

  /** The three fields of a rendering split back out at the separator. */
  lemma SplitRendering(a: string, b: string, c: string, sep: char)
    requires AllDigits(a) && AllDigits(b) && AllDigits(c) && !IsDigit(sep)
    ensures Split(a + [sep] + b + [sep] + c, sep) == [a, b, c]
  {
    DigitsHaveNoSeparator(a, sep);
    DigitsHaveNoSeparator(b, sep);
    DigitsHaveNoSeparator(c, sep);
    SplitThree(a, b, c, sep);
  }

  /** The text branches on a string that splits into three fields at the
      dashes and has no dot. */
  lemma ParseDateTextDashes(t: string, a: string, b: string, c: string)
    requires '-' in t && '.' !in t && Split(t, '-') == [a, b, c]
    ensures ParseDateText(t) == if |a| <= 2 then DateOfParts(c, b, a) else DateOfParts(a, b, c)
  {
  }

  /** The text branches on a string without dashes that splits into three
      fields at the dots. */
  lemma ParseDateTextDots(t: string, a: string, b: string, c: string)
    requires '-' !in t && '.' in t && Split(t, '.') == [a, b, c]
    ensures ParseDateText(t) == DateOfParts(c, b, a)
  {
  }

  /** Three digit fields joined by dashes: day first when the first field
      has at most two digits, year first otherwise. */
  lemma ParseDateDashForm(a: string, b: string, c: string)
    requires a != [] && c != [] && AllDigits(a) && AllDigits(b) && AllDigits(c)
    ensures ParseDate(PyStr(a + "-" + b + "-" + c)) ==
            if |a| <= 2 then DateOfParts(c, b, a) else DateOfParts(a, b, c)
  {
    var t := a + "-" + b + "-" + c;
    assert t == a + ['-'] + b + ['-'] + c;
    assert t[0] == a[0] && t[|t| - 1] == c[|c| - 1];
    ParseDateUnpadded(t);
    SplitRendering(a, b, c, '-');
    assert t[|a|] == '-';
    DigitsHaveNoSeparator(a, '.');
    DigitsHaveNoSeparator(b, '.');
    DigitsHaveNoSeparator(c, '.');
    assert '.' !in t;
    ParseDateTextDashes(t, a, b, c);
  }

  /** Three digit fields joined by dots: always day first. */
  lemma ParseDateDottedForm(a: string, b: string, c: string)
    requires a != [] && c != [] && AllDigits(a) && AllDigits(b) && AllDigits(c)
    ensures ParseDate(PyStr(a + "." + b + "." + c)) == DateOfParts(c, b, a)
  {
    var t := a + "." + b + "." + c;
    assert t == a + ['.'] + b + ['.'] + c;
    assert t[0] == a[0] && t[|t| - 1] == c[|c| - 1];
    ParseDateUnpadded(t);
    DigitsHaveNoSeparator(a, '-');
    DigitsHaveNoSeparator(b, '-');
    DigitsHaveNoSeparator(c, '-');
    assert '-' !in t;
    SplitRendering(a, b, c, '.');
    assert t[|a|] == '.';
    ParseDateTextDots(t, a, b, c);
  }

  /** An ISO date string `YYYY-MM-DD` is read year first. */
  lemma ParseDateIsoRoundTrip(d: Date)
    requires IsValidDate(d)
    ensures ParseDate(PyStr(IsoFormat(d))) == Success(Some(d))
  {
    PadWidths(d);
    ParseDateDashForm(Pad(d.year, 4), Pad(d.month, 2), Pad(d.day, 2));
    DateOfPadded(d);
  }

  /** The snapshot's own `DD-MM-YYYY` is read day first. */
  lemma ParseDateDmyDashRoundTrip(d: Date)
    requires IsValidDate(d)
    ensures ParseDate(PyStr(DayFirstFormat(d, '-'))) == Success(Some(d))
  {
    PadWidths(d);
    ParseDateDashForm(Pad(d.day, 2), Pad(d.month, 2), Pad(d.year, 4));
    DateOfPadded(d);
  }

  /** The Swiss `DD.MM.YYYY` is read day first. */
  lemma ParseDateDottedRoundTrip(d: Date)
    requires IsValidDate(d)
    ensures ParseDate(PyStr(DayFirstFormat(d, '.'))) == Success(Some(d))
  {
    PadWidths(d);
    ParseDateDottedForm(Pad(d.day, 2), Pad(d.month, 2), Pad(d.year, 4));
    DateOfPadded(d);
  }

  /** A calendar date that does not exist, written `DD-MM-YYYY`, gives no
      date and no error. */
  lemma ParseDateInvalidCalendarDate(day: nat, month: nat, year: nat)
    requires day < 100 && month < 100 && year < 10000
    requires !IsValidDate(Date(year, month, day))
    ensures ParseDate(PyStr(Pad(day, 2) + "-" + Pad(month, 2) + "-" + Pad(year, 4))) == Success(None)
  {
    assert Pow10(1) == 10 && Pow10(2) == 100;
    DigitsLength(day, 2);
    ParseDateDashForm(Pad(day, 2), Pad(month, 2), Pad(year, 4));
    ParsePad(year, 4);
    ParsePad(month, 2);
    ParsePad(day, 2);
  }

  /** A year past the C `int` range, written `D.M.YYYYYYYYYY`, makes the
      validator raise OverflowError instead of giving `None`: the handler
      names only ValueError and IndexError. */
  lemma ParseDateYearOverflow(year: nat)
    requires !IsCInt(year)
    ensures ParseDate(PyStr("1" + "." + "1" + "." + Digits(year))) == Failure(year)
  {
    assert Digits(1) == "1";
    ParseIntOfDigits(1);
    ParseIntOfDigits(year);
    ParseDateDottedForm("1", "1", Digits(year));
  }

  /** `is_active`: no end of validity. */
  predicate IsActive(m: Municipality) {
    m.validTo.None?
  }

  /** `is_merged`: an end of validity and no current BFS number. */
  predicate IsMerged(m: Municipality) {
    m.validTo.Some? && m.bfsCode.None?
  }

  /** `has_parent` */
  predicate HasParent(m: Municipality) {
    m.parent.Some?
  }

  /** The two status properties are consistent: a merged record is never active. */
  lemma MergedIsNotActive(m: Municipality)
    ensures IsMerged(m) ==> !IsActive(m)
    ensures IsActive(m) ==> !IsMerged(m)
  {
  }

  /** `^[A-Z]{2}$`: two ASCII capital letters. */
  predicate IsCantonCode(s: string) {
    |s| == 2 && 'A' <= s[0] <= 'Z' && 'A' <= s[1] <= 'Z'
  }

  predicate AtMost(o: Option<string>, n: nat) {
    o.Some? ==> |o.value| <= n
  }

  /** The field constraints of `MunicipalityV1`, field by field in
      declaration order; the result lists the fields that fail. */
  function FieldErrors(m: Municipality): (errs: seq<string>)
  {
    (if 1 <= |m.historicalCode| <= 12 then [] else ["historical_code"]) +
    (if AtMost(m.bfsCode, 12) then [] else ["bfs_code"]) +
    (if 1 <= |m.name| <= 120 then [] else ["name"]) +
    (if AtMost(m.shortName, 120) then [] else ["short_name"]) +
    (if m.cantonCode.None? || m.cantonCode.value == "" || IsCantonCode(m.cantonCode.value) then [] else ["canton_code"]) +
    (if AtMost(m.cantonName, 120) then [] else ["canton_name"]) +
    (if m.level.None? || 1 <= m.level.value <= 9 then [] else ["level"]) +
    (if AtMost(m.parent, 12) then [] else ["parent"]) +
    (if AtMost(m.recType, 50) then [] else ["rec_type"])
  }

  predicate Valid(m: Municipality) {
    FieldErrors(m) == []
  }

  /** A record that passes validation meets every constraint of its fields. */
  lemma ValidMeaning(m: Municipality)
    ensures Valid(m) <==>
      1 <= |m.historicalCode| <= 12 && AtMost(m.bfsCode, 12) && 1 <= |m.name| <= 120 &&
      AtMost(m.shortName, 120) &&
      (m.cantonCode.None? || m.cantonCode.value == "" || IsCantonCode(m.cantonCode.value)) &&
      AtMost(m.cantonName, 120) && (m.level.None? || 1 <= m.level.value <= 9) &&
      AtMost(m.parent, 12) && AtMost(m.recType, 50)
  {
  }
}
