/** `PostalLocalityV1`: one entry of the Swiss postal locality directory,
    with its field constraints, the canton-code validator and the derived
    full postal code. The LV95 coordinates are not part of this model. */
module PostalModel {
  import opened Wrappers
  import opened Text
  import opened Numerals
  import opened Dates
  import MunicipalityModel

  /** A postal locality after validation. Every text field has been
      stripped; the canton code went through `UppercaseCantonCode`. */
  datatype PostalLocality = PostalLocality(
    localityName: string,
    postalCode: string,
    additionalDigit: string,
    municipalityName: string,
    bfsNumber: int,
    cantonCode: string,
    language: string,
    validityDate: string)

  /** The `uppercase_canton_code` validator, which runs on the raw value
      (`None` included) before the model strips strings: a value that is
      absent, empty or only whitespace becomes the empty code, which the
      directory uses for Liechtenstein. */
  function UppercaseCantonCode(v: Option<string>): (r: string)
    ensures v.Some? ==> |r| <= |v.value|
    ensures v.None? ==> r == ""
  {
    if v.Some? && v.value != "" && Strip(v.value) != "" then Strip(Upper(v.value)) else ""
  }

  /** Blank input gives the empty code; any other text is stripped and
      upper-cased, in either order; the result has no lower-case ASCII
      letter and passes through the validator again unchanged. */
  lemma UppercaseCantonCodeSpec(v: string)
    ensures IsBlank(v) ==> UppercaseCantonCode(Some(v)) == ""
    ensures UppercaseCantonCode(Some(v)) == Upper(Strip(v))
    ensures NoLowerAscii(UppercaseCantonCode(Some(v)))
    ensures UppercaseCantonCode(Some(UppercaseCantonCode(Some(v)))) == UppercaseCantonCode(Some(v))
  {
    StripEmptyIffBlank(v);
    UpperStripCommute(v);
    var r := UppercaseCantonCode(Some(v));
    UpperStripCommute(r);
    if Strip(v) == "" {
      assert Upper(Strip(v)) == "";
    } else {
      StripIdempotent(v);
      UpperIdempotent(Strip(v));
      UpperStripCommute(Strip(v));
      StripEmptyIffBlank(r);
      assert r != "";
      assert Strip(r) == Upper(Strip(Strip(v)));
    }
  }

  predicate IsAsciiLetter(c: char) {
    'a' <= c <= 'z' || 'A' <= c <= 'Z'
  }

  /** The pattern `^([A-Z]{2}|)$` of `canton_code`. */
  predicate IsCantonPattern(s: string) {
    s == "" || MunicipalityModel.IsCantonCode(s)
  }

  /** The validator's output matches the canton pattern exactly when the
      stripped input is empty or two ASCII letters of either case. */
  lemma UppercaseCantonCodeMatchesPattern(v: string)
    ensures IsCantonPattern(UppercaseCantonCode(Some(v))) <==>
            Strip(v) == "" || (|Strip(v)| == 2 && IsAsciiLetter(Strip(v)[0]) && IsAsciiLetter(Strip(v)[1]))
  {
    UppercaseCantonCodeSpec(v);
  }

  /** The pattern `^\d{4}$` of `postal_code`. */
  predicate IsPostalCode(s: string) {
    |s| == 4 && AllDigits(s)
  }

  /** The pattern `^\d{2}$` of `additional_digit`. */
  predicate IsAdditionalDigit(s: string) {
    |s| == 2 && AllDigits(s)
  }

  /** The pattern `^\d{4}-\d{2}-\d{2}$` of `validity_date`. */
  predicate IsValidityDate(s: string) {
    |s| == 10 && AllDigits(s[..4]) && s[4] == '-' && AllDigits(s[5..7]) && s[7] == '-' && AllDigits(s[8..])
  }

  /** The pattern `^(de|fr|it|rm|multiple)$` of `language`. */
  const Languages: set<string> := {"de", "fr", "it", "rm", "multiple"}

  /** Every valid calendar date in ISO form matches the validity pattern. */
  lemma IsoDateMatchesValidityPattern(d: Date)
    requires IsValidDate(d)
    ensures IsValidityDate(IsoFormat(d))
  {
    PadWidths(d);
    var s := IsoFormat(d);
    assert s[..4] == Pad(d.year, 4);
    assert s[5..7] == Pad(d.month, 2);
    assert s[8..] == Pad(d.day, 2);
  }

  /** The pattern checks the shape only: it accepts a month 13 and a day 45,
      and rejects an ISO date with unpadded fields. */
  lemma ValidityPatternIsShapeOnly()
    ensures IsValidityDate("2008-13-45")
    ensures !IsValidityDate("2008-7-1")
  {
    assert "2008-13-45"[..4] == "2008";
    assert "2008-13-45"[5..7] == "13";
    assert "2008-13-45"[8..] == "45";
  }

  /** The `full_postal_code` property. */
  function FullPostalCode(postalCode: string, additionalDigit: string): string {
    if additionalDigit != "" && additionalDigit != "00" then postalCode + "-" + additionalDigit else postalCode
  }

  /** The two examples of the property's documentation. */
  lemma FullPostalCodeExamples()
    ensures FullPostalCode("8001", "00") == "8001"
    ensures FullPostalCode("8001", "02") == "8001-02"
  {
  }

  /** Under the field patterns the full code has four or seven characters
      and starts with the postal code; it is the bare postal code exactly
      when the additional digits are `00`, and otherwise the digits follow
      a dash. */
  lemma FullPostalCodeShape(postalCode: string, additionalDigit: string)
    requires IsPostalCode(postalCode) && IsAdditionalDigit(additionalDigit)
    ensures var r := FullPostalCode(postalCode, additionalDigit);
            && (|r| == 4 || |r| == 7)
            && r[..4] == postalCode
            && (|r| == 4 <==> additionalDigit == "00")
            && (|r| == 7 ==> r[4] == '-' && r[5..] == additionalDigit)
  {
    var r := FullPostalCode(postalCode, additionalDigit);
    if additionalDigit != "00" {
      assert r == postalCode + "-" + additionalDigit;
      assert r[..4] == postalCode;
      assert r[5..] == additionalDigit;
    }
  }

  /** Under the field patterns the full code determines both the postal
      code and the additional digits. */
  lemma FullPostalCodeInjective(p1: string, a1: string, p2: string, a2: string)
    requires IsPostalCode(p1) && IsAdditionalDigit(a1) && IsPostalCode(p2) && IsAdditionalDigit(a2)
    requires FullPostalCode(p1, a1) == FullPostalCode(p2, a2)
    ensures p1 == p2 && a1 == a2
  {
    FullPostalCodeShape(p1, a1);
    FullPostalCodeShape(p2, a2);
  }

  predicate LengthBetween(s: string, lo: nat, hi: nat) {
    lo <= |s| <= hi
  }

  /** The names of the fields whose constraint fails, in declaration order;
      pydantic reports every failing field in one ValidationError. */
  function FieldErrors(l: PostalLocality): seq<string> {
    (if LengthBetween(l.localityName, 1, 100) then [] else ["locality_name"]) +
    (if IsPostalCode(l.postalCode) then [] else ["postal_code"]) +
    (if IsAdditionalDigit(l.additionalDigit) then [] else ["additional_digit"]) +
    (if LengthBetween(l.municipalityName, 1, 100) then [] else ["municipality_name"]) +
    (if 1 <= l.bfsNumber <= 9999 then [] else ["bfs_number"]) +
    (if IsCantonPattern(l.cantonCode) then [] else ["canton_code"]) +
    (if l.language in Languages then [] else ["language"]) +
    (if IsValidityDate(l.validityDate) then [] else ["validity_date"])
  }

  predicate Valid(l: PostalLocality) {
    FieldErrors(l) == []
  }

  /** A locality is valid exactly when every field meets its constraint. */
  lemma ValidMeaning(l: PostalLocality)
    ensures Valid(l) <==>
      LengthBetween(l.localityName, 1, 100) && IsPostalCode(l.postalCode) &&
      IsAdditionalDigit(l.additionalDigit) && LengthBetween(l.municipalityName, 1, 100) &&
      1 <= l.bfsNumber <= 9999 && IsCantonPattern(l.cantonCode) && l.language in Languages &&
      IsValidityDate(l.validityDate)
  {
  }

  /** The full code of a valid locality has the shape of the property. */
  lemma ValidFullPostalCode(l: PostalLocality)
    requires Valid(l)
    ensures var r := FullPostalCode(l.postalCode, l.additionalDigit);
            (|r| == 4 || |r| == 7) && r[..4] == l.postalCode && AllDigits(r[..4])
  {
    FullPostalCodeShape(l.postalCode, l.additionalDigit);
  }
}
