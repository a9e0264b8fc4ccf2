/** The shared machinery of the three geodata APIs: the exception hierarchy,
    the remote-first policy with an optional local fallback, the removal of
    a leading byte-order mark before CSV parsing, and the choice of the CSV
    member of a ZIP archive. */
module GeoBase {
  import opened Wrappers
  import opened Text
  import opened Seqs
  import opened Numerals

  /** The exceptions that reach the callers of the APIs. */
  datatype Error =
    | GeoApiError(message: string)
    | RemoteFetchError(message: string)
    | NoFallbackDataError(message: string)
    | ValidationError(fields: seq<string>)
    | ValueError(message: string)
    | KeyError(key: string)
    | OverflowError(value: int)

  /** The exception classes an `except` clause can name. */
  datatype ErrorClass = GeoApiErrorClass | RemoteFetchErrorClass | NoFallbackDataErrorClass | ExceptionClass

  /** `isinstance(e, c)`: `RemoteFetchError` and `NoFallbackDataError` derive
      from `GeoAPIError`, and everything derives from `Exception`. */
  predicate IsInstance(e: Error, c: ErrorClass) {
    match c
    case ExceptionClass => true
    case GeoApiErrorClass => e.GeoApiError? || e.RemoteFetchError? || e.NoFallbackDataError?
    case RemoteFetchErrorClass => e.RemoteFetchError?
    case NoFallbackDataErrorClass => e.NoFallbackDataError?
  }

  /** An `except GeoAPIError` clause also catches the two specialised
      errors, and neither of those catches the other. */
  lemma SpecialisedErrorsAreGeoApiErrors(e: Error)
    ensures IsInstance(e, RemoteFetchErrorClass) ==> IsInstance(e, GeoApiErrorClass)
    ensures IsInstance(e, NoFallbackDataErrorClass) ==> IsInstance(e, GeoApiErrorClass)
    ensures !(IsInstance(e, RemoteFetchErrorClass) && IsInstance(e, NoFallbackDataErrorClass))
    ensures IsInstance(e, ExceptionClass)
  {
  }

  /** What a fetch-or-fallback call returns or raises, and whether it invoked
      the fallback. */
  datatype Attempt<T> = Attempt(result: Result<T, Error>, fallbackCalled: bool)

  function DisallowedMessage(context: string, cause: string): string {
    "Failed to fetch " + context + " from remote API and fallback not allowed. " +
    "Use fallback_allowed=True to use cached data. Error: " + cause
  }

  function NoDataMessage(context: string, cause: string): string {
    "Failed to fetch " + context + " from remote API and no fallback data available. " +
    "Original error: " + cause
  }

  /** `_fetch_or_fallback`: `fetch` is what the remote fetch returns or
      raises; `fallback` is what the fallback would return or raise if it
      were called. */
  function FetchOrFallback<T>(fetch: Result<T, Error>, fallback: Result<T, Error>, fallbackAllowed: bool,
                              context: string): (a: Attempt<T>)
    ensures a.fallbackCalled <==> fetch.Failure? && fetch.error.RemoteFetchError? && fallbackAllowed
  {
    match fetch
    case Success(_) => Attempt(fetch, false)
    case Failure(RemoteFetchError(cause)) =>
      if !fallbackAllowed then
        Attempt(Failure(NoFallbackDataError(DisallowedMessage(context, cause))), false)
      else if fallback.Failure? && fallback.error.NoFallbackDataError? then
        Attempt(Failure(NoFallbackDataError(NoDataMessage(context, cause))), true)
      else
        Attempt(fallback, true)
    case Failure(_) => Attempt(fetch, false)
  }

  /** A successful fetch is returned and the fallback is never invoked. */
  lemma FetchSuccessIsReturned<T>(v: T, fallback: Result<T, Error>, allowed: bool, context: string)
    ensures FetchOrFallback(Success(v), fallback, allowed, context) == Attempt(Success(v), false)
  {
  }

  /** A returned value always comes from the fetch, or from the fallback once
      the fetch raised `RemoteFetchError` and fallback is allowed. */
  lemma FetchOrFallbackValueOrigin<T>(fetch: Result<T, Error>, fallback: Result<T, Error>, allowed: bool,
                                      context: string)
    ensures var a := FetchOrFallback(fetch, fallback, allowed, context);
            a.result.Success? ==> (if a.fallbackCalled then a.result == fallback else a.result == fetch)
  {
  }

  /** The error cases: a remote failure without permission to fall back, or
      with a fallback that has no data, raises `NoFallbackDataError` carrying
      the remote error's message; any other exception of the fetch, or of
      the fallback, propagates unchanged. */
  lemma FetchOrFallbackErrors<T>(fetch: Result<T, Error>, fallback: Result<T, Error>, allowed: bool,
                                 context: string)
    ensures var a := FetchOrFallback(fetch, fallback, allowed, context);
            && (fetch.Failure? && fetch.error.RemoteFetchError? && !allowed ==>
                  a.result == Failure(NoFallbackDataError(DisallowedMessage(context, fetch.error.message))))
            && ((fetch.Failure? && fetch.error.RemoteFetchError? && allowed && fallback.Failure? &&
                 fallback.error.NoFallbackDataError?) ==>
                  a.result == Failure(NoFallbackDataError(NoDataMessage(context, fetch.error.message))))
            && ((fetch.Failure? && fetch.error.RemoteFetchError? && allowed && fallback.Failure? &&
                 !fallback.error.NoFallbackDataError?) ==> a.result == fallback)
            && (fetch.Failure? && !fetch.error.RemoteFetchError? ==> a.result == fetch)
  {
  }

  /** A CSV row as `csv.DictReader` yields it: header name to cell text. */
  type Row = map<string, string>

  /** `row.get(key, default)` */
  function Get(row: Row, key: string, default: string): string {
    if key in row then row[key] else default
  }

  /** `row[key]`, which raises KeyError for a missing column. */
  function Cell(row: Row, key: string): (r: Result<string, Error>)
    ensures r.Success? <==> key in row
    ensures r.Success? ==> r.value == row[key]
    ensures r.Failure? ==> r.error == KeyError(key)
  {
    if key in row then Success(row[key]) else Failure(KeyError(key))
  }

  /** `int(text)` on a cell: the integer the text spells out, with any
      surrounding whitespace ignored; ValueError naming the text otherwise. */
  function IntCell(text: string): (r: Result<int, Error>)
    ensures r.Failure? ==> r.error == ValueError(text)
  {
    match ParseInt(text)
    case Some(n) => Success(n)
    case None => Failure(ValueError(text))
  }

  /** `int(str(n)) == n`: every integer reads back from its rendering. */
  lemma IntCellOfRendering(n: int)
    ensures IntCell(IntToString(n)) == Success(n)
  {
    ParseIntToString(n);
  }

  /** Surrounding whitespace decides nothing: the stripped cell succeeds
      exactly when the cell does, with the same integer. */
  lemma IntCellIgnoresPadding(text: string)
    ensures IntCell(Strip(text)).Success? <==> IntCell(text).Success?
    ensures IntCell(text).Success? ==> IntCell(Strip(text)).value == IntCell(text).value
  {
    ParseIntIgnoresPadding(text);
  }

  /** A blank cell is never an integer. */
  lemma IntCellOfBlank(text: string)
    requires IsBlank(text)
    ensures IntCell(text) == Failure(ValueError(text))
  {
    StripEmptyIffBlank(text);
  }

  /** U+FEFF, the byte-order mark as a decoded character. */
  const Bom: char := 0xFEFF as char

  /** The BOM handling of `_parse_csv`. */
  function StripBom(content: string, skipBom: bool): (r: string)
    ensures skipBom && content != [] && content[0] == Bom ==> content == [Bom] + r
    ensures !(skipBom && content != [] && content[0] == Bom) ==> r == content
  {
    if skipBom && |content| > 0 && content[0] == Bom then content[1..] else content
  }

  /** Exactly one mark is removed, even when a second one follows. */
  lemma StripBomRemovesOne(rest: string)
    ensures StripBom([Bom] + rest, true) == rest
    ensures StripBom([Bom, Bom] + rest, true) == [Bom] + rest
  {
    assert ([Bom] + rest)[1..] == rest;
    assert ([Bom, Bom] + rest)[1..] == [Bom] + rest;
  }

  predicate IsCsvName(name: string) {
    EndsWith(name, ".csv")
  }

  /** How `_extract_csv_from_zip` picks the member to read from the archive
      listing `names`. Errors raised inside are re-raised with the prefix
      `Failed to extract CSV: `. An empty requested name counts as none. */
  function SelectCsvEntry(names: seq<string>, requested: Option<string>): (r: Result<string, Error>)
    ensures r.Success? ==> r.value in names
  {
    var csvFiles := Filter(names, IsCsvName);
    FilterMembers(names, IsCsvName);
    if csvFiles == [] then
      Failure(GeoApiError("Failed to extract CSV: No CSV file found in ZIP archive"))
    else if requested.Some? && requested.value != "" then
      if requested.value !in names then
        Failure(GeoApiError("Failed to extract CSV: CSV file " + requested.value + " not found in ZIP"))
      else Success(requested.value)
    else
      Success(csvFiles[0])
  }

  /** The selection rule: no `.csv` member is an error whatever was
      requested; a requested name must be listed (it need not end in
      `.csv`); without one, the first `.csv` member in listing order is read. */
  lemma SelectCsvEntrySpec(names: seq<string>, requested: Option<string>)
    ensures var r := SelectCsvEntry(names, requested);
            && ((forall i :: 0 <= i < |names| ==> !IsCsvName(names[i])) ==> r.Failure?)
            && (r.Failure? <==>
                (forall i :: 0 <= i < |names| ==> !IsCsvName(names[i])) ||
                (requested.Some? && requested.value != "" && requested.value !in names))
            && (r.Success? && requested.Some? && requested.value != "" ==> r.value == requested.value)
            && (r.Success? && (requested.None? || requested.value == "") ==>
                  Some(r.value) == FirstMatch(names, IsCsvName))
  {
    FirstMatchIsFilterHead(names, IsCsvName);
  }
}
