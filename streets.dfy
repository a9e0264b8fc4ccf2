/** `StreetsAPI`: the official Swiss street directory, read from a ZIP
    archive (remote, or the cached copy), parsed lazily row by row, and
    queried by scans over the stream of parsed streets. Nothing is cached
    between queries: every query reads the directory again. */
module Streets {
  import opened Wrappers
  import opened Text
  import opened Seqs
  import opened Numerals
  import opened PyValues
  import opened StreetModel
  import opened GeoBase

  /** The dataset settings `_setup_version` assigns. */
  datatype Config = Config(collectionId: string, itemId: string, zipFilename: string, csvFilename: string,
                           csvDelimiter: char)

  /** `_setup_version`: only model version `v1` exists; any other version
      makes the constructor raise. */
  function SetupVersion(modelVersion: string): (r: Result<Config, Error>)
    ensures r.Success? <==> modelVersion == "v1"
    ensures r.Failure? ==> r.error == GeoApiError("Unsupported model version: " + modelVersion)
    ensures r.Success? ==> r.value.csvDelimiter == ';' && r.value.zipFilename == r.value.csvFilename + ".zip"
  {
    if modelVersion == "v1" then
      Success(Config("ch.swisstopo.amtliches-strassenverzeichnis", "amtliches-strassenverzeichnis_ch",
                     "amtliches-strassenverzeichnis_ch_2056.csv.zip", "amtliches-strassenverzeichnis_ch_2056.csv", ';'))
    else Failure(GeoApiError("Unsupported model version: " + modelVersion))
  }

  /** What `_fetch_fallback` returns or raises, and whether it read the
      extracted CSV file. */
  datatype FallbackRead = FallbackRead(result: Result<string, Error>, csvRead: bool)

  /** `_fetch_fallback`: `zipRead` and `csvRead` are what reading the cached
      ZIP archive and the extracted CSV file would return or raise. Any
      exception of the ZIP read makes it try the CSV file. */
  function FetchFallback(zipRead: Result<string, Error>, csvRead: Result<string, Error>): (f: FallbackRead)
    ensures f.csvRead <==> zipRead.Failure?
    ensures f.result == if f.csvRead then csvRead else zipRead
  {
    if zipRead.Success? then FallbackRead(zipRead, false) else FallbackRead(csvRead, true)
  }

  /** `_get_csv_content`: the remote fetch, or the fallback under the policy
      of the base class. */
  function CsvContent(fetch: Result<string, Error>, zipRead: Result<string, Error>, csvRead: Result<string, Error>,
                      fallbackAllowed: bool): Result<string, Error>
  {
    FetchOrFallback(fetch, FetchFallback(zipRead, csvRead).result, fallbackAllowed, "streets").result
  }

  /** The content comes from the cached ZIP archive whenever the remote
      fetch raised RemoteFetchError, fallback is allowed and the archive is
      readable; the extracted CSV file is only a second choice. */
  lemma CsvContentPrefersZip(fetch: Result<string, Error>, zipRead: Result<string, Error>,
                             csvRead: Result<string, Error>, allowed: bool)
    requires fetch.Failure? && fetch.error.RemoteFetchError? && allowed
    ensures zipRead.Success? ==> CsvContent(fetch, zipRead, csvRead, allowed) == zipRead
    ensures zipRead.Failure? && csvRead.Success? ==> CsvContent(fetch, zipRead, csvRead, allowed) == csvRead
    ensures zipRead.Failure? && csvRead.Failure? && csvRead.error.NoFallbackDataError? ==>
              CsvContent(fetch, zipRead, csvRead, allowed) ==
              Failure(NoFallbackDataError(NoDataMessage("streets", fetch.error.message)))
  {
    FetchOrFallbackErrors(fetch, FetchFallback(zipRead, csvRead).result, allowed, "streets");
  }

  /** `row.get(key) or None` */
  function OptionalCell(row: Row, key: string): (v: PyValue)
    ensures WellFormed(v)
  {
    if key in row && row[key] != "" then PyStr(row[key]) else PyNone
  }

  /** The record `_parse_row_v1` hands to the model once every cell it
      reads is present, with the field validators applied and the
      remaining text fields stripped. */
  function RowRecord(row: Row, bfs: int): Street
    requires "STR_ESID" in row && "STN_LABEL" in row && "ZIP_LABEL" in row && "COM_NAME" in row
    requires "COM_CANTON" in row && "STR_TYPE" in row && "STR_STATUS" in row && "STR_OFFICIAL" in row
    requires "STR_MODIFIED" in row
  {
    Street(
      esid := Strip(row["STR_ESID"]),
      name := Strip(row["STN_LABEL"]),
      postalCodes := Strip(row["ZIP_LABEL"]),
      municipalityBfs := bfs,
      municipalityName := Strip(row["COM_NAME"]),
      cantonCode := UppercaseCantonCode(row["COM_CANTON"]),
      streetType := Strip(row["STR_TYPE"]),
      status := Strip(row["STR_STATUS"]),
      isOfficial := ParseBoolean(PyStr(row["STR_OFFICIAL"])),
      modifiedDate := Strip(row["STR_MODIFIED"]),
      parentEsid := StreetModel.HandleEmptyString(OptionalCell(row, "STR_PARENT")),
      childrenEsids := StreetModel.HandleEmptyString(OptionalCell(row, "STR_CHILDREN")))
  }

  /** `_parse_row_v1`: the cells are read in argument order, so the first
      missing column raises KeyError and `int()` of the municipality number
      raises before the later columns are read; then the model validates
      the record. */
  function ParseRowV1(row: Row): (r: Result<Street, Error>)
    ensures r.Success? ==> Valid(r.value)
    ensures r.Success? ==> "STR_ESID" in row && r.value.esid == Strip(row["STR_ESID"])
    ensures r.Success? ==> "COM_FOSNR" in row && ParseInt(row["COM_FOSNR"]) == Some(r.value.municipalityBfs)
  {
    var _ :- Cell(row, "STR_ESID");
    var _ :- Cell(row, "STN_LABEL");
    var _ :- Cell(row, "ZIP_LABEL");
    var fos :- Cell(row, "COM_FOSNR");
    var bfs :- IntCell(fos);
    var _ :- Cell(row, "COM_NAME");
    var _ :- Cell(row, "COM_CANTON");
    var _ :- Cell(row, "STR_TYPE");
    var _ :- Cell(row, "STR_STATUS");
    var _ :- Cell(row, "STR_OFFICIAL");
    var _ :- Cell(row, "STR_MODIFIED");
    var _ :- Cell(row, "STR_EASTING");
    var _ :- Cell(row, "STR_NORTHING");
    var s := RowRecord(row, bfs);
    var errs := FieldErrors(s);
    if errs == [] then Success(s) else Failure(ValidationError(errs))
  }

  /** A row without an ESID column raises KeyError, and a municipality
      number that `int()` cannot read raises ValueError once the three
      columns before it are present. */
  lemma ParseRowErrors(row: Row)
    ensures "STR_ESID" !in row ==> ParseRowV1(row) == Failure(KeyError("STR_ESID"))
    ensures ("STR_ESID" in row && "STN_LABEL" in row && "ZIP_LABEL" in row && "COM_FOSNR" in row &&
             ParseInt(row["COM_FOSNR"]).None?) ==> ParseRowV1(row) == Failure(ValueError(row["COM_FOSNR"]))
  {
  }

  /** `iter_all()`: the content, its leading byte-order mark dropped, read
      into rows by `readRows` (the CSV reader with delimiter `;`), and each
      row parsed as the generator reaches it. */
  function IterAll(content: Result<string, Error>, readRows: string -> seq<Row>): Run<Street, Error> {
    match content
    case Failure(e) => Run([], Some(e))
    case Success(c) => Drain(readRows(StripBom(c, true)), ParseRowV1)
  }

  /** `get_all`, which is `list(iter_all())`. */
  function GetAll(all: Run<Street, Error>): Result<seq<Street>, Error> {
    Collect(all)
  }

  /** `get_all` fails on the first exception of the content or of a row,
      and is otherwise every row parsed, in file order, each street valid. */
  lemma GetAllParsesEveryRow(content: Result<string, Error>, readRows: string -> seq<Row>)
    ensures content.Failure? ==> GetAll(IterAll(content, readRows)) == Failure(content.error)
    ensures content.Success? ==>
              GetAll(IterAll(content, readRows)) == MapResult(readRows(StripBom(content.value, true)), ParseRowV1)
    ensures var r := GetAll(IterAll(content, readRows));
            r.Success? ==> forall i :: 0 <= i < |r.value| ==> Valid(r.value[i])
  {
    if content.Success? {
      var rows := readRows(StripBom(content.value, true));
      DrainCollect(rows, ParseRowV1);
      MapResultSpec(rows, ParseRowV1);
    }
  }

  function HasEsid(esid: string): Street -> bool {
    (s: Street) => s.esid == esid
  }

  /** `get_by_esid`: the argument is stripped, and the scan returns at the
      first street with that ESID. */
  function GetByEsid(all: Run<Street, Error>, esid: string): Result<Option<Street>, Error> {
    FirstInRun(all, HasEsid(Strip(esid)))
  }

  /** The street found is the first one in file order with the stripped
      ESID; an invalid row after it does not matter, one before it makes
      the lookup raise. */
  lemma GetByEsidSpec(all: Run<Street, Error>, esid: string)
    ensures var r := GetByEsid(all, esid);
            && (r.Success? && r.value.Some? ==>
                  r.value.value.esid == Strip(esid) &&
                  exists i :: 0 <= i < |all.items| && all.items[i] == r.value.value &&
                              forall j :: 0 <= j < i ==> all.items[j].esid != Strip(esid))
            && (r == Success(None) <==>
                  all.error.None? && forall i :: 0 <= i < |all.items| ==> all.items[i].esid != Strip(esid))
            && (r.Failure? <==>
                  all.error.Some? && forall i :: 0 <= i < |all.items| ==> all.items[i].esid != Strip(esid))
            && (r.Failure? ==> Some(r.error) == all.error)
  {
    FirstInRunSpec(all, HasEsid(Strip(esid)));
  }

  function InMunicipality(bfsNumber: int): Street -> bool {
    (s: Street) => s.municipalityBfs == bfsNumber
  }

  /** `get_by_municipality` */
  function GetByMunicipality(all: Run<Street, Error>, bfsNumber: int): Result<seq<Street>, Error> {
    FilterRun(all, InMunicipality(bfsNumber))
  }

  /** `iter_by_municipality` */
  function IterByMunicipality(all: Run<Street, Error>, bfsNumber: int): Run<Street, Error> {
    StreamRun(all, InMunicipality(bfsNumber))
  }

  /** The list is the order-preserving filter of `get_all` on the
      municipality number, and the generator yields the same list. */
  lemma MunicipalityQueries(all: Run<Street, Error>, bfsNumber: int)
    ensures Collect(IterByMunicipality(all, bfsNumber)) == GetByMunicipality(all, bfsNumber)
    ensures GetByMunicipality(all, bfsNumber) == match GetAll(all)
                                                 case Success(ss) => Success(Filter(ss, InMunicipality(bfsNumber)))
                                                 case Failure(e) => Failure(e)
    ensures var r := GetByMunicipality(all, bfsNumber);
            r.Success? ==> forall s :: s in r.value <==> s in all.items && s.municipalityBfs == bfsNumber
  {
    FilterRunAgree(all, InMunicipality(bfsNumber));
  }

  /** The canton argument as the queries normalise it. */
  function CantonKey(code: string): string {
    Strip(Upper(code))
  }

  function InCanton(code: string): Street -> bool {
    (s: Street) => s.cantonCode == CantonKey(code)
  }

  /** `get_by_canton` */
  function GetByCanton(all: Run<Street, Error>, code: string): Result<seq<Street>, Error> {
    FilterRun(all, InCanton(code))
  }

  /** `iter_by_canton` */
  function IterByCanton(all: Run<Street, Error>, code: string): Run<Street, Error> {
    StreamRun(all, InCanton(code))
  }

  /** Both canton queries select exactly the streets whose code equals the
      upper-cased, stripped argument, in order, and agree. */
  lemma CantonQueries(all: Run<Street, Error>, code: string)
    ensures Collect(IterByCanton(all, code)) == GetByCanton(all, code)
    ensures var r := GetByCanton(all, code);
            r.Success? ==> forall s :: s in r.value <==> s in all.items && s.cantonCode == Strip(Upper(code))
  {
    FilterRunAgree(all, InCanton(code));
  }

  /** Case and surrounding whitespace of the argument do not matter. */
  lemma CantonKeyNormalised(code: string)
    ensures CantonKey(CantonKey(code)) == CantonKey(code)
    ensures CantonKey(code) == Upper(Strip(code))
  {
    UppercaseCantonCodeSpec(code);
    UppercaseCantonCodeSpec(CantonKey(code));
    if code == "" {
      assert Upper(code) == "";
    }
  }

  function HasPostalCode(postalCode: string): Street -> bool {
    (s: Street) => Strip(postalCode) in PostalCodesOf(s.postalCodes)
  }

  /** `iter_by_postal_code` */
  function IterByPostalCode(all: Run<Street, Error>, postalCode: string): Run<Street, Error> {
    StreamRun(all, HasPostalCode(postalCode))
  }

  /** The generator yields, in order, the streets whose postal-code list
      contains the stripped argument, then re-raises what ended `iter_all`. */
  lemma PostalCodeQuery(all: Run<Street, Error>, postalCode: string)
    ensures IterByPostalCode(all, postalCode).error == all.error
    ensures forall s :: s in IterByPostalCode(all, postalCode).items <==>
              s in all.items && Strip(postalCode) in PostalCodesOf(s.postalCodes)
    ensures IsSubsequence(IterByPostalCode(all, postalCode).items, all.items)
    ensures IterByPostalCode(all, postalCode).items == Filter(all.items, HasPostalCode(postalCode))
  {
    StreamIsFilter(all.items, HasPostalCode(postalCode));
    FilterMembers(all.items, HasPostalCode(postalCode));
    FilterSubsequence(all.items, HasPostalCode(postalCode));
  }
}
