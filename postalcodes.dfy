/** `PostalCodesAPI`: the Swiss postal locality directory, read from a ZIP
    archive (remote, or the cached copy), parsed lazily row by row, and
    queried by scans over the stream of parsed localities. Nothing is
    cached between queries. */
module PostalCodes {
  import opened Wrappers
  import opened Text
  import opened Seqs
  import opened Numerals
  import opened PostalModel
  import opened GeoBase

  /** The dataset settings `_setup_version` assigns. */
  datatype Config = Config(datasetUrl: string, zipFilename: string, csvPathInZip: string, csvDelimiter: char)

  /** The member of the downloaded archive that holds the localities. */
  const CsvPathInZip: string := "AMTOVZ_CSV_LV95/AMTOVZ_CSV_LV95.csv"

  /** `_setup_version`: only model version `v1` exists; any other version
      makes the constructor raise. */
  function SetupVersion(modelVersion: string): (r: Result<Config, Error>)
    ensures r.Success? <==> modelVersion == "v1"
    ensures r.Success? ==> r.value.csvPathInZip == CsvPathInZip
    ensures r.Failure? ==> r.error == GeoApiError("Unsupported model version: " + modelVersion)
    ensures r.Success? ==> r.value.csvDelimiter == ';'
  {
    if modelVersion == "v1" then
      Success(Config("https://data.geo.admin.ch/ch.swisstopo-vd.ortschaftenverzeichnis_plz/" +
                     "ortschaftenverzeichnis_plz/ortschaftenverzeichnis_plz_2056.csv.zip",
                     "ortschaftenverzeichnis_plz_2056.csv.zip", CsvPathInZip, ';'))
    else Failure(GeoApiError("Unsupported model version: " + modelVersion))
  }

  /** `_get_csv_content`: `fetch` is what the remote download and
      extraction return or raise, `localRead` what reading the cached ZIP
      archive returns or raises. */
  function CsvContent(fetch: Result<string, Error>, localRead: Result<string, Error>, fallbackAllowed: bool)
    : Result<string, Error>
  {
    FetchOrFallback(fetch, localRead, fallbackAllowed, "postal codes").result
  }

  /** `_fetch_remote` reads the configured member of the downloaded
      archive, while the cached archive is read through the default
      choice, its first `.csv` member. The two agree when the configured
      member is the archive's first `.csv` member. */
  lemma RemoteAndCachedMember(names: seq<string>)
    ensures var remote := SelectCsvEntry(names, Some(CsvPathInZip));
            && (remote.Success? <==> CsvPathInZip in names)
            && (remote.Success? ==> remote.value == CsvPathInZip)
    ensures FirstMatch(names, IsCsvName) == Some(CsvPathInZip) ==>
              SelectCsvEntry(names, None) == SelectCsvEntry(names, Some(CsvPathInZip))
  {
    CsvPathIsCsv();
    SelectCsvEntrySpec(names, Some(CsvPathInZip));
    SelectCsvEntrySpec(names, None);
    if FirstMatch(names, IsCsvName) == Some(CsvPathInZip) {
      FirstMatchIsFilterHead(names, IsCsvName);
    }
  }

  /** The configured member has the `.csv` suffix. */
  lemma CsvPathIsCsv()
    ensures IsCsvName(CsvPathInZip)
  {
    assert CsvPathInZip[|CsvPathInZip| - 4..] == ".csv";
  }

  /** The record `_parse_row_v1` hands to the model once every cell it
      reads is present, with the canton validator applied and the text
      fields stripped. */
  function RowRecord(row: Row, bfs: int): PostalLocality
    requires "Ortschaftsname" in row && "PLZ" in row && "Zusatzziffer" in row && "Gemeindename" in row
    requires "Kantonskürzel" in row && "Sprache" in row && "Validity" in row
  {
    PostalLocality(
      localityName := Strip(row["Ortschaftsname"]),
      postalCode := Strip(row["PLZ"]),
      additionalDigit := Strip(row["Zusatzziffer"]),
      municipalityName := Strip(row["Gemeindename"]),
      bfsNumber := bfs,
      cantonCode := UppercaseCantonCode(Some(row["Kantonskürzel"])),
      language := Strip(row["Sprache"]),
      validityDate := Strip(row["Validity"]))
  }

  /** `_parse_row_v1`: the cells are read in argument order, so the first
      missing column raises KeyError and `int()` of the BFS number raises
      before the later columns are read; then the model validates the
      record. */
  function ParseRowV1(row: Row): (r: Result<PostalLocality, Error>)
    ensures r.Success? ==> Valid(r.value)
  {
    var _ :- Cell(row, "Ortschaftsname");
    var _ :- Cell(row, "PLZ");
    var _ :- Cell(row, "Zusatzziffer");
    var _ :- Cell(row, "Gemeindename");
    var bfsText :- Cell(row, "BFS-Nr");
    var bfs :- IntCell(bfsText);
    var _ :- Cell(row, "Kantonskürzel");
    var _ :- Cell(row, "E");
    var _ :- Cell(row, "N");
    var _ :- Cell(row, "Sprache");
    var _ :- Cell(row, "Validity");
    var l := RowRecord(row, bfs);
    var errs := FieldErrors(l);
    if errs == [] then Success(l) else Failure(ValidationError(errs))
  }

  /** A row without a locality name raises KeyError; a BFS number that
      `int()` cannot read raises ValueError once the cells before it are
      present; a parsed locality's postal code is the stripped `PLZ` cell. */
  lemma ParseRowErrors(row: Row)
    ensures "Ortschaftsname" !in row ==> ParseRowV1(row) == Failure(KeyError("Ortschaftsname"))
    ensures ("Ortschaftsname" in row && "PLZ" in row && "Zusatzziffer" in row && "Gemeindename" in row &&
             "BFS-Nr" in row && ParseInt(row["BFS-Nr"]).None?) ==>
              ParseRowV1(row) == Failure(ValueError(row["BFS-Nr"]))
    ensures ParseRowV1(row).Success? ==> "PLZ" in row && ParseRowV1(row).value.postalCode == Strip(row["PLZ"])
  {
  }

  /** `iter_all()`: the content, its leading byte-order mark dropped, read
      into rows by `readRows` (the CSV reader with delimiter `;`), and each
      row parsed as the generator reaches it. */
  function IterAll(content: Result<string, Error>, readRows: string -> seq<Row>): Run<PostalLocality, Error> {
    match content
    case Failure(e) => Run([], Some(e))
    case Success(c) => Drain(readRows(StripBom(c, true)), ParseRowV1)
  }

  /** `get_all`, which is `list(iter_all())`. */
  function GetAll(all: Run<PostalLocality, Error>): Result<seq<PostalLocality>, Error> {
    Collect(all)
  }

  /** `get_all` fails on the first exception of the content or of a row,
      and is otherwise every row parsed, in file order, each locality
      valid. */
  lemma GetAllParsesEveryRow(content: Result<string, Error>, readRows: string -> seq<Row>)
    ensures content.Failure? ==> GetAll(IterAll(content, readRows)) == Failure(content.error)
    ensures content.Success? ==>
              GetAll(IterAll(content, readRows)) == MapResult(readRows(StripBom(content.value, true)), ParseRowV1)
    ensures var r := GetAll(IterAll(content, readRows));
            r.Success? ==> forall i :: 0 <= i < |r.value| ==> Valid(r.value[i])
  {
    if content.Success? {
      var rows := readRows(StripBom(content.value, true));
      DrainCollect(rows, ParseRowV1);
      MapResultSpec(rows, ParseRowV1);
    }
  }

  /** Every locality the generator yields before it stops is valid. */
  lemma IterAllYieldsValid(content: Result<string, Error>, readRows: string -> seq<Row>)
    ensures var all := IterAll(content, readRows);
            forall i :: 0 <= i < |all.items| ==> Valid(all.items[i])
  {
    if content.Success? {
      var rows := readRows(StripBom(content.value, true));
      DrainSpec(rows, ParseRowV1);
    }
  }

  function HasPostalCode(postalCode: string): PostalLocality -> bool {
    (l: PostalLocality) => l.postalCode == Strip(postalCode)
  }

  /** `get_by_postal_code` */
  function GetByPostalCode(all: Run<PostalLocality, Error>, postalCode: string)
    : Result<seq<PostalLocality>, Error>
  {
    FilterRun(all, HasPostalCode(postalCode))
  }

  /** The list holds, in file order, exactly the localities whose postal
      code is the stripped argument; no match is an empty list, and an
      error comes only from reading the directory. */
  lemma PostalCodeQuery(all: Run<PostalLocality, Error>, postalCode: string)
    ensures var r := GetByPostalCode(all, postalCode);
            && (r.Failure? <==> all.error.Some?)
            && (r.Failure? ==> r.error == all.error.value)
            && (r.Success? ==> r.value == Filter(all.items, HasPostalCode(postalCode)))
            && (r.Success? ==> forall l :: l in r.value <==> l in all.items && l.postalCode == Strip(postalCode))
            && (r.Success? ==> IsSubsequence(r.value, all.items))
  {
    FilterRunAgree(all, HasPostalCode(postalCode));
  }

  /** As every locality read is valid, an argument that does not strip to
      four digits finds nothing. */
  lemma MalformedPostalCodeFindsNothing(content: Result<string, Error>, readRows: string -> seq<Row>,
                                        postalCode: string)
    requires !IsPostalCode(Strip(postalCode))
    ensures var r := GetByPostalCode(IterAll(content, readRows), postalCode);
            r.Success? ==> r.value == []
  {
    var all := IterAll(content, readRows);
    IterAllYieldsValid(content, readRows);
    PostalCodeQuery(all, postalCode);
    var r := GetByPostalCode(all, postalCode);
    if r.Success? && r.value != [] {
      assert r.value[0] in r.value;
      assert Valid(r.value[0]);
      ValidMeaning(r.value[0]);
    }
  }

  function InMunicipality(bfsNumber: int): PostalLocality -> bool {
    (l: PostalLocality) => l.bfsNumber == bfsNumber
  }

  /** `get_by_municipality` */
  function GetByMunicipality(all: Run<PostalLocality, Error>, bfsNumber: int)
    : Result<seq<PostalLocality>, Error>
  {
    FilterRun(all, InMunicipality(bfsNumber))
  }

  /** `iter_by_municipality` */
  function IterByMunicipality(all: Run<PostalLocality, Error>, bfsNumber: int): Run<PostalLocality, Error> {
    StreamRun(all, InMunicipality(bfsNumber))
  }

  /** The list is the order-preserving filter of `get_all` on the BFS
      number, and the generator yields the same list. */
  lemma MunicipalityQueries(all: Run<PostalLocality, Error>, bfsNumber: int)
    ensures Collect(IterByMunicipality(all, bfsNumber)) == GetByMunicipality(all, bfsNumber)
    ensures GetByMunicipality(all, bfsNumber) == match GetAll(all)
                                                 case Success(ls) => Success(Filter(ls, InMunicipality(bfsNumber)))
                                                 case Failure(e) => Failure(e)
    ensures var r := GetByMunicipality(all, bfsNumber);
            r.Success? ==> forall l :: l in r.value <==> l in all.items && l.bfsNumber == bfsNumber
  {
    FilterRunAgree(all, InMunicipality(bfsNumber));
  }

  /** The canton argument as the queries normalise it. */
  function CantonKey(code: string): string {
    Strip(Upper(code))
  }

  function InCanton(code: string): PostalLocality -> bool {
    (l: PostalLocality) => l.cantonCode == CantonKey(code)
  }

  /** `get_by_canton` */
  function GetByCanton(all: Run<PostalLocality, Error>, code: string): Result<seq<PostalLocality>, Error> {
    FilterRun(all, InCanton(code))
  }

  /** `iter_by_canton` */
  function IterByCanton(all: Run<PostalLocality, Error>, code: string): Run<PostalLocality, Error> {
    StreamRun(all, InCanton(code))
  }

  /** Both canton queries select exactly the localities whose code equals
      the upper-cased, stripped argument, in order, and agree. */
  lemma CantonQueries(all: Run<PostalLocality, Error>, code: string)
    ensures Collect(IterByCanton(all, code)) == GetByCanton(all, code)
    ensures var r := GetByCanton(all, code);
            r.Success? ==> forall l :: l in r.value <==> l in all.items && l.cantonCode == Strip(Upper(code))
    ensures IsSubsequence(IterByCanton(all, code).items, all.items)
  {
    FilterRunAgree(all, InCanton(code));
    StreamIsFilter(all.items, InCanton(code));
    FilterSubsequence(all.items, InCanton(code));
  }

  /** The query key is what the model's validator makes of the same text
      whenever that text is not blank, and a blank argument asks for the
      localities without a canton. */
  lemma CantonKeyMatchesValidator(code: string)
    ensures CantonKey(code) == UppercaseCantonCode(Some(code))
    ensures IsBlank(code) ==> CantonKey(code) == ""
  {
    UppercaseCantonCodeSpec(code);
    UpperStripCommute(code);
  }
}
