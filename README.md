# openmun-opendata in Dafny

A model of the query, validation and text layer of `openmun_opendata`. That
package is a Python library exposing Swiss open government data: it has
municipalities, streets and postal codes from the Federal Statistical Office
(BFS) and swisstopo, and a generated table of BFS country codes.

The model has the following parts:

- **Shared base** (`BaseGeoAPI`), in `geobase.dfy`:
  - remote-first fetching, with a fallback to the cache;
  - the error hierarchy;
  - `int()` of a CSV cell, shared by the three row parsers;
  - stripping of the UTF-8 byte-order mark;
  - the choice of the CSV member inside a ZIP archive.
- **Municipalities** (`MunicipalitiesAPI` and the `MunicipalityV1` record), in
  `municipalities.dfy` and `municipalitymodel.dfy`:
  - row parsing;
  - the walk up the parent chain that enriches each municipality with its
    canton, bounded at depth 5 and stopping on a cycle;
  - the lookups by BFS code, historical code and canton;
  - the `active` / `historical` split;
  - the record's validators, such as the date parser that accepts
    `DD-MM-YYYY`, `YYYY-MM-DD` and `DD.MM.YYYY`.
- **Streets** (`StreetsAPI`, `StreetV1`), in `streets.dfy` and `streetmodel.dfy`:
  - row parsing;
  - the `ZIP_LABEL` parser;
  - the `ESID`-list round trip;
  - the queries.
- **Postal codes** (`PostalCodesAPI`, `PostalLocalityV1`), in `postalcodes.dfy` and
  `postalmodel.dfy`:
  - row parsing and the queries;
  - the full postal code: the four-digit code alone, or followed by `-` and the two-digit additional number (7 characters);
  - the canton and date patterns.
- **Countries**, in `countrycodes.dfy`, `countries.dfy` and `importer.dfy`:
  - the generated `COUNTRY_CODES` table and its helper functions;
  - the `Country` model and the public country API;
  - the importer that reads the BFS workbook and writes the table module,
    which is imperative and is modelled with methods whose loops fold the
    rows and write the text.
- **Python built-ins the core relies on**, in `text.dfy`, `numerals.dfy`,
  `dates.dfy`, `seqs.dfy`, `stringorder.dfy` and `pyvalues.dfy`:
  - the string methods `strip`, `split` and `upper`/`lower`, and the ASCII digit test;
  - `int()` of a string, and `datetime.date` with its C `int` argument range;
  - generators, modelled as runs that stop at the first exception;
  - `sorted()` of strings;
  - dynamically typed cell values with `str()` and truthiness.

Outcomes of the network, of the file system and of the clock are parameters
of the operations that use them.

## Model

| member | source | states |
|---|---|---|
| GeoBase.SpecialisedErrorsAreGeoApiErrors | openmun_opendata/geo/base.py:13-25 | `RemoteFetchError` and `NoFallbackDataError` are caught by `except GeoAPIError`, neither is the other, and every error is an `Exception` |
| GeoBase.FetchOrFallback | openmun_opendata/geo/base.py:240-255 | the fallback is invoked exactly when the fetch raised `RemoteFetchError` and fallback is allowed |
| GeoBase.FetchSuccessIsReturned | openmun_opendata/geo/base.py:240-241 | a successful fetch is returned and the fallback is not invoked, whatever the fallback would do |
| GeoBase.FetchOrFallbackValueOrigin | openmun_opendata/geo/base.py:240-250 | a returned value is the fallback's when the fallback was invoked and the fetch's otherwise |
| GeoBase.FetchOrFallbackErrors | openmun_opendata/geo/base.py:242-255 | a remote failure without permission raises `NoFallbackDataError` with the "fallback not allowed" message; with permission, a fallback that raises `NoFallbackDataError` gives the "no fallback data" message, and any other fallback error propagates; a fetch error other than `RemoteFetchError` propagates unchanged |
| GeoBase.StripBom | openmun_opendata/geo/base.py:213-215 | with `skip_bom` and a leading U+FEFF, the content is that mark followed by the result; otherwise the content is unchanged |
| GeoBase.StripBomRemovesOne | openmun_opendata/geo/base.py:214-215 | exactly one mark is removed, a second leading mark stays |
| GeoBase.IntCell | openmun_opendata/geo/streets.py:163 | `int()` of a cell raises ValueError naming the cell text whenever it fails |
| GeoBase.IntCellOfRendering | openmun_opendata/geo/postal_codes.py:134 | every integer's decimal rendering, with or without a minus sign, reads back as that integer |
| GeoBase.IntCellIgnoresPadding | openmun_opendata/geo/postal_codes.py:134 | surrounding whitespace does not change whether `int()` of a cell succeeds, nor the integer it gives |
| GeoBase.IntCellOfBlank | openmun_opendata/geo/streets.py:163 | an empty or blank cell raises ValueError |
| GeoBase.SelectCsvEntry | openmun_opendata/geo/base.py:135-146 | the chosen member is always one of the archive's names |
| GeoBase.SelectCsvEntrySpec | openmun_opendata/geo/base.py:135-146 | an archive without a `.csv` member is an error whatever was requested; selection fails exactly then or when a requested name is not listed; a requested name is chosen as is; without one the first `.csv` member in listing order is chosen |
| Municipalities.ParseLevel | openmun_opendata/geo/municipalities.py:170 | a failing level raises ValueError naming the `Level` cell; a level read is the integer that cell spells out |
| Municipalities.DateCell | openmun_opendata/geo/municipalities.py:168-169 | a date read from `ValidFrom` or `ValidTo` is a valid calendar date, and the only exception is an OverflowError for a value outside the C `int` range |
| Municipalities.RowRecord | openmun_opendata/geo/municipalities.py:161-173 | the record built from a row has no canton code and no canton name yet |
| Municipalities.ParseRowV1 | openmun_opendata/geo/municipalities.py:143-173 | a parsed record satisfies every field constraint of the model, has empty canton fields, and carries the stripped `HistoricalCode` and `Name` cells |
| Municipalities.ParseRowBadLevel | openmun_opendata/geo/municipalities.py:170 | a non-blank `Level` cell that is not an integer literal of ASCII digits makes the row raise ValueError, whatever else it holds |
| Municipalities.ParseRowDateOverflow | openmun_opendata/geo/models/municipalities.py:150-195 | an OverflowError of the `ValidFrom` date, and then of the `ValidTo` date, escapes the row whatever the other fields hold, and an OverflowError of the row comes from one of the two dates |
| Municipalities.HasParentOfRow | openmun_opendata/geo/models/municipalities.py:229-231 | a record built from a row has a parent exactly when the `Parent` cell is present and not blank; the parent is then the stripped, non-empty cell, so the enrichment walk can start |
| Municipalities.ParseRowNeedsHistoricalCode | openmun_opendata/geo/municipalities.py:162 | when no date overflows, a missing or blank `HistoricalCode` makes validation fail on `historical_code` |
| Municipalities.IndexOfSpec | openmun_opendata/geo/municipalities.py:185-187 | the index holds exactly the historical codes of the list, each bound to the last record that carries it |
| Municipalities.Ancestors | openmun_opendata/geo/municipalities.py:215-229 | the reference chain of parent records is at most `n` long |
| Municipalities.WalkFindsFirstCantonAncestor | openmun_opendata/geo/municipalities.py:209-229 | the walk stops at the first Level-1 record among the first five ancestors, and finds nothing when the chain breaks first |
| Municipalities.EnrichAll | openmun_opendata/geo/municipalities.py:199-238 | enrichment returns one record per input record |
| Municipalities.EnrichAllOnlyTouchesCantonFields | openmun_opendata/geo/municipalities.py:231-236 | same length, same order, and each record differs from its input only in `canton_code` and `canton_name` |
| Municipalities.EnrichedCanton | openmun_opendata/geo/municipalities.py:205-208 | a Level-1 record receives its own short name and name |
| Municipalities.EnrichedFromAncestors | openmun_opendata/geo/municipalities.py:215-226 | any other record receives the short name and name of the first Level-1 ancestor within five hops, and none without one |
| Municipalities.EnrichedMissingParent | openmun_opendata/geo/municipalities.py:219-220 | a parent code absent from the snapshot leaves both canton fields empty, with no error |
| Municipalities.WalkBoundedByMaxDepth | openmun_opendata/geo/municipalities.py:212-229 | when none of the first five ancestors is a canton, nothing is found, even if a canton lies further up |
| Municipalities.WalkEndsOnCycle | openmun_opendata/geo/municipalities.py:212-229 | a record that is its own parent ends the walk with no canton |
| Municipalities.EnrichWithCantons | openmun_opendata/geo/municipalities.py:175-238 | the loop with its depth-bounded walk produces exactly the reference enrichment |
| Municipalities.GetByBfsCode | openmun_opendata/geo/municipalities.py:315-318 | the first record in snapshot order with that BFS number, and None exactly when no record has it |
| Municipalities.GetByHistoricalCode | openmun_opendata/geo/municipalities.py:333-336 | the first record in snapshot order with that historical code, and None exactly when no record has it |
| Municipalities.CantonQueries | openmun_opendata/geo/municipalities.py:352-356 | the list and the generator of `iter_by_canton` (lines 404-407) agree, and hold exactly the records whose canton code is the upper-cased argument, in snapshot order |
| Municipalities.CantonQueryCaseInsensitive | openmun_opendata/geo/municipalities.py:352 | the argument's case does not matter |
| Municipalities.ActiveHistoricalPartition | openmun_opendata/geo/municipalities.py:369-388 | active (no `valid_to`) and historical records split the snapshot: every record is in exactly one list, and both keep snapshot order |
| Municipalities.ReferenceDate | openmun_opendata/geo/municipalities.py:67 | a missing or empty reference date falls back to today's date; any other is kept as given |
| Municipalities.RemoveCharIsFilter | openmun_opendata/geo/municipalities.py:84 | `replace('-', '')` keeps every other character, in order: it is the order-preserving filter that drops the dashes |
| Municipalities.CsvFilename | openmun_opendata/geo/municipalities.py:84 | the name is `bfs_municipalities_`, then the characters of the reference date other than `-` in their order, then `.csv` |
| Municipalities.CsvFilenameOfDayFirst | openmun_opendata/geo/municipalities.py:75-84 | a reference date written `DD-MM-YYYY`, the format of today's date and of the snapshot, names the file `bfs_municipalities_DDMMYYYY.csv` |
| Municipalities.CsvFilenameExample | openmun_opendata/geo/municipalities.py:59 | the docstring's `01-01-2025` names the file `bfs_municipalities_01012025.csv` |
| Municipalities.Configure | openmun_opendata/geo/municipalities.py:66-70 | construction accepts only `v1`, raising GeoAPIError naming any other version, and the file name is built from the reference date after its fallback to today |
| Municipalities.ConfigureReferenceDate | openmun_opendata/geo/municipalities.py:67 | without a reference date, or with an empty one, the file is named after today's date; a given date names it whatever today is |
| Municipalities.SetupVersion | openmun_opendata/geo/municipalities.py:79-89 | only `v1` is accepted, with the comma delimiter; any other version raises GeoAPIError naming it |
| Municipalities.ParseAllRows | openmun_opendata/geo/municipalities.py:256-259 | the rows are parsed in file order, and the first row that raises ends the load with its error |
| Municipalities.MunicipalitiesApi.constructor | openmun_opendata/geo/municipalities.py:72-73 | a new API object has nothing cached |
| Municipalities.MunicipalitiesApi.GetEnrichedData | openmun_opendata/geo/municipalities.py:240-267 | a filled cache is returned unchanged; otherwise the data is fetched or falls back, parsed and enriched, and the cache is filled exactly on success |
| MunicipalityModel.HandleEmptyStringSpec | openmun_opendata/geo/models/municipalities.py:144-148 | None, `''` and text that is blank after `str()` give None; anything else gives its stripped `str()` |
| MunicipalityModel.HandleEmptyStringIdempotent | openmun_opendata/geo/models/municipalities.py:144-148 | applying the validator to its own result changes nothing |
| MunicipalityModel.HandleEmptyStringTrimmed | openmun_opendata/geo/models/municipalities.py:148 | a returned text is non-empty and starts and ends with a non-whitespace character |
| MunicipalityModel.DateOfParts | openmun_opendata/geo/models/municipalities.py:177 | a date read is valid and has the three parsed integers as year, month and day; `date()` raises OverflowError only when all three fields are integers, with one of them outside the C `int` range |
| MunicipalityModel.ParseDateText | openmun_opendata/geo/models/municipalities.py:172-195 | the text branch yields only valid calendar dates, and raises only OverflowError for a value outside the C `int` range |
| MunicipalityModel.ParseDate | openmun_opendata/geo/models/municipalities.py:152-195 | the validator yields only valid dates, and its one exception, OverflowError, comes from text only |
| MunicipalityModel.ParseDateTrivialCases | openmun_opendata/geo/models/municipalities.py:161-170 | None and blank text give None, a date object is returned unchanged, and a value that is neither text nor a date gives None |
| MunicipalityModel.ParseDateUnpadded | openmun_opendata/geo/models/municipalities.py:168 | text without surrounding whitespace is parsed as it is |
| MunicipalityModel.ParseDateTextDashes | openmun_opendata/geo/models/municipalities.py:173-184 | a three-part dash text is read day-month-year when its first part has at most two characters, and year-month-day otherwise |
| MunicipalityModel.ParseDateTextDots | openmun_opendata/geo/models/municipalities.py:187-192 | a dotted text is read as parts 2, 1, 0 for year, month, day |
| MunicipalityModel.ParseDateDashForm | openmun_opendata/geo/models/municipalities.py:173-184 | numeric `a-b-c` gives `date(c, b, a)` for a short `a` and `date(a, b, c)` otherwise |
| MunicipalityModel.ParseDateDottedForm | openmun_opendata/geo/models/municipalities.py:187-192 | numeric `a.b.c` gives `date(c, b, a)` |
| MunicipalityModel.ParseDateIsoRoundTrip | openmun_opendata/geo/models/municipalities.py:180-182 | a date written as `YYYY-MM-DD` reads back as the same date |
| MunicipalityModel.ParseDateDmyDashRoundTrip | openmun_opendata/geo/models/municipalities.py:175-177 | a date written as `DD-MM-YYYY` reads back as the same date |
| MunicipalityModel.ParseDateDottedRoundTrip | openmun_opendata/geo/models/municipalities.py:187-190 | a date written as `DD.MM.YYYY` reads back as the same date |
| MunicipalityModel.ParseDateInvalidCalendarDate | openmun_opendata/geo/models/municipalities.py:176-179 | a well-shaped `DD-MM-YYYY` text naming no calendar date gives None instead of raising |
| MunicipalityModel.ParseDateYearOverflow | openmun_opendata/geo/models/municipalities.py:187-192 | a dotted date whose year is past the C `int` range raises OverflowError with that year instead of giving None |
| MunicipalityModel.MergedIsNotActive | openmun_opendata/geo/models/municipalities.py:212-226 | a merged record (`valid_to` set, no BFS code) is never active, and an active record is never merged |
| MunicipalityModel.ValidMeaning | openmun_opendata/geo/models/municipalities.py:70-140 | a record is valid exactly when its field lengths, the canton-code pattern `^([A-Z]{2}\|)$` and the level range 1..9 hold |
| StreetModel.UppercaseCantonCodeSpec | openmun_opendata/geo/models/streets.py:176-180 | empty input is returned unchanged; otherwise the result is the upper-cased, stripped input, has no lower-case letter, and is a fixed point of the validator |
| StreetModel.UppercaseCantonCodeIsCantonCode | openmun_opendata/geo/models/streets.py:112-116 | two letters of either case, however padded, become a code matching `^[A-Z]{2}$` |
| StreetModel.ParseBooleanSpec | openmun_opendata/geo/models/streets.py:184-190 | a bool is returned unchanged; None and `''` are False; otherwise True exactly when the lower-cased `str()` is one of `true`, `yes`, `1`, `j`, `ja` |
| StreetModel.ParseBooleanExamples | openmun_opendata/geo/models/streets.py:184-190 | `Ja`, `J`, `TRUE`, `Yes`, `1` and `True` are true; `nein`, `0`, `''`, None and False are false |
| StreetModel.HandleEmptyStringSpec | openmun_opendata/geo/models/streets.py:194-198 | only None and `''` give None, anything else its stripped `str()`; whitespace-only text gives `''`, where the municipality validator gives None |
| StreetModel.HasParentFromCell | openmun_opendata/geo/models/streets.py:247-254 | a street has a parent (children) exactly when the parent (children) cell is neither None nor `''` |
| StreetModel.EntryCode | openmun_opendata/geo/models/streets.py:237-242 | one comma-separated entry contributes at most one code |
| StreetModel.CodesOf | openmun_opendata/geo/models/streets.py:236-242 | no more codes than entries |
| StreetModel.PostalCodeList | openmun_opendata/geo/models/streets.py:232-244 | the loop computes the reference list of first tokens of the non-blank entries |
| StreetModel.CodesOfShape | openmun_opendata/geo/models/streets.py:240-242 | every code is non-empty and holds no whitespace |
| StreetModel.PostalCodesShape | openmun_opendata/geo/models/streets.py:235-244 | at most one code per comma-separated entry, each non-empty and without whitespace |
| StreetModel.PostalCodesRoundTrip | openmun_opendata/geo/models/streets.py:235-244 | joining bare codes with commas and reading them back gives the same codes |
| StreetModel.PostalCodesWinterthurExample | openmun_opendata/geo/models/streets.py:225-227 | `"8400 Winterthur, 8408 Winterthur"` gives `["8400", "8408"]` |
| StreetModel.PostalCodesZurichExample | openmun_opendata/geo/models/streets.py:228-230 | `"8001 Zürich"` gives `["8001"]` |
| StreetModel.OneLocality | openmun_opendata/geo/models/streets.py:218 | `code locality` gives `[code]` |
| StreetModel.TwoLocalities | openmun_opendata/geo/models/streets.py:218 | `code1 locality1, code2 locality2` gives `[code1, code2]` |
| StreetModel.StrippedParts | openmun_opendata/geo/models/streets.py:270 | no more ESIDs than comma-separated parts |
| StreetModel.StrippedPartsShape | openmun_opendata/geo/models/streets.py:270 | every ESID is non-empty and has no surrounding whitespace |
| StreetModel.StrippedPartsOfTrimmed | openmun_opendata/geo/models/streets.py:270 | parts that are already trimmed and non-empty are kept as they are |
| StreetModel.ChildrenEsidRoundTrip | openmun_opendata/geo/models/streets.py:268-270 | joining trimmed ESIDs with commas and reading them back gives the same ESIDs |
| StreetModel.ChildrenEsidExample | openmun_opendata/geo/models/streets.py:264-266 | `"10001,10002,10003"` gives three ESIDs |
| StreetModel.ValidMeaning | openmun_opendata/geo/models/streets.py:76-172 | a street is valid exactly when the field lengths, the BFS range 1..9999 and the canton pattern `^[A-Z]{2}$` hold |
| Streets.SetupVersion | openmun_opendata/geo/streets.py:67-79 | only `v1` is accepted, with the `;` delimiter and the ZIP name being the CSV name plus `.zip`; any other version raises GeoAPIError naming it |
| Streets.FetchFallback | openmun_opendata/geo/streets.py:131-136 | the extracted CSV is read exactly when reading the cached ZIP raised, and its outcome is then the result |
| Streets.CsvContentPrefersZip | openmun_opendata/geo/streets.py:138-148 | after a remote failure with fallback allowed, the cached ZIP wins when it can be read, the extracted CSV otherwise, and `NoFallbackDataError` for `streets` when neither exists |
| Streets.ParseRowV1 | openmun_opendata/geo/streets.py:150-174 | a parsed street satisfies every field constraint of the model, its ESID is the stripped `STR_ESID` cell and its municipality number is `int()` of the `COM_FOSNR` cell |
| Streets.ParseRowErrors | openmun_opendata/geo/streets.py:159-163 | a missing `STR_ESID` raises KeyError for it first; a `COM_FOSNR` that is not an integer literal of ASCII digits raises ValueError |
| Streets.GetAllParsesEveryRow | openmun_opendata/geo/streets.py:201-221 | `get_all` raises the content's error, or else is every row parsed in file order up to the first row that raises; every street in it is valid |
| Streets.GetByEsidSpec | openmun_opendata/geo/streets.py:242-246 | the first street in file order whose ESID is the stripped argument; None exactly when none is found and no row raised; the error of `iter_all` exactly when it raised and no street before it matched |
| Streets.MunicipalityQueries | openmun_opendata/geo/streets.py:269-272 | the generator of `iter_by_municipality` (lines 319-321) collects to the list, which is the order-preserving filter of `get_all` on the BFS number |
| Streets.CantonQueries | openmun_opendata/geo/streets.py:292-296 | the generator of `iter_by_canton` (lines 337-340) collects to the list, which holds exactly the streets whose canton code equals the upper-cased, stripped argument |
| Streets.CantonKeyNormalised | openmun_opendata/geo/streets.py:292 | the normalised key is `upper(strip(code))` and normalising again changes nothing |
| Streets.PostalCodeQuery | openmun_opendata/geo/streets.py:358-361 | the streets yielded are the order-preserving filter of `iter_all` on the stripped argument being in the postal-code list, duplicates included, followed by whatever error ended `iter_all` |
| PostalModel.UppercaseCantonCode | openmun_opendata/geo/models/postal_codes.py:140-144 | the result is never longer than the input, and a missing value gives `''` |
| PostalModel.UppercaseCantonCodeSpec | openmun_opendata/geo/models/postal_codes.py:140-144 | blank input gives `''`; otherwise the upper-cased, stripped input; no lower-case letter remains and the validator is a fixed point of itself |
| PostalModel.UppercaseCantonCodeMatchesPattern | openmun_opendata/geo/models/postal_codes.py:104-108 | the validated code matches `^([A-Z]{2}\|)$` exactly when the stripped input is empty or two ASCII letters |
| PostalModel.IsoDateMatchesValidityPattern | openmun_opendata/geo/models/postal_codes.py:132-136 | every ISO-formatted calendar date matches the validity pattern |
| PostalModel.ValidityPatternIsShapeOnly | openmun_opendata/geo/models/postal_codes.py:132-136 | the pattern checks the shape only: `2008-13-45` passes, `2008-7-1` does not |
| PostalModel.FullPostalCodeExamples | openmun_opendata/geo/models/postal_codes.py:154-160 | (`8001`, `00`) gives `8001` and (`8001`, `02`) gives `8001-02` |
| PostalModel.FullPostalCodeShape | openmun_opendata/geo/models/postal_codes.py:162-164 | under the field patterns the result has length 4 or 7 and starts with the postal code; it is the bare code exactly when the digit is `00`, and otherwise the code, `-` and the digit |
| PostalModel.FullPostalCodeInjective | openmun_opendata/geo/models/postal_codes.py:162-164 | different valid (postal code, additional digit) pairs never give the same full code |
| PostalModel.ValidMeaning | openmun_opendata/geo/models/postal_codes.py:70-136 | a locality is valid exactly when the field lengths, the postal-code, additional-digit, canton and validity patterns, the BFS range 1..9999 and the language set {de, fr, it, rm, multiple} hold |
| PostalModel.ValidFullPostalCode | openmun_opendata/geo/models/postal_codes.py:146-164 | a valid locality's full postal code has length 4 or 7 and starts with its four digits |
| PostalCodes.SetupVersion | openmun_opendata/geo/postal_codes.py:63-79 | only `v1` is accepted, with the `;` delimiter; any other version raises GeoAPIError naming it |
| PostalCodes.RemoteAndCachedMember | openmun_opendata/geo/postal_codes.py:95-106 | the remote ZIP yields its CSV exactly when `AMTOVZ_CSV_LV95/AMTOVZ_CSV_LV95.csv` is listed; the cached ZIP, read without a name, picks the same member when that path is its first `.csv` |
| PostalCodes.ParseRowV1 | openmun_opendata/geo/postal_codes.py:120-140 | a parsed locality satisfies every field constraint of the model |
| PostalCodes.ParseRowErrors | openmun_opendata/geo/postal_codes.py:129-140 | a missing `Ortschaftsname` raises KeyError for it; a `BFS-Nr` that is not an integer literal of ASCII digits raises ValueError; a parsed postal code is the stripped `PLZ` cell |
| PostalCodes.GetAllParsesEveryRow | openmun_opendata/geo/postal_codes.py:164-186 | `get_all` raises the content's error, or else is every row parsed in file order up to the first row that raises; every locality in it is valid |
| PostalCodes.IterAllYieldsValid | openmun_opendata/geo/postal_codes.py:164-167 | every locality the generator yields is valid |
| PostalCodes.PostalCodeQuery | openmun_opendata/geo/postal_codes.py:207-211 | the result raises exactly when `iter_all` does; otherwise it holds exactly the localities whose postal code is the stripped argument, in file order, and may be empty |
| PostalCodes.MalformedPostalCodeFindsNothing | openmun_opendata/geo/postal_codes.py:207-211 | an argument that is not four digits after stripping finds nothing, since every record's code is four digits |
| PostalCodes.MunicipalityQueries | openmun_opendata/geo/postal_codes.py:233-236 | the generator of `iter_by_municipality` (lines 273-275) collects to the list, which is the order-preserving filter of `get_all` on `bfs_number` |
| PostalCodes.CantonQueries | openmun_opendata/geo/postal_codes.py:253-257 | the generator of `iter_by_canton` (lines 291-294) collects to the list; every element's canton code equals the upper-cased, stripped argument, and every such locality is included, in order |
| PostalCodes.CantonKeyMatchesValidator | openmun_opendata/geo/postal_codes.py:253 | the query key is what the model's canton validator makes of the argument; a blank argument gives `''` |
| CountryCodes.Get | generated/bfs/country_codes.py:2533 | `COUNTRY_CODES.get(key)` is None exactly when the key is absent, and otherwise the value stored under it |
| CountryCodes.NamesMap | generated/bfs/country_codes.py:451-456 | an entry's `names` dictionary has exactly the keys de, fr, it, en |
| CountryCodes.LookupsIgnoreCase | generated/bfs/country_codes.py:2533-2550 | `get_bfs_country_code` and `get_country_name` depend on the code only through its upper-case form, and succeed exactly when that form is a key |
| CountryCodes.GetCountryNameSpec | generated/bfs/country_codes.py:2547-2550 | a name comes back exactly when the code is known and the language is one of de, fr, it, en; any other language gives None, with no German fallback |
| CountryCodes.GetCountryByBfsCodeSpec | generated/bfs/country_codes.py:2562-2566 | the first entry in table order whose code equals `str(arg)`, with its ISO2 key; None exactly when no entry has it; an integer and its decimal text find the same entry |
| CountryCodes.SwitzerlandLookups | generated/bfs/country_codes.py:448-457 | for the `CH` entry (8100, CHE): `ch` gives 8100, `Ch` in French gives `Suisse`, an unknown language gives None, and with distinct BFS codes both `'8100'` and `8100` find `CH` |
| CountryCodes.UniqueBfsCode | generated/bfs/country_codes.py:2562-2566 | with pairwise distinct BFS codes, looking up an entry's own code finds that entry |
| Countries.ToDict | openmun_opendata/countries.py:64-76 | the `names` dictionary has exactly the keys de, fr, it, en |
| Countries.ToDictRoundTrip | openmun_opendata/countries.py:64-76 | the dictionary keeps iso2, iso3, bfs_code and the four names: the country can be rebuilt from it |
| Countries.GetNameIsDictLookup | openmun_opendata/countries.py:47-62 | the name for de, fr, it or en is the one in `to_dict()`'s names; any other language gives the German name |
| Countries.GetCountrySpec | openmun_opendata/countries.py:79-99 | a country comes back exactly when the upper-cased code is a key; its iso2 is that upper-cased code and its BFS code is what `get_bfs_country_code` reports |
| Countries.GetCountryIgnoresCase | openmun_opendata/countries.py:88-91 | codes that differ only in letter case give the same country |
| Countries.GetNameAgainstGetCountryName | openmun_opendata/countries.py:56-62 | for the four languages `Country.get_name` agrees with `get_country_name`; for any other language the first falls back to German where the second gives None |
| Countries.SwitzerlandCountry | openmun_opendata/countries.py:79-99 | `ch`, `CH` and `Ch` give the same Switzerland record (8100, CHE, its four names); an unknown language gives `Schweiz` |
| Countries.GetCountryByBfs | openmun_opendata/countries.py:102-123 | the loop returns the country of the first entry, in table order, whose code equals `str(arg)`, and None when there is none, as the generated helper does |
| Countries.CountriesOf | openmun_opendata/countries.py:132-137 | no more countries than keys |
| Countries.GetAllCountries | openmun_opendata/countries.py:126-137 | the loop builds the country of each key, in sorted key order |
| Countries.CountriesOfFoundKeys | openmun_opendata/countries.py:133-136 | when every key is found, there is one country per key, in key order |
| Countries.CountriesOfFromKeys | openmun_opendata/countries.py:133-136 | every country in the list is the lookup of one of the keys |
| Countries.AllCountriesSpec | openmun_opendata/countries.py:126-137 | with upper-case keys: one country per table entry, strictly increasing by iso2, every key present, and each equal to `get_country` of its iso2 |
| Countries.AllCountriesFourDigitCodes | openmun_opendata/countries.py:126-137 | when the table's BFS codes are four digits, so are those of every listed country |
| Countries.SearchCountries | openmun_opendata/countries.py:140-158 | the loop keeps, in the order of `get_all_countries`, the countries whose name in the language contains the query |
| Countries.SearchCountriesSpec | openmun_opendata/countries.py:150-158 | a country is kept exactly when its lower-cased name contains the lower-cased query; order is kept; queries that differ only in case give the same list; the empty query keeps every country |
| CountryImporter.CollectCountries | importers/bfs_country_importer.py:75-100 | the row loop computes the reference dictionary, or the IndexError of the first short row |
| CountryImporter.FailurePersists | importers/bfs_country_importer.py:76-87 | once a row has raised, later rows change nothing |
| CountryImporter.PutLookup | importers/bfs_country_importer.py:91 | after `countries[iso2] = ...` the code maps to the new value and every other code to what it had |
| CountryImporter.PutUnique | importers/bfs_country_importer.py:91 | assignment keeps every key once |
| CountryImporter.LastKeptIndex | importers/bfs_country_importer.py:76-91 | the index found is a kept data row with that code, and no later row is |
| CountryImporter.FoldRowsLastWins | importers/bfs_country_importer.py:89-100 | under each code the dictionary holds the entry of the last kept row with that code (`str()` of the BFS cell, `''` for a falsy ISO3 or name); a code without a kept row is absent |
| CountryImporter.FoldRowsFailure | importers/bfs_country_importer.py:80-87 | the loop raises exactly when a row after the header has fewer than 23 cells, and the error names the first such row |
| CountryImporter.HeaderIgnored | importers/bfs_country_importer.py:77-78 | the first row is never read: replacing it changes nothing |
| CountryImporter.OrEmpty | importers/bfs_country_importer.py:93-98 | `x if x else ''` keeps a value's well-formedness |
| CountryImporter.EscapeReadsBack | importers/bfs_country_importer.py:128-129 | a name without backslashes, line feeds, carriage returns or NUL characters reads back unchanged from the single-quoted literal that is written |
| CountryImporter.CarriageReturnBreaksLiteral | importers/bfs_country_importer.py:128-129 | a raw carriage return ends the line, so a name holding one is written as a literal that does not close |
| CountryImporter.EscapeWithoutQuotes | importers/bfs_country_importer.py:128 | a name without `'` is written as it is |
| CountryImporter.TrailingBackslashBreaksLiteral | importers/bfs_country_importer.py:128 | backslashes are not escaped: a name ending in `\` is written unchanged and does not read back as a literal |
| CountryImporter.SortedKeysOf | importers/bfs_country_importer.py:120 | the keys are emitted in strictly increasing order, each key of the dictionary once |
| CountryImporter.WriteEntry | importers/bfs_country_importer.py:121-131 | the lines of one entry are the reference text, names in de, fr, it, en order, or the error of the first name that is not text |
| CountryImporter.NameFailurePersists | importers/bfs_country_importer.py:126-129 | once a name has raised, later names change nothing |
| CountryImporter.EntriesFailurePersists | importers/bfs_country_importer.py:120-131 | once an entry has raised, later entries change nothing |
| CountryImporter.WriteTable | importers/bfs_country_importer.py:116-133 | the emission loop writes the reference `COUNTRY_CODES` text in sorted key order, or raises the first error |
| CountryImporter.ImportCountryCodes | importers/bfs_country_importer.py:33-142 | with `force` off and an existing output it returns True and writes nothing; a missing workbook or sheet returns False; otherwise it raises the first row or name error, or writes header, table and helpers and returns True |
| Seqs.DrainSpec | openmun_opendata/geo/streets.py:203-204 | a parse generator yields each row's record in file order and stops at the first row that raises, with that row's error |
| StringOrder.SortSpec | openmun_opendata/countries.py:133 | `sorted()` of strings is ordered and holds the same strings, each as often |
| StringOrder.SortDistinct | openmun_opendata/countries.py:133 | sorting distinct dictionary keys gives a strictly increasing list |
| Numerals.ParseIntIgnoresPadding | openmun_opendata/geo/municipalities.py:170 | `int()` ignores surrounding whitespace |
| Numerals.ParseIntUnderscoreExample | openmun_opendata/geo/municipalities.py:170 | `int(" 1_000 ")` is 1000: single underscores between digits are accepted |
| Dates.MakeDate | openmun_opendata/geo/models/municipalities.py:177 | `date(y, m, d)` succeeds exactly for a valid calendar date in years 1..9999, and gives that date |

## Left out

- Network access (`_fetch_remote`, `_download_file`, the STAC catalogue queries): the outcome of a download is a parameter, either the bytes or the error.
- File I/O: the outcome of `_read_local_csv` is a parameter. Writing the cache, writing the generated module, `write_version_file`, `ensure_init_files` and `read_metadata` are not modelled.
- `generate_python_header` and `_generate_helper_functions`: their texts are parameters of the importer.
- ZIP decompression and UTF-8 decoding: only the choice of the archive member and the removal of the byte-order mark are modelled.
- `csv.DictReader`: rows arrive already split into dictionaries. The `None` that `restval` gives to the missing fields of a short row is not modelled.
- `openpyxl`: worksheet rows are sequences of dynamically typed values. Float cells are not modelled, so the `str()` of a float such as `8100.0` is not modelled either.
- Floating point: easting and northing, `float()` parsing and its `ValueError`, the LV95 bounds checks and `coordinates_lv95`. The row parsers check the coordinate cells (`E`, `N`, `STR_EASTING`, `STR_NORTHING`) only for presence, so a missing column raises the same `KeyError` as in the source.
- `datetime.now()`: the current date is the parameter `today`.
- `datetime.date` is modelled through its argument conversion and calendar check only: `OverflowError` carries the offending value, without the message text of CPython.
- Numerals.ParseInt: ASCII digits only. `int()` also accepts the other Unicode decimal digits (such as Arabic-Indic or full-width ones), and it rejects literals longer than the configured limit on integer string digits (4300 by default). Neither is modelled, so the model reads such text differently.
- Unicode case mapping: `upper()`, `lower()` and case-insensitive matching are ASCII-only. The regular expression `\d` is read as an ASCII digit.
- pydantic internals:
  - `strict`, `frozen` and `model_copy` are not modelled;
  - `str_strip_whitespace` is modelled as `Strip`;
  - a `ValidationError` is modelled as the list of the fields that failed, without its message texts.
- The `canton_by_historical_code` map built during enrichment: it is never read.
- `__str__` and `__repr__` of the records.
- The 249 entries of `COUNTRY_CODES`: the table is a parameter. The lemmas state what holds for any table that contains Switzerland under `CH` with BFS code `8100`.
- Docstring examples: the docstring of `get_country_by_bfs_code` gives `8207` as Switzerland's BFS code. In the table, `8207` belongs to `DE` and Switzerland's code is `8100`. The model follows the table.
- CountryImporter.ImportCountryCodes: requires the ISO 3166-1 alpha-2 cells to be text or falsy, and every cell to be a well-formed value. With a non-text key, the source's `sorted()` could raise `TypeError`, and that case is not modelled.
- CountryImporter.ImportCountryCodes: the `print` progress messages are left out. So are failures of `load_workbook` itself and the partially written file that an error during writing leaves behind.
- `is_active` of the street and municipality records and `has_parent` of the street record: their tests are part of the members listed above (`ActiveHistoricalPartition`, `ValidMeaning`, `HasParentFromCell`) and have no row of their own. `has_parent` of the municipality record is stated by `HasParentOfRow`.
