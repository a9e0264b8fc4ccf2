/** The BFS country importer: it reads the rows of the `Stat_Geb` sheet
    into a dictionary keyed by ISO2 code, later rows overwriting earlier
    ones, and writes that dictionary as the Python source of
    `COUNTRY_CODES`, in sorted key order with single quotes escaped. */
module CountryImporter {
  import opened Wrappers
  import opened PyValues
  import opened StringOrder
  import opened Seqs

  /** The exceptions that escape the import. */
  datatype ImportError =
    | IndexError(row: nat)        // a data row too short to hold column W
    | NotText(value: PyValue)     // a name cell without `str.replace`

  /** One value of the `countries` dictionary. The ISO3 cell is kept as
      the text the f-string later makes of it; the names stay cell values,
      since `.replace` needs them to be strings. */
  datatype RawNames = RawNames(de: PyValue, fr: PyValue, it: PyValue, en: PyValue)
  datatype RawEntry = RawEntry(bfsCode: string, iso3: string, names: RawNames)

  /** `d.get(k)` */
  function Lookup(d: seq<(string, RawEntry)>, k: string): (r: Option<RawEntry>)
    ensures r.None? <==> k !in Keys(d)
  {
    if d == [] then None
    else if d[0].0 == k then Some(d[0].1)
    else
      assert Keys(d) == [d[0].0] + Keys(d[1..]);
      Lookup(d[1..], k)
  }

  /** Each key once. */
  predicate UniqueKeys(d: seq<(string, RawEntry)>) {
    d == [] || (Lookup(d[1..], d[0].0).None? && UniqueKeys(d[1..]))
  }

  /** The `countries` dictionary, in insertion order. */
  type Dict = d: seq<(string, RawEntry)> | UniqueKeys(d) witness []

  lemma {:induction false} UniqueKeysDistinct(d: seq<(string, RawEntry)>)
    requires UniqueKeys(d)
    ensures Distinct(Keys(d))
  {
    if d != [] {
      UniqueKeysDistinct(d[1..]);
      assert Keys(d) == [d[0].0] + Keys(d[1..]);
    }
  }

  /** `d[k] = v`: an existing key keeps its position, a new key goes last. */
  function Put(d: seq<(string, RawEntry)>, k: string, v: RawEntry): seq<(string, RawEntry)> {
    if d == [] then [(k, v)]
    else if d[0].0 == k then [(k, v)] + d[1..]
    else [d[0]] + Put(d[1..], k, v)
  }

  /** After `d[k] = v`, `k` maps to `v` and every other key to what it
      mapped to before. */
  lemma {:induction false} PutLookup(d: seq<(string, RawEntry)>, k: string, v: RawEntry, x: string)
    ensures Lookup(Put(d, k, v), x) == if x == k then Some(v) else Lookup(d, x)
  {
    if d != [] && d[0].0 != k {
      PutLookup(d[1..], k, v, x);
    }
  }

  lemma {:induction false} PutUnique(d: seq<(string, RawEntry)>, k: string, v: RawEntry)
    requires UniqueKeys(d)
    ensures UniqueKeys(Put(d, k, v))
  {
    if d != [] && d[0].0 != k {
      PutUnique(d[1..], k, v);
      PutLookup(d[1..], k, v, d[0].0);
    }
  }

  /** A cell as `openpyxl` can return it. */
  predicate RowCells(row: seq<PyValue>) {
    (forall j :: 0 <= j < |row| ==> WellFormed(row[j])) &&
    (|row| > 2 ==> row[2].PyStr? || !Truthy(row[2]))
  }

  /** The sheet's rows hold values `openpyxl` can return, and an ISO2 cell
      is text or empty. */
  predicate SheetCells(rows: seq<seq<PyValue>>) {
    forall i :: 0 <= i < |rows| ==> RowCells(rows[i])
  }

  /** The filter of the loop: column W says `J`, and the BFS code (column A)
      and the ISO2 code (column C) are truthy. */
  predicate Kept(row: seq<PyValue>)
    requires |row| >= 23
  {
    row[22] == PyStr("J") && Truthy(row[0]) && Truthy(row[2])
  }

  /** `x if x else ''` */
  function OrEmpty(v: PyValue): (r: PyValue)
    ensures WellFormed(v) ==> WellFormed(r)
  {
    if Truthy(v) then v else PyStr("")
  }

  /** The dictionary value a kept row produces. */
  function EntryOf(row: seq<PyValue>): RawEntry
    requires |row| >= 23 && RowCells(row)
  {
    RawEntry(Str(row[0]), Str(OrEmpty(row[3])),
             RawNames(OrEmpty(row[4]), OrEmpty(row[5]), OrEmpty(row[6]), OrEmpty(row[7])))
  }

  /** One pass of the loop body on the row at index `i`. */
  function RowStep(d: Dict, row: seq<PyValue>, i: nat): Result<Dict, ImportError>
    requires RowCells(row)
  {
    if i == 0 then Success(d)
    else if |row| < 23 then Failure(IndexError(i))
    else if Kept(row) then
      PutUnique(d, row[2].s, EntryOf(row));
      Success(Put(d, row[2].s, EntryOf(row)))
    else Success(d)
  }

  /** The dictionary the row loop builds, or the exception that stops it. */
  function FoldRows(rows: seq<seq<PyValue>>): Result<Dict, ImportError>
    requires SheetCells(rows)
  {
    if rows == [] then Success([])
    else
      var d :- FoldRows(rows[..|rows| - 1]);
      RowStep(d, rows[|rows| - 1], |rows| - 1)
  }

  /** One more row applies the row step to the dictionary built so far. */
  lemma FoldRowsStep(rows: seq<seq<PyValue>>, i: nat)
    requires SheetCells(rows) && i < |rows|
    requires FoldRows(rows[..i]).Success?
    ensures FoldRows(rows[..i + 1]) == RowStep(FoldRows(rows[..i]).value, rows[i], i)
  {
    assert rows[..i + 1][..i] == rows[..i];
  }

  /** The row loop of `import_country_codes`. */
  method CollectCountries(rows: seq<seq<PyValue>>) returns (r: Result<Dict, ImportError>)
    requires SheetCells(rows)
    ensures r == FoldRows(rows)
  {
    var countries: Dict := [];
    for i := 0 to |rows|
      invariant FoldRows(rows[..i]) == Success(countries)
    {
      FoldRowsStep(rows, i);
      var row := rows[i];
      if i == 0 {
        continue;
      }
      if |row| < 23 {
        FailurePersists(rows, i + 1);
        return Failure(IndexError(i));
      }
      if row[22] == PyStr("J") && Truthy(row[0]) && Truthy(row[2]) {
        PutUnique(countries, row[2].s, EntryOf(row));
        countries := Put(countries, row[2].s, EntryOf(row));
      }
    }
    assert rows[..|rows|] == rows;
    return Success(countries);
  }

  /** Once the loop has raised, the remaining rows change nothing. */
  lemma {:induction false} FailurePersists(rows: seq<seq<PyValue>>, k: nat)
    requires SheetCells(rows) && k <= |rows|
    requires FoldRows(rows[..k]).Failure?
    ensures FoldRows(rows) == FoldRows(rows[..k])
    decreases |rows| - k
  {
    if k < |rows| {
      assert rows[..k + 1][..k] == rows[..k];
      FailurePersists(rows, k + 1);
    } else {
      assert rows[..k] == rows;
    }
  }

  /** A kept row at an index past the header, with the given ISO2 code. */
  predicate KeptWithKey(rows: seq<seq<PyValue>>, i: int, k: string) {
    1 <= i < |rows| && |rows[i]| >= 23 && Kept(rows[i]) && rows[i][2] == PyStr(k)
  }

  /** The index of the last kept row with the code `k`, if any. */
  function LastKeptIndex(rows: seq<seq<PyValue>>, k: string): (r: Option<nat>)
    ensures r.Some? ==> KeptWithKey(rows, r.value, k)
    ensures r.Some? ==> forall j :: r.value < j < |rows| ==> !KeptWithKey(rows, j, k)
    ensures r.None? ==> forall i :: !KeptWithKey(rows, i, k)
  {
    if |rows| <= 1 then None
    else if KeptWithKey(rows, |rows| - 1, k) then Some(|rows| - 1)
    else
      var r := LastKeptIndex(rows[..|rows| - 1], k);
      assert forall i :: KeptWithKey(rows, i, k) && i < |rows| - 1 ==> KeptWithKey(rows[..|rows| - 1], i, k);
      r
  }

  /** When the loop completes, the dictionary holds under each code the
      entry of the last kept row with that code, and nothing under a code
      no kept row has. */
  lemma {:induction false} FoldRowsLastWins(rows: seq<seq<PyValue>>, k: string)
    requires SheetCells(rows)
    requires FoldRows(rows).Success?
    ensures Lookup(FoldRows(rows).value, k) ==
              match LastKeptIndex(rows, k)
              case Some(i) => Some(EntryOf(rows[i]))
              case None => None
    decreases |rows|
  {
    if rows != [] {
      var n := |rows| - 1;
      var init := rows[..n];
      FoldRowsLastWins(init, k);
      var d := FoldRows(init).value;
      var last := rows[n];
      if n > 0 && |last| >= 23 && Kept(last) {
        PutLookup(d, last[2].s, EntryOf(last), k);
      }
      if n > 0 && !KeptWithKey(rows, n, k) {
        assert forall i :: KeptWithKey(init, i, k) ==> KeptWithKey(rows, i, k);
      }
    }
  }

  /** The loop raises exactly when a row after the header is shorter than
      23 cells, and reports the first such row. */
  lemma {:induction false} FoldRowsFailure(rows: seq<seq<PyValue>>)
    requires SheetCells(rows)
    ensures FoldRows(rows).Failure? <==> exists i :: 1 <= i < |rows| && |rows[i]| < 23
    ensures FoldRows(rows).Failure? ==>
              exists i :: 1 <= i < |rows| && |rows[i]| < 23 && FoldRows(rows).error == IndexError(i) &&
                          forall j :: 1 <= j < i ==> |rows[j]| >= 23
    decreases |rows|
  {
    if rows != [] {
      var n := |rows| - 1;
      var init := rows[..n];
      FoldRowsFailure(init);
      assert forall i :: 1 <= i < n ==> init[i] == rows[i];
      if FoldRows(init).Success? {
        RowStepFailure(FoldRows(init).value, rows[n], n);
      }
    }
  }

  /** A data row raises exactly when it is short, with its own index. */
  lemma RowStepFailure(d: Dict, row: seq<PyValue>, i: nat)
    requires RowCells(row)
    ensures RowStep(d, row, i).Failure? <==> i >= 1 && |row| < 23
    ensures RowStep(d, row, i).Failure? ==> RowStep(d, row, i).error == IndexError(i)
  {
  }

  /** The header row is skipped unread: replacing it changes nothing. */
  lemma {:induction false} HeaderIgnored(rows: seq<seq<PyValue>>, other: seq<seq<PyValue>>)
    requires SheetCells(rows) && SheetCells(other) && |rows| == |other|
    requires forall i :: 1 <= i < |rows| ==> rows[i] == other[i]
    ensures FoldRows(rows) == FoldRows(other)
    decreases |rows|
  {
    if |rows| > 1 {
      var n := |rows| - 1;
      HeaderIgnored(rows[..n], other[..n]);
    }
  }

  /** `name.replace("'", "\\'")`: a backslash goes before every single
      quote; every other character, backslashes included, is kept. */
  function Escape(s: string): string {
    if s == [] then [] else (if s[0] == '\'' then "\\'" else [s[0]]) + Escape(s[1..])
  }

  /** How Python reads the body of a single-quoted string literal, for the
      escapes `\\` and `\'`: an unescaped quote, a raw line feed or
      carriage return (either ends the line), a NUL character (never allowed
      in source) or a backslash at the very end do not make a literal.
      Other escape sequences are outside this model. */
  function ReadBody(b: string): Option<string> {
    if b == [] then Some([])
    else if b[0] == '\'' || b[0] == '\n' || b[0] == '\r' || b[0] == '\0' then None
    else if b[0] == '\\' then
      if |b| >= 2 && (b[1] == '\\' || b[1] == '\'') then
        match ReadBody(b[2..])
        case Some(rest) => Some([b[1]] + rest)
        case None => None
      else None
    else
      match ReadBody(b[1..])
      case Some(rest) => Some([b[0]] + rest)
      case None => None
  }

  /** A name without backslashes, line breaks and NUL characters reads back
      unchanged from the literal the importer writes. */
  lemma {:induction false} EscapeReadsBack(s: string)
    requires '\\' !in s && '\n' !in s && '\r' !in s && '\0' !in s
    ensures ReadBody(Escape(s)) == Some(s)
  {
    if s != [] {
      EscapeReadsBack(s[1..]);
      if s[0] == '\'' {
        assert Escape(s) == "\\'" + Escape(s[1..]);
        assert ("\\'" + Escape(s[1..]))[2..] == Escape(s[1..]);
      } else {
        assert Escape(s) == [s[0]] + Escape(s[1..]);
        assert ([s[0]] + Escape(s[1..]))[1..] == Escape(s[1..]);
      }
      assert s == [s[0]] + s[1..];
    }
  }

  /** A name without single quotes is written as it is. */
  lemma {:induction false} EscapeWithoutQuotes(s: string)
    requires '\'' !in s
    ensures Escape(s) == s
  {
    if s != [] {
      EscapeWithoutQuotes(s[1..]);
      assert s == [s[0]] + s[1..];
    }
  }

  /** A raw carriage return ends the line, so a name holding one is written
      as a literal that does not close. */
  lemma CarriageReturnBreaksLiteral()
    ensures Escape("a\rb") == "a\rb"
    ensures ReadBody(Escape("a\rb")) == None
  {
    assert Escape("a\rb") == "a" + Escape("\rb");
    assert ReadBody("a\rb") == None by {
      assert ("a\rb")[1..] == "\rb";
    }
  }

  /** Backslashes are not escaped: a name ending in one makes the closing
      quote part of the literal. */
  lemma TrailingBackslashBreaksLiteral()
    ensures Escape("C:\\") == "C:\\"
    ensures ReadBody(Escape("C:\\")) == None
  {
  }

  /** The text of a name, or the exception `.replace` raises on a value
      that is not a string. */
  function NameText(v: PyValue): Result<string, ImportError> {
    if v.PyStr? then Success(v.s) else Failure(NotText(v))
  }

  /** `data['names'].items()`, in insertion order. */
  function NameItems(n: RawNames): seq<(string, PyValue)> {
    [("de", n.de), ("fr", n.fr), ("it", n.it), ("en", n.en)]
  }

  /** The lines the inner loop writes for `items`, or its exception. */
  function NameLines(items: seq<(string, PyValue)>): Result<string, ImportError> {
    if items == [] then Success("")
    else
      var init :- NameLines(items[..|items| - 1]);
      var name :- NameText(items[|items| - 1].1);
      Success(init + "            '" + items[|items| - 1].0 + "': '" + Escape(name) + "',\n")
  }

  /** The text the outer loop writes for the key `k`. */
  function EntryText(k: string, e: RawEntry): Result<string, ImportError> {
    var names :- NameLines(NameItems(e.names));
    Success("    '" + k + "': {\n" + "        'bfs_code': '" + e.bfsCode + "',\n" +
            "        'iso3': '" + e.iso3 + "',\n" + "        'names': {\n" + names +
            "        }\n" + "    },\n")
  }

  /** The text of the entries of `keys`, in that order. */
  function EntriesText(d: Dict, keys: seq<string>): Result<string, ImportError>
    requires forall i :: 0 <= i < |keys| ==> keys[i] in Keys(d)
  {
    if keys == [] then Success("")
    else
      var init :- EntriesText(d, keys[..|keys| - 1]);
      var k := keys[|keys| - 1];
      var entry :- EntryText(k, Lookup(d, k).value);
      Success(init + entry)
  }

  const TableHead: string := "# ISO 3166-1 alpha-2 codes mapped to BFS codes and names\nCOUNTRY_CODES = {\n"

  /** The `COUNTRY_CODES` part of the generated module. */
  function TableText(d: Dict): Result<string, ImportError> {
    SortedKeysOf(d);
    var entries :- EntriesText(d, Sort(Keys(d)));
    Success(TableHead + entries + "}\n\n")
  }

  /** The sorted keys are the dictionary's keys, each once, in strictly
      increasing order. */
  lemma SortedKeysOf(d: Dict)
    ensures forall i :: 0 <= i < |Sort(Keys(d))| ==> Sort(Keys(d))[i] in Keys(d)
    ensures forall k :: k in Keys(d) ==> k in Sort(Keys(d))
    ensures StrictlySorted(Sort(Keys(d)))
  {
    var ks := Keys(d);
    SortSpec(ks);
    UniqueKeysDistinct(d);
    SortDistinct(ks);
    forall i | 0 <= i < |Sort(ks)|
      ensures Sort(ks)[i] in ks
    {
      assert Sort(ks)[i] in multiset(Sort(ks));
    }
    forall k | k in ks
      ensures k in Sort(ks)
    {
      assert k in multiset(ks);
    }
  }

  /** The text of one entry, written line by line. */
  method WriteEntry(k: string, e: RawEntry) returns (r: Result<string, ImportError>)
    ensures r == EntryText(k, e)
  {
    var out := "    '" + k + "': {\n" + "        'bfs_code': '" + e.bfsCode + "',\n" +
               "        'iso3': '" + e.iso3 + "',\n" + "        'names': {\n";
    var items := NameItems(e.names);
    var names := "";
    for j := 0 to |items|
      invariant NameLines(items[..j]) == Success(names)
    {
      assert items[..j + 1][..j] == items[..j];
      var (lang, name) := items[j];
      if !name.PyStr? {
        assert NameLines(items[..j + 1]).Failure?;
        NameFailurePersists(items, j + 1);
        return Failure(NotText(name));
      }
      names := names + "            '" + lang + "': '" + Escape(name.s) + "',\n";
    }
    assert items[..|items|] == items;
    return Success(out + names + "        }\n" + "    },\n");
  }

  lemma {:induction false} NameFailurePersists(items: seq<(string, PyValue)>, k: nat)
    requires k <= |items| && NameLines(items[..k]).Failure?
    ensures NameLines(items) == NameLines(items[..k])
    decreases |items| - k
  {
    if k < |items| {
      assert items[..k + 1][..k] == items[..k];
      NameFailurePersists(items, k + 1);
    } else {
      assert items[..k] == items;
    }
  }

  lemma {:induction false} EntriesFailurePersists(d: Dict, keys: seq<string>, k: nat)
    requires forall i :: 0 <= i < |keys| ==> keys[i] in Keys(d)
    requires k <= |keys| && EntriesText(d, keys[..k]).Failure?
    ensures EntriesText(d, keys) == EntriesText(d, keys[..k])
    decreases |keys| - k
  {
    if k < |keys| {
      assert keys[..k + 1][..k] == keys[..k];
      EntriesFailurePersists(d, keys, k + 1);
    } else {
      assert keys[..k] == keys;
    }
  }

  /** One more key extends the text by that key's entry, or by its error. */
  lemma EntriesTextStep(d: Dict, keys: seq<string>, i: nat)
    requires forall i :: 0 <= i < |keys| ==> keys[i] in Keys(d)
    requires i < |keys| && EntriesText(d, keys[..i]).Success?
    ensures EntriesText(d, keys[..i + 1]) ==
            match EntryText(keys[i], Lookup(d, keys[i]).value)
            case Failure(e) => Failure(e)
            case Success(entry) => Success(EntriesText(d, keys[..i]).value + entry)
  {
    assert keys[..i + 1][..i] == keys[..i];
  }

  /** The inner part of the emission loop over the given keys. */
  method WriteEntries(d: Dict, keys: seq<string>) returns (r: Result<string, ImportError>)
    requires forall i :: 0 <= i < |keys| ==> keys[i] in Keys(d)
    ensures r == EntriesText(d, keys)
  {
    var entries := "";
    for i := 0 to |keys|
      invariant EntriesText(d, keys[..i]) == Success(entries)
    {
      EntriesTextStep(d, keys, i);
      var entry := WriteEntry(keys[i], Lookup(d, keys[i]).value);
      if entry.Failure? {
        EntriesFailurePersists(d, keys, i + 1);
        return Failure(entry.error);
      }
      entries := entries + entry.value;
    }
    assert keys[..|keys|] == keys;
    return Success(entries);
  }

  /** The emission loop: the entries in sorted key order. */
  method WriteTable(d: Dict) returns (r: Result<string, ImportError>)
    ensures r == TableText(d)
  {
    SortedKeysOf(d);
    var entries := WriteEntries(d, Sort(Keys(d)));
    if entries.Failure? {
      return Failure(entries.error);
    }
    return Success(TableHead + entries.value + "}\n\n");
  }

  /** What `import_country_codes` returns, and the text it writes. */
  datatype Outcome = Outcome(success: bool, written: Option<string>)

  /** `import_country_codes`: `outputExists` and `excelExists` are the two
      file checks, `sheetNames` the workbook's sheets, `rows` the sheet's
      rows, `header` the module header (which carries the current time) and
      `helpers` the fixed text of the helper functions. */
  method ImportCountryCodes(force: bool, outputExists: bool, excelExists: bool, sheetNames: seq<string>,
                            rows: seq<seq<PyValue>>, header: string, helpers: string)
    returns (r: Result<Outcome, ImportError>)
    requires SheetCells(rows)
    ensures !force && outputExists ==> r == Success(Outcome(true, None))
    ensures (force || !outputExists) && !excelExists ==> r == Success(Outcome(false, None))
    ensures (force || !outputExists) && excelExists && "Stat_Geb" !in sheetNames ==> r == Success(Outcome(false, None))
    ensures (force || !outputExists) && excelExists && "Stat_Geb" in sheetNames ==>
              match FoldRows(rows)
              case Failure(e) => r == Failure(e)
              case Success(d) =>
                match TableText(d)
                case Failure(e) => r == Failure(e)
                case Success(table) => r == Success(Outcome(true, Some(header + table + helpers)))
  {
    if !force && outputExists {
      return Success(Outcome(true, None));
    }
    if !excelExists {
      return Success(Outcome(false, None));
    }
    if "Stat_Geb" !in sheetNames {
      return Success(Outcome(false, None));
    }
    var countries := CollectCountries(rows);
    if countries.Failure? {
      return Failure(countries.error);
    }
    var table := WriteTable(countries.value);
    if table.Failure? {
      return Failure(table.error);
    }
    return Success(Outcome(true, Some(header + table.value + helpers)));
  }
}
