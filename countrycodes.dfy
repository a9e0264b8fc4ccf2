/** The generated BFS country table `COUNTRY_CODES` and its three helper
    functions. The table is a dictionary from ISO 3166-1 alpha-2 code to
    an entry; its 249 entries are not transcribed: every operation takes
    the table as a parameter, in the dictionary's iteration order. */
module CountryCodes {
  import opened Wrappers
  import opened Text
  import opened Seqs
  import opened Numerals
  import opened PyValues

  /** The four names of an entry's `names` dictionary. */
  datatype Names = Names(de: string, fr: string, it: string, en: string)

  /** One value of the table. */
  datatype Entry = Entry(bfsCode: string, iso3: string, names: Names)

  predicate DistinctKeys(t: seq<(string, Entry)>) {
    forall i, j :: 0 <= i < j < |t| ==> t[i].0 != t[j].0
  }

  /** A dictionary in insertion order: each key once. */
  type Table = t: seq<(string, Entry)> | DistinctKeys(t) witness []

  /** `t.get(key)` */
  function Get(t: Table, key: string): (r: Option<Entry>)
    ensures r.None? <==> key !in Keys(t)
    ensures r.Some? ==> exists i :: 0 <= i < |t| && t[i] == (key, r.value)
    decreases |t|
  {
    if t == [] then None
    else if t[0].0 == key then Some(t[0].1)
    else
      var rest: Table := t[1..];
      var r := Get(rest, key);
      assert Keys(t) == [t[0].0] + Keys(rest);
      if r.Some? then
        var i :| 0 <= i < |rest| && rest[i] == (key, r.value);
        assert t[i + 1] == (key, r.value);
        r
      else r
  }

  /** With distinct keys the entry found is the one stored at the key. */
  lemma GetAt(t: Table, i: int)
    requires 0 <= i < |t|
    ensures Get(t, t[i].0) == Some(t[i].1)
  {
    var r := Get(t, t[i].0);
    assert t[i].0 in Keys(t);
    var k :| 0 <= k < |t| && t[k] == (t[i].0, r.value);
    assert k == i;
  }

  /** The `names` dictionary as the generated source writes it. */
  function NamesMap(n: Names): (m: map<string, string>)
    ensures m.Keys == {"de", "fr", "it", "en"}
  {
    map["de" := n.de, "fr" := n.fr, "it" := n.it, "en" := n.en]
  }

  /** `get_bfs_country_code`: the entry of the upper-cased code. */
  function GetBfsCountryCode(t: Table, isoCode: string): Option<string> {
    match Get(t, Upper(isoCode))
    case Some(e) => Some(e.bfsCode)
    case None => None
  }

  /** `get_country_name`: a name only for a language key of the entry's
      names; any other language gives None. */
  function GetCountryName(t: Table, isoCode: string, language: string): Option<string> {
    match Get(t, Upper(isoCode))
    case Some(e) => if language in NamesMap(e.names) then Some(NamesMap(e.names)[language]) else None
    case None => None
  }

  /** The dictionary `{'iso2': iso_code, **data}`. */
  datatype CodedEntry = CodedEntry(iso2: string, entry: Entry)

  function HasBfsCode(code: string): ((string, Entry)) -> bool {
    (p: (string, Entry)) => p.1.bfsCode == code
  }

  /** `get_country_by_bfs_code`: the argument goes through `str()`, and the
      scan returns at the first entry, in iteration order, with that code. */
  function GetCountryByBfsCode(t: Table, bfsCode: PyValue): Option<CodedEntry>
    requires WellFormed(bfsCode)
  {
    match FirstMatch(t, HasBfsCode(Str(bfsCode)))
    case Some(p) => Some(CodedEntry(p.0, p.1))
    case None => None
  }

  /** The lookups are case-insensitive in the code (ASCII letters), and
      each succeeds exactly when the upper-cased code is a key. */
  lemma LookupsIgnoreCase(t: Table, a: string, b: string, language: string)
    requires Upper(a) == Upper(b)
    ensures GetBfsCountryCode(t, a) == GetBfsCountryCode(t, b)
    ensures GetCountryName(t, a, language) == GetCountryName(t, b, language)
    ensures GetBfsCountryCode(t, a).Some? <==> Upper(a) in Keys(t)
  {
  }

  /** `get_country_name` gives the entry's name in one of the four
      languages, and None for any other language even when the code is
      known: there is no German fallback. */
  lemma GetCountryNameSpec(t: Table, isoCode: string, language: string)
    ensures var r := GetCountryName(t, isoCode, language);
            && (r.Some? <==> Upper(isoCode) in Keys(t) && language in {"de", "fr", "it", "en"})
            && (Get(t, Upper(isoCode)).Some? && language == "de" ==> r == Some(Get(t, Upper(isoCode)).value.names.de))
            && (Get(t, Upper(isoCode)).Some? && language == "en" ==> r == Some(Get(t, Upper(isoCode)).value.names.en))
  {
    var g := Get(t, Upper(isoCode));
    if g.Some? {
      var m := NamesMap(g.value.names);
      assert language in m <==> language in {"de", "fr", "it", "en"};
      assert m["de"] == g.value.names.de && m["en"] == g.value.names.en;
    }
  }

  /** The entry found by BFS code is the first in iteration order with
      that code; None means no entry has it; `str()` makes an integer and
      its decimal text find the same entry. */
  lemma GetCountryByBfsCodeSpec(t: Table, bfsCode: PyValue)
    requires WellFormed(bfsCode)
    ensures var r := GetCountryByBfsCode(t, bfsCode);
            && (r.None? <==> forall i :: 0 <= i < |t| ==> t[i].1.bfsCode != Str(bfsCode))
            && (r.Some? ==> r.value.entry.bfsCode == Str(bfsCode))
            && (r.Some? ==> exists i :: 0 <= i < |t| && t[i] == (r.value.iso2, r.value.entry) &&
                                        forall j :: 0 <= j < i ==> t[j].1.bfsCode != Str(bfsCode))
    ensures bfsCode.PyInt? ==> GetCountryByBfsCode(t, bfsCode) == GetCountryByBfsCode(t, PyStr(IntToString(bfsCode.i)))
  {
    var r := FirstMatch(t, HasBfsCode(Str(bfsCode)));
    if r.Some? {
      var i :| FirstMatchAt(t, HasBfsCode(Str(bfsCode)), i) && t[i] == r.value;
    }
  }

  /** The entry of Switzerland as the table holds it. */
  const Switzerland: Entry := Entry("8100", "CHE", Names("Schweiz", "Suisse", "Svizzera", "Switzerland"))

  /** The table holds Switzerland under `CH` with BFS code 8100. */
  predicate HoldsSwitzerland(t: Table) {
    Get(t, "CH") == Some(Switzerland)
  }

  /** Every BFS code of the table is four decimal digits. */
  predicate FourDigitCodes(t: Table) {
    forall i :: 0 <= i < |t| ==> |t[i].1.bfsCode| == 4 && AllDigits(t[i].1.bfsCode)
  }

  /** No two entries share a BFS code. */
  predicate DistinctBfsCodes(t: Table) {
    forall i, j :: 0 <= i < j < |t| ==> t[i].1.bfsCode != t[j].1.bfsCode
  }

  /** What the three helpers answer for Switzerland: the code in any case,
      its names only in the four languages, and the BFS code 8100 as text
      or as a number when no other entry has it. */
  lemma SwitzerlandLookups(t: Table)
    requires HoldsSwitzerland(t)
    ensures GetBfsCountryCode(t, "ch") == Some("8100")
    ensures GetCountryName(t, "Ch", "fr") == Some("Suisse")
    ensures GetCountryName(t, "CH", "xx") == None
    ensures DistinctBfsCodes(t) ==> GetCountryByBfsCode(t, PyStr("8100")) == Some(CodedEntry("CH", Switzerland))
    ensures DistinctBfsCodes(t) ==> GetCountryByBfsCode(t, PyInt(8100)) == Some(CodedEntry("CH", Switzerland))
  {
    UpperPair("ch");
    UpperPair("Ch");
    UpperPair("CH");
    GetCountryNameSpec(t, "CH", "xx");
    assert "xx" !in {"de", "fr", "it", "en"} by {
      assert "xx"[0] == 'x';
    }
    SwitzerlandCodeText();
    if DistinctBfsCodes(t) {
      UniqueBfsCode(t, "CH", Switzerland);
      GetCountryByBfsCodeSpec(t, PyInt(8100));
    }
  }

  /** `str(8100)` is `'8100'`. */
  lemma SwitzerlandCodeText()
    ensures IntToString(8100) == "8100"
  {
    assert Digits(8100) == Digits(810) + "0";
    assert Digits(810) == Digits(81) + "0";
    assert Digits(81) == Digits(8) + "1";
  }

  /** With distinct BFS codes, looking up an entry's own code finds it. */
  lemma UniqueBfsCode(t: Table, key: string, e: Entry)
    requires DistinctBfsCodes(t) && Get(t, key) == Some(e)
    ensures GetCountryByBfsCode(t, PyStr(e.bfsCode)) == Some(CodedEntry(key, e))
  {
    var i :| 0 <= i < |t| && t[i] == (key, e);
    GetCountryByBfsCodeSpec(t, PyStr(e.bfsCode));
    var r := GetCountryByBfsCode(t, PyStr(e.bfsCode));
    var k :| 0 <= k < |t| && t[k] == (r.value.iso2, r.value.entry) &&
             forall j :: 0 <= j < k ==> t[j].1.bfsCode != e.bfsCode;
    assert k == i;
  }
}
