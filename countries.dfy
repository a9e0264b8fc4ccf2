/** The public country API over the generated table: the `Country`
    record, its name lookup and dictionary form, lookups by ISO2 and by
    BFS code, the sorted list of all countries and the name search. */
module Countries {
  import opened Wrappers
  import opened Text
  import opened Seqs
  import opened PyValues
  import opened StringOrder
  import opened CountryCodes

  /** The `Country` dataclass. */
  datatype Country = Country(iso2: string, bfsCode: string, iso3: string,
                             nameDe: string, nameFr: string, nameIt: string, nameEn: string)

  /** `get_name`: the name in `de`, `fr`, `it` or `en`, and the German name
      for any other language. */
  function GetName(c: Country, language: string): string {
    if language == "fr" then c.nameFr
    else if language == "it" then c.nameIt
    else if language == "en" then c.nameEn
    else c.nameDe
  }

  /** The dictionary `to_dict` returns. */
  datatype CountryDict = CountryDict(iso2: string, iso3: string, bfsCode: string, names: map<string, string>)

  /** `to_dict` */
  function ToDict(c: Country): (d: CountryDict)
    ensures d.names.Keys == {"de", "fr", "it", "en"}
  {
    CountryDict(c.iso2, c.iso3, c.bfsCode, map["de" := c.nameDe, "fr" := c.nameFr, "it" := c.nameIt, "en" := c.nameEn])
  }

  /** Reading a country back from its dictionary form; a dictionary that
      lacks one of the four names holds no country. */
  function FromDict(d: CountryDict): Option<Country> {
    if "de" in d.names && "fr" in d.names && "it" in d.names && "en" in d.names then
      Some(Country(d.iso2, d.bfsCode, d.iso3, d.names["de"], d.names["fr"], d.names["it"], d.names["en"]))
    else None
  }

  /** `to_dict` loses nothing: the country is read back from it unchanged. */
  lemma ToDictRoundTrip(c: Country)
    ensures FromDict(ToDict(c)) == Some(c)
  {
  }

  /** `get_name` is the lookup in the dictionary's names with the German
      name as the default. */
  lemma GetNameIsDictLookup(c: Country, language: string)
    ensures GetName(c, language) ==
            if language in ToDict(c).names then ToDict(c).names[language] else c.nameDe
  {
  }

  /** The country built from a table entry under the ISO2 code `iso2`. */
  function CountryOf(iso2: string, e: Entry): Country {
    Country(iso2, e.bfsCode, e.iso3, e.names.de, e.names.fr, e.names.it, e.names.en)
  }

  /** `get_country`: the entry of the upper-cased code, under that code. */
  function GetCountry(t: Table, isoCode: string): Option<Country> {
    match Get(t, Upper(isoCode))
    case Some(e) => Some(CountryOf(Upper(isoCode), e))
    case None => None
  }

  /** A country is found exactly for the codes whose upper-cased form is a
      key; its ISO2 code is that upper-cased form, and its BFS code is the
      one `get_bfs_country_code` gives. */
  lemma GetCountrySpec(t: Table, isoCode: string)
    ensures var r := GetCountry(t, isoCode);
            && (r.Some? <==> Upper(isoCode) in Keys(t))
            && (r.Some? ==> r.value.iso2 == Upper(isoCode) && NoLowerAscii(r.value.iso2))
            && (r.Some? ==> GetBfsCountryCode(t, isoCode) == Some(r.value.bfsCode))
            && (r.None? ==> GetBfsCountryCode(t, isoCode).None?)
  {
    UpperStripCommute(isoCode);
  }

  /** The case of the code does not matter. */
  lemma GetCountryIgnoresCase(t: Table, a: string, b: string)
    requires Upper(a) == Upper(b)
    ensures GetCountry(t, a) == GetCountry(t, b)
  {
  }

  /** `get_name` and `get_country_name` agree on the four languages; for
      any other language the first falls back to German where the second
      gives None. */
  lemma GetNameAgainstGetCountryName(t: Table, isoCode: string, language: string)
    requires GetCountry(t, isoCode).Some?
    ensures var c := GetCountry(t, isoCode).value;
            && (language in {"de", "fr", "it", "en"} ==> GetCountryName(t, isoCode, language) == Some(GetName(c, language)))
            && (language !in {"de", "fr", "it", "en"} ==>
                  GetCountryName(t, isoCode, language).None? && GetName(c, language) == c.nameDe)
  {
  }

  /** Switzerland is found under `ch`, `CH` and `Ch` alike, with BFS code
      8100, and its German name is the fallback for an unknown language. */
  lemma SwitzerlandCountry(t: Table)
    requires HoldsSwitzerland(t)
    ensures GetCountry(t, "ch") == GetCountry(t, "CH") == GetCountry(t, "Ch")
    ensures GetCountry(t, "CH") == Some(Country("CH", "8100", "CHE", "Schweiz", "Suisse", "Svizzera", "Switzerland"))
    ensures GetName(GetCountry(t, "CH").value, "xx") == "Schweiz"
    ensures ToDict(GetCountry(t, "CH").value).names["fr"] == "Suisse"
  {
    UpperPair("ch");
    UpperPair("Ch");
    UpperPair("CH");
  }

  /** `get_country_by_bfs`: the argument goes through `str()`, and the loop
      returns at the first entry, in iteration order, with that code. */
  method GetCountryByBfs(t: Table, bfsCode: PyValue) returns (r: Option<Country>)
    requires WellFormed(bfsCode)
    ensures r == match GetCountryByBfsCode(t, bfsCode)
                 case Some(ce) => Some(CountryOf(ce.iso2, ce.entry))
                 case None => None
  {
    var code := Str(bfsCode);
    var i := 0;
    while i < |t|
      invariant 0 <= i <= |t|
      invariant forall j :: 0 <= j < i ==> t[j].1.bfsCode != code
    {
      if t[i].1.bfsCode == code {
        assert FirstMatchAt(t, HasBfsCode(code), i);
        FirstMatchAtIndex(t, HasBfsCode(code), i);
        return Some(CountryOf(t[i].0, t[i].1));
      }
      i := i + 1;
    }
    return None;
  }

  /** The countries of `keys`, in order, skipping a key that the
      upper-casing lookup of `get_country` does not find. */
  function CountriesOf(t: Table, keys: seq<string>): (cs: seq<Country>)
    ensures |cs| <= |keys|
  {
    if keys == [] then []
    else
      CountriesOf(t, keys[..|keys| - 1]) +
      match GetCountry(t, keys[|keys| - 1])
      case Some(c) => [c]
      case None => []
  }

  /** What `get_all_countries` returns. */
  function AllCountries(t: Table): seq<Country> {
    CountriesOf(t, Sort(Keys(t)))
  }

  /** `get_all_countries` */
  method GetAllCountries(t: Table) returns (countries: seq<Country>)
    ensures countries == AllCountries(t)
  {
    var keys := Sort(Keys(t));
    countries := [];
    for i := 0 to |keys|
      invariant countries == CountriesOf(t, keys[..i])
    {
      CountriesOfStep(t, keys, i);
      var country := GetCountry(t, keys[i]);
      if country.Some? {
        countries := countries + [country.value];
      }
    }
    TakeAll(keys);
  }

  /** One more key appends its country, when it has one. */
  lemma CountriesOfStep(t: Table, keys: seq<string>, i: nat)
    requires i < |keys|
    ensures CountriesOf(t, keys[..i + 1]) ==
            CountriesOf(t, keys[..i]) + match GetCountry(t, keys[i]) case Some(c) => [c] case None => []
  {
    assert keys[..i + 1][..i] == keys[..i];
  }

  /** When every key is found, every key gives its own country. */
  lemma {:induction false} CountriesOfFoundKeys(t: Table, keys: seq<string>)
    requires forall i :: 0 <= i < |keys| ==> GetCountry(t, keys[i]).Some?
    ensures |CountriesOf(t, keys)| == |keys|
    ensures forall i :: 0 <= i < |keys| ==> Some(CountriesOf(t, keys)[i]) == GetCountry(t, keys[i])
    decreases |keys|
  {
    if keys != [] {
      var init, last := keys[..|keys| - 1], keys[|keys| - 1];
      CountriesOfFoundKeys(t, init);
      var rest := CountriesOf(t, init);
      var c := GetCountry(t, last).value;
      assert CountriesOf(t, keys) == rest + [c];
      forall i | 0 <= i < |keys|
        ensures Some(CountriesOf(t, keys)[i]) == GetCountry(t, keys[i])
      {
        if i < |init| {
          assert CountriesOf(t, keys)[i] == rest[i] && keys[i] == init[i];
        } else {
          assert CountriesOf(t, keys)[i] == c && keys[i] == last;
        }
      }
    }
  }

  /** The country of an upper-case key carries that key as its ISO2 code. */
  lemma UpperKeyCountry(t: Table, k: string)
    requires k in Keys(t) && Upper(k) == k
    ensures GetCountry(t, k).Some? && GetCountry(t, k).value.iso2 == k
  {
  }

  /** Every country listed is the `get_country` answer for a key. */
  lemma {:induction false} CountriesOfFromKeys(t: Table, keys: seq<string>)
    ensures forall c :: c in CountriesOf(t, keys) ==> exists k :: k in keys && GetCountry(t, k) == Some(c)
    decreases |keys|
  {
    if keys != [] {
      var init, last := keys[..|keys| - 1], keys[|keys| - 1];
      CountriesOfFromKeys(t, init);
      forall c | c in CountriesOf(t, keys)
        ensures exists k :: k in keys && GetCountry(t, k) == Some(c)
      {
        if c in CountriesOf(t, init) {
          var k :| k in init && GetCountry(t, k) == Some(c);
          assert k in keys;
        } else {
          assert last in keys;
        }
      }
    }
  }

  /** Each position of the sorted keys holds a key of the table, and each
      key of the table is at some position. */
  lemma SortedKeys(t: Table)
    ensures forall j :: 0 <= j < |Sort(Keys(t))| ==> Sort(Keys(t))[j] in Keys(t)
    ensures forall i :: 0 <= i < |t| ==> t[i].0 in Sort(Keys(t))
  {
    var ks := Keys(t);
    SortSpec(ks);
    forall j | 0 <= j < |Sort(ks)|
      ensures Sort(ks)[j] in ks
    {
      assert Sort(ks)[j] in multiset(Sort(ks));
    }
    forall i | 0 <= i < |t|
      ensures t[i].0 in Sort(ks)
    {
      assert ks[i] in multiset(ks);
    }
  }

  /** With upper-case keys, the list is the countries of the sorted keys,
      position by position. */
  lemma AllCountriesPositions(t: Table)
    requires forall i :: 0 <= i < |t| ==> Upper(t[i].0) == t[i].0
    ensures |AllCountries(t)| == |Sort(Keys(t))|
    ensures forall j :: 0 <= j < |Sort(Keys(t))| ==>
              AllCountries(t)[j].iso2 == Sort(Keys(t))[j] && GetCountry(t, Sort(Keys(t))[j]) == Some(AllCountries(t)[j])
  {
    var keys := Sort(Keys(t));
    SortedKeys(t);
    forall j | 0 <= j < |keys|
      ensures GetCountry(t, keys[j]).Some? && GetCountry(t, keys[j]).value.iso2 == keys[j]
    {
      var i :| 0 <= i < |t| && Keys(t)[i] == keys[j];
      UpperKeyCountry(t, keys[j]);
    }
    CountriesOfFoundKeys(t, keys);
  }

  /** With upper-case keys, the list has one country per key, in strictly
      increasing ISO2 order, each as `get_country` gives it. */
  lemma AllCountriesSpec(t: Table)
    requires forall i :: 0 <= i < |t| ==> Upper(t[i].0) == t[i].0
    ensures var all := AllCountries(t);
            && |all| == |t|
            && (forall i, j :: 0 <= i < j < |all| ==> Less(all[i].iso2, all[j].iso2))
            && (forall i :: 0 <= i < |t| ==> exists c :: c in all && c.iso2 == t[i].0)
            && (forall c :: c in all ==> GetCountry(t, c.iso2) == Some(c))
  {
    var keys := Sort(Keys(t));
    var all := AllCountries(t);
    AllCountriesPositions(t);
    SortedKeys(t);
    assert Distinct(Keys(t));
    SortDistinct(Keys(t));
    forall i | 0 <= i < |t|
      ensures exists c :: c in all && c.iso2 == t[i].0
    {
      var j :| 0 <= j < |keys| && keys[j] == t[i].0;
      assert all[j] in all;
    }
    forall c | c in all
      ensures GetCountry(t, c.iso2) == Some(c)
    {
      var j :| 0 <= j < |all| && all[j] == c;
    }
  }

  /** Every BFS code of the list is four digits when the table's are. */
  lemma AllCountriesFourDigitCodes(t: Table)
    requires FourDigitCodes(t)
    ensures forall c :: c in AllCountries(t) ==> |c.bfsCode| == 4 && Numerals.AllDigits(c.bfsCode)
  {
    CountriesOfFromKeys(t, Sort(Keys(t)));
    forall c | c in AllCountries(t)
      ensures |c.bfsCode| == 4 && Numerals.AllDigits(c.bfsCode)
    {
      var k :| k in Sort(Keys(t)) && GetCountry(t, k) == Some(c);
      var e := Get(t, Upper(k)).value;
      var i :| 0 <= i < |t| && t[i] == (Upper(k), e);
    }
  }

  /** The test of `search_countries`: the lower-cased query occurs in the
      lower-cased name in `language`. */
  function NameMatches(query: string, language: string): Country -> bool {
    (c: Country) => Contains(Lower(GetName(c, language)), Lower(query))
  }

  /** `search_countries` */
  method SearchCountries(t: Table, query: string, language: string) returns (results: seq<Country>)
    ensures results == Filter(AllCountries(t), NameMatches(query, language))
  {
    var queryLower := Lower(query);
    var all := GetAllCountries(t);
    results := [];
    for i := 0 to |all|
      invariant results == Filter(all[..i], NameMatches(query, language))
    {
      FilterStep(all, i, NameMatches(query, language));
      var name := GetName(all[i], language);
      if Contains(Lower(name), queryLower) {
        results := results + [all[i]];
      }
    }
    assert all[..|all|] == all;
  }

  /** The results are, in the order of `get_all_countries`, exactly the
      countries whose name holds the query regardless of ASCII case; a
      query differing only in case gives the same results, and the empty
      query gives every country. */
  lemma SearchCountriesSpec(t: Table, query: string, language: string)
    ensures var r := Filter(AllCountries(t), NameMatches(query, language));
            && (forall c :: c in r <==> c in AllCountries(t) && Contains(Lower(GetName(c, language)), Lower(query)))
            && IsSubsequence(r, AllCountries(t))
    ensures forall q :: Lower(q) == Lower(query) ==>
              Filter(AllCountries(t), NameMatches(q, language)) == Filter(AllCountries(t), NameMatches(query, language))
    ensures Filter(AllCountries(t), NameMatches("", language)) == AllCountries(t)
  {
    var all := AllCountries(t);
    FilterMembers(all, NameMatches(query, language));
    FilterSubsequence(all, NameMatches(query, language));
    forall q | Lower(q) == Lower(query)
      ensures Filter(all, NameMatches(q, language)) == Filter(all, NameMatches(query, language))
    {
      FilterCongruence(all, NameMatches(q, language), NameMatches(query, language));
    }
    forall i | 0 <= i < |all|
      ensures NameMatches("", language)(all[i])
    {
      assert Lower("") == "";
      assert StartsWith(Lower(GetName(all[i], language)), "");
    }
    FilterAllPass(all, NameMatches("", language));
  }
}
