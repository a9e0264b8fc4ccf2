/** `StreetV1`, one entry of the official Swiss street directory: its
    fields, the validators that normalise the raw CSV cells, the field
    constraints and the derived lists and flags. */
module StreetModel {
  import opened Wrappers
  import opened Text
  import Seqs
  import opened Numerals
  import opened Dates
  import opened PyValues
  import MunicipalityModel

  /** The LV95 coordinates are not part of this model. */
  datatype Street = Street(
    esid: string,
    name: string,
    postalCodes: string,
    municipalityBfs: int,
    municipalityName: string,
    cantonCode: string,
    streetType: string,
    status: string,
    isOfficial: bool,
    modifiedDate: string,
    parentEsid: Option<string>,
    childrenEsids: Option<string>)

  /** The canton validator: a non-empty code is upper-cased and then
      stripped; the empty string passes through unchanged. */
  function UppercaseCantonCode(v: string): (r: string)
  {
    if v != "" then Strip(Upper(v)) else v
  }

  /** The validator's result is the stripped, upper-cased input whatever
      the order of the two steps, has no lower-case letter left, and is a
      fixed point of the validator. */
  lemma UppercaseCantonCodeSpec(v: string)
    ensures v == "" ==> UppercaseCantonCode(v) == ""
    ensures UppercaseCantonCode(v) == Upper(Strip(v))
    ensures NoLowerAscii(UppercaseCantonCode(v))
    ensures UppercaseCantonCode(UppercaseCantonCode(v)) == UppercaseCantonCode(v)
  {
    UpperStripCommute(v);
    var r := Upper(Strip(v));
    UpperStripCommute(Strip(v));
    StripIdempotent(v);
    UpperIdempotent(Strip(v));
    if r != "" {
      assert UppercaseCantonCode(r) == Strip(Upper(r));
    }
  }

  /** Two ASCII letters in either case, with any padding, pass the
      `^[A-Z]{2}$` constraint after the validator. */
  lemma UppercaseCantonCodeIsCantonCode(v: string)
    requires |Strip(v)| == 2
    requires forall k :: 0 <= k < 2 ==> 'a' <= Strip(v)[k] <= 'z' || 'A' <= Strip(v)[k] <= 'Z'
    ensures MunicipalityModel.IsCantonCode(UppercaseCantonCode(v))
  {
    UppercaseCantonCodeSpec(v);
  }

  /** The tokens `parse_boolean` reads as true, once lower-cased. */
  const TrueTokens: seq<string> := ["true", "yes", "1", "j", "ja"]

  /** `parse_boolean`: a `bool` passes through; `None` and `''` are false;
      anything else is true exactly when its lower-cased text is one of
      the true tokens. */
  function ParseBoolean(v: PyValue): bool
    requires WellFormed(v)
  {
    if v.PyBool? then v.b
    else if v.PyNone? || v == PyStr("") then false
    else Lower(Str(v)) in TrueTokens
  }

  /** The rendering of an integer has digits and a minus sign only, which
      lower-casing leaves alone. */
  lemma LowerIntToString(i: int)
    ensures Lower(IntToString(i)) == IntToString(i)
    ensures forall k :: 0 <= k < |IntToString(i)| ==> IsDigit(IntToString(i)[k]) || IntToString(i)[k] == '-'
  {
    var s := IntToString(i);
    if i >= 0 {
      assert s == Digits(i);
    } else {
      assert s == "-" + Digits(-i);
      assert forall k :: 1 <= k < |s| ==> s[k] == Digits(-i)[k - 1];
    }
  }

  /** What `parse_boolean` accepts, by type: a `bool` is itself, the integer
      `1` is the only true integer, a string is true exactly when its
      lower-cased form is a true token, and nothing else is true. */
  lemma ParseBooleanSpec(v: PyValue)
    requires WellFormed(v)
    ensures ParseBoolean(v) <==>
      (v.PyBool? && v.b) || (v.PyInt? && v.i == 1) || (v.PyStr? && Lower(v.s) in TrueTokens)
  {
    match v
    case PyInt(i) =>
      LowerIntToString(i);
      var s := IntToString(i);
      assert IsDigit(s[0]) || s[0] == '-';
      if s in TrueTokens {
        assert s == "1";
        assert IntToString(1) == "1";
        ParseIntToString(i);
        ParseIntToString(1);
      }
      if i == 1 {
        assert s == "1";
      }
    case PyDate(d) =>
      assert |Lower(Str(v))| == 10;
    case _ =>
  }

  /** Typical cells of the `STR_OFFICIAL` column. */
  lemma ParseBooleanExamples()
    ensures ParseBoolean(PyStr("Ja")) && ParseBoolean(PyStr("J")) && ParseBoolean(PyStr("TRUE"))
    ensures ParseBoolean(PyStr("Yes")) && ParseBoolean(PyStr("1"))
    ensures !ParseBoolean(PyStr("nein")) && !ParseBoolean(PyStr("0")) && !ParseBoolean(PyStr(""))
    ensures !ParseBoolean(PyNone) && !ParseBoolean(PyBool(false)) && ParseBoolean(PyBool(true))
  {
    assert Lower("Ja") == "ja";
    assert Lower("J") == "j";
    assert Lower("TRUE") == "true";
    assert Lower("Yes") == "yes";
    assert Lower("1") == "1";
    assert Lower("nein") == "nein";
    assert Lower("0") == "0";
  }

  /** The validator of `parent_esid` and `children_esids`: `''` and `None`
      give `None`, anything else its stripped text. */
  function HandleEmptyString(v: PyValue): (r: Option<string>)
    requires WellFormed(v)
  {
    if v == PyStr("") || v.PyNone? then None else Some(Strip(Str(v)))
  }

  /** Only `None` and the empty string give `None`; a blank string gives
      `''`, unlike the municipality validator, which gives `None` for it. */
  lemma HandleEmptyStringSpec(v: PyValue)
    requires WellFormed(v)
    ensures HandleEmptyString(v).None? <==> v.PyNone? || v == PyStr("")
    ensures HandleEmptyString(v).Some? ==> HandleEmptyString(v).value == Strip(Str(v))
    ensures v.PyStr? && v.s != "" && IsBlank(v.s) ==>
              HandleEmptyString(v) == Some("") && MunicipalityModel.HandleEmptyString(v).None?
  {
    if v.PyStr? {
      StripEmptyIffBlank(v.s);
      MunicipalityModel.HandleEmptyStringSpec(v);
    }
  }

  /** `has_parent` */
  predicate HasParent(s: Street) {
    s.parentEsid.Some?
  }

  /** `has_children` */
  predicate HasChildren(s: Street) {
    s.childrenEsids.Some?
  }

  /** Through the validator, a street has a parent (or children) exactly
      when the cell was neither `None` nor `''`, so a blank cell counts. */
  lemma HasParentFromCell(s: Street, parentCell: PyValue, childrenCell: PyValue)
    requires WellFormed(parentCell) && WellFormed(childrenCell)
    requires s.parentEsid == HandleEmptyString(parentCell)
    requires s.childrenEsids == HandleEmptyString(childrenCell)
    ensures HasParent(s) <==> !(parentCell.PyNone? || parentCell == PyStr(""))
    ensures HasChildren(s) <==> !(childrenCell.PyNone? || childrenCell == PyStr(""))
  {
    HandleEmptyStringSpec(parentCell);
    HandleEmptyStringSpec(childrenCell);
  }

  /** What the loop of `postal_code_list` appends for one comma-separated
      entry: the first whitespace token of the stripped entry, if any. */
  function EntryCode(entry: string): (r: seq<string>)
    ensures |r| <= 1
  {
    var e := Strip(entry);
    if e != [] then
      var parts := Tokens(e);
      if parts != [] then [parts[0]] else []
    else []
  }

  /** The codes the loop has collected after the given entries. */
  function CodesOf(entries: seq<string>): (codes: seq<string>)
    ensures |codes| <= |entries|
  {
    if entries == [] then []
    else CodesOf(entries[..|entries| - 1]) + EntryCode(entries[|entries| - 1])
  }

  /** `postal_code_list` as a value. */
  function PostalCodesOf(postalCodes: string): seq<string> {
    if postalCodes == "" then [] else CodesOf(Split(postalCodes, ','))
  }

  /** `postal_code_list`: the loop over the comma-separated entries. */
  method PostalCodeList(postalCodes: string) returns (codes: seq<string>)
    ensures codes == PostalCodesOf(postalCodes)
  {
    if postalCodes == "" {
      return [];
    }
    var entries := Split(postalCodes, ',');
    codes := [];
    for k := 0 to |entries|
      invariant codes == CodesOf(entries[..k])
    {
      CodesOfStep(entries, k);
      var code := FirstCode(entries[k]);
      codes := codes + code;
    }
    Seqs.TakeAll(entries);
  }

  /** The body of the loop of `postal_code_list`: the first token of the
      stripped entry, or nothing for a blank entry. */
  method FirstCode(entry: string) returns (code: seq<string>)
    ensures code == EntryCode(entry)
  {
    code := [];
    var e := Strip(entry);
    if e != "" {
      var parts := Tokens(e);
      if parts != [] {
        code := [parts[0]];
      }
    }
  }

  /** One more entry appends that entry's code. */
  lemma CodesOfStep(entries: seq<string>, k: nat)
    requires k < |entries|
    ensures CodesOf(entries[..k + 1]) == CodesOf(entries[..k]) + EntryCode(entries[k])
  {
    assert entries[..k + 1][..k] == entries[..k];
  }

  /** Every code the loop collects is non-empty and free of whitespace. */
  lemma {:induction false} CodesOfShape(entries: seq<string>)
    ensures forall k :: 0 <= k < |CodesOf(entries)| ==> CodesOf(entries)[k] != [] && NoSpace(CodesOf(entries)[k])
    decreases |entries|
  {
    if entries != [] {
      var n := |entries| - 1;
      CodesOfShape(entries[..n]);
      var e := Strip(entries[n]);
      if e != [] {
        var parts := Tokens(e);
        if parts != [] {
          assert parts[0] != [] && NoSpace(parts[0]);
        }
      }
    }
  }

  /** The list has at most one code per comma-separated entry, and every
      code is non-empty and free of whitespace. */
  lemma PostalCodesShape(postalCodes: string)
    ensures |PostalCodesOf(postalCodes)| <= |Split(postalCodes, ',')|
    ensures forall k :: 0 <= k < |PostalCodesOf(postalCodes)| ==>
              PostalCodesOf(postalCodes)[k] != [] && NoSpace(PostalCodesOf(postalCodes)[k])
  {
    CodesOfShape(Split(postalCodes, ','));
  }

  lemma DigitsHaveNoSpace(s: string)
    requires AllDigits(s)
    ensures NoSpace(s)
  {
  }

  /** `t.split()[0]` of a word followed by whitespace or nothing is that word. */
  lemma {:induction false} TakeWordOf(w: string, rest: string)
    requires NoSpace(w)
    requires rest == [] || IsSpace(rest[0])
    ensures TakeWord(w + rest) == w
  {
    if w != [] {
      assert (w + rest)[0] == w[0];
      assert (w + rest)[1..] == w[1..] + rest;
      TakeWordOf(w[1..], rest);
      assert [w[0]] + w[1..] == w;
    } else {
      assert w + rest == rest;
    }
  }

  /** `lstrip` skips a blank prefix. */
  lemma {:induction false} LStripBlankPrefix(pad: string, s: string)
    requires IsBlank(pad)
    ensures LStrip(pad + s) == LStrip(s)
  {
    if pad != [] {
      assert (pad + s)[0] == pad[0];
      assert (pad + s)[1..] == pad[1..] + s;
      LStripBlankPrefix(pad[1..], s);
    } else {
      assert pad + s == s;
    }
  }

  /** `rstrip` cannot reach past a word that ends in non-whitespace. */
  lemma {:induction false} RStripAfterWord(code: string, rest: string)
    requires code != [] && !IsSpace(code[|code| - 1])
    ensures RStrip(code + rest) == code + RStrip(rest)
    decreases |rest|
  {
    if rest == [] {
      assert code + rest == code;
      RStripOfUnpadded(code);
    } else {
      var n := |rest| - 1;
      assert (code + rest)[|code + rest| - 1] == rest[n];
      if IsSpace(rest[n]) {
        assert (code + rest)[..|code + rest| - 1] == code + rest[..n];
        RStripAfterWord(code, rest[..n]);
      }
    }
  }

  /** The stripped entry `"<pad><code> <locality>"` starts with its code,
      followed by whitespace or nothing. */
  lemma StripLabel(pad: string, code: string, rest: string)
    requires IsBlank(pad) && code != [] && NoSpace(code)
    requires rest == [] || IsSpace(rest[0])
    ensures var tail := RStrip(rest);
            Strip(pad + code + rest) == code + tail && (tail == [] || IsSpace(tail[0]))
  {
    assert pad + code + rest == pad + (code + rest);
    LStripBlankPrefix(pad, code + rest);
    assert (code + rest)[0] == code[0];
    LStripOfUnpadded(code + rest);
    RStripAfterWord(code, rest);
    RStripSpec(rest);
  }

  /** One entry `"<pad><code> <locality>"` of the field yields its code. */
  lemma EntryCodeOfLabel(entry: string, pad: string, code: string, rest: string)
    requires entry == pad + code + rest
    requires IsBlank(pad) && code != [] && NoSpace(code)
    requires rest == [] || IsSpace(rest[0])
    ensures EntryCode(entry) == [code]
  {
    StripLabel(pad, code, rest);
    var tail := RStrip(rest);
    var e := code + tail;
    assert e[0] == code[0];
    TokensHead(e);
    LStripOfUnpadded(e);
    TakeWordOf(code, tail);
  }

  /** The codes of bare entries are the entries themselves. */
  lemma {:induction false} CodesOfBare(codes: seq<string>)
    requires forall k :: 0 <= k < |codes| ==> codes[k] != [] && NoSpace(codes[k])
    ensures CodesOf(codes) == codes
    decreases |codes|
  {
    if codes != [] {
      var n := |codes| - 1;
      var init, c := codes[..n], codes[n];
      CodesOfBare(init);
      EntryCodeOfBare(c);
      assert CodesOf(codes) == CodesOf(init) + EntryCode(c);
      Seqs.FrontLast(codes);
    }
  }

  /** A bare code is its own entry. */
  lemma EntryCodeOfBare(c: string)
    requires c != [] && NoSpace(c)
    ensures EntryCode(c) == [c]
  {
    assert c == [] + c + [];
    EntryCodeOfLabel(c, [], c, []);
  }

  /** Joining codes with commas and reading the list back gives the codes. */
  lemma PostalCodesRoundTrip(codes: seq<string>)
    requires |codes| >= 1
    requires forall k :: 0 <= k < |codes| ==> codes[k] != [] && NoSpace(codes[k]) && ',' !in codes[k]
    ensures PostalCodesOf(Join(codes, ',')) == codes
  {
    SplitJoin(codes, ',');
    CodesOfBare(codes);
  }

  /** A field of two comma-separated entries. */
  lemma PostalCodesOfTwo(field: string, a: string, b: string)
    requires field == a + [','] + b
    requires ',' !in a && ',' !in b
    ensures PostalCodesOf(field) == EntryCode(a) + EntryCode(b)
  {
    SplitNoSeparator(b, ',');
    SplitPrefix(a, b, ',');
    assert Split(a + [','] + b, ',') == [a, b];
    assert [a, b][..1] == [a];
    assert [a][..0] == [];
    assert CodesOf([a, b]) == CodesOf([a]) + EntryCode(b);
  }

  /** A field of a single entry. */
  lemma PostalCodesOfOne(a: string)
    requires a != "" && ',' !in a
    ensures PostalCodesOf(a) == EntryCode(a)
  {
    SplitNoSeparator(a, ',');
    assert [a][..0] == [];
  }

  /** The first example in the model's documentation. */
  lemma PostalCodesWinterthurExample()
    ensures PostalCodesOf("8400 Winterthur, 8408 Winterthur") == ["8400", "8408"]
  {
    var code1, code2, town := "8400", "8408", "Winterthur";
    DigitsHaveNoSpace(code1);
    DigitsHaveNoSpace(code2);
    assert ',' !in town by {
      assert forall k :: 0 <= k < |town| ==> 'a' <= town[k] <= 'z' || town[k] == 'W';
    }
    assert "8400 Winterthur, " == code1 + " " + town + ", ";
    assert "8408 Winterthur" == code2 + " " + town;
    assert "8400 Winterthur, 8408 Winterthur" == "8400 Winterthur, " + "8408 Winterthur";
    TwoLocalities("8400 Winterthur, 8408 Winterthur", code1, code2, town, town);
  }

  /** The second example in the model's documentation. */
  lemma PostalCodesZurichExample()
    ensures PostalCodesOf("8001 Zürich") == ["8001"]
  {
    OneLocality("8001 Zürich", "8001", "Zürich");
  }

  /** `"<code> <locality>"` gives its code. */
  lemma OneLocality(field: string, code: string, locality: string)
    requires field == code + " " + locality
    requires code != [] && NoSpace(code) && ',' !in code && ',' !in locality
    ensures PostalCodesOf(field) == [code]
  {
    PostalCodesOfOne(field);
    EntryCodeOfLabel(field, "", code, " " + locality);
  }

  /** `"<code> <locality>, <code> <locality>"` gives both codes. */
  lemma TwoLocalities(field: string, code1: string, code2: string, locality1: string, locality2: string)
    requires field == code1 + " " + locality1 + ", " + code2 + " " + locality2
    requires code1 != [] && NoSpace(code1) && ',' !in code1 && ',' !in locality1
    requires code2 != [] && NoSpace(code2) && ',' !in code2 && ',' !in locality2
    ensures PostalCodesOf(field) == [code1, code2]
  {
    var a := code1 + " " + locality1;
    var b := " " + code2 + " " + locality2;
    assert field == a + [','] + b;
    PostalCodesOfTwo(field, a, b);
    EntryCodeOfLabel(a, "", code1, " " + locality1);
    EntryCodeOfLabel(b, " ", code2, " " + locality2);
  }

  /** The stripped, non-empty comma-separated parts, in order. */
  function StrippedParts(parts: seq<string>): (r: seq<string>)
    ensures |r| <= |parts|
  {
    if parts == [] then []
    else
      var e := Strip(parts[|parts| - 1]);
      StrippedParts(parts[..|parts| - 1]) + (if e != [] then [e] else [])
  }

  /** `children_esid_list` */
  function ChildrenEsidList(children: Option<string>): seq<string> {
    if children.None? || children.value == "" then [] else StrippedParts(Split(children.value, ','))
  }

  /** Every ESID in the list is non-empty and has no whitespace at either end. */
  lemma {:induction false} StrippedPartsShape(parts: seq<string>)
    ensures forall k :: 0 <= k < |StrippedParts(parts)| ==>
      StrippedParts(parts)[k] != [] && !IsSpace(StrippedParts(parts)[k][0]) &&
      !IsSpace(StrippedParts(parts)[k][|StrippedParts(parts)[k]| - 1])
    decreases |parts|
  {
    if parts != [] {
      StrippedPartsShape(parts[..|parts| - 1]);
      StripEnds(parts[|parts| - 1]);
    }
  }

  /** Parts that are already stripped and non-empty are kept as they are. */
  lemma {:induction false} StrippedPartsOfTrimmed(parts: seq<string>)
    requires forall k :: 0 <= k < |parts| ==> parts[k] != [] && !IsSpace(parts[k][0]) && !IsSpace(parts[k][|parts[k]| - 1])
    ensures StrippedParts(parts) == parts
    decreases |parts|
  {
    if parts != [] {
      var n := |parts| - 1;
      StrippedPartsOfTrimmed(parts[..n]);
      StripOfUnpadded(parts[n]);
      assert parts[..n] + [parts[n]] == parts;
    }
  }

  /** Joining ESIDs with commas and reading the list back gives the ESIDs. */
  lemma ChildrenEsidRoundTrip(esids: seq<string>)
    requires |esids| >= 1
    requires forall k :: 0 <= k < |esids| ==>
      esids[k] != [] && ',' !in esids[k] && !IsSpace(esids[k][0]) && !IsSpace(esids[k][|esids[k]| - 1])
    ensures ChildrenEsidList(Some(Join(esids, ','))) == esids
  {
    SplitJoin(esids, ',');
    StrippedPartsOfTrimmed(esids);
  }

  /** The example in the property's documentation. */
  lemma ChildrenEsidExample()
    ensures ChildrenEsidList(Some("10001,10002,10003")) == ["10001", "10002", "10003"]
  {
    assert Join(["10001", "10002", "10003"], ',') == "10001,10002,10003";
    ChildrenEsidRoundTrip(["10001", "10002", "10003"]);
  }

  predicate LengthBetween(s: string, lo: nat, hi: nat) {
    lo <= |s| <= hi
  }

  predicate AtMost(o: Option<string>, n: nat) {
    o.Some? ==> |o.value| <= n
  }

  /** The field constraints of `StreetV1` other than the coordinate bounds,
      field by field in declaration order; the result lists the fields
      that fail. */
  function FieldErrors(s: Street): (errs: seq<string>)
  {
    (if LengthBetween(s.esid, 1, 20) then [] else ["esid"]) +
    (if LengthBetween(s.name, 1, 200) then [] else ["name"]) +
    (if LengthBetween(s.postalCodes, 1, 500) then [] else ["postal_codes"]) +
    (if 1 <= s.municipalityBfs <= 9999 then [] else ["municipality_bfs"]) +
    (if LengthBetween(s.municipalityName, 1, 100) then [] else ["municipality_name"]) +
    (if MunicipalityModel.IsCantonCode(s.cantonCode) then [] else ["canton_code"]) +
    (if LengthBetween(s.streetType, 1, 50) then [] else ["street_type"]) +
    (if LengthBetween(s.status, 1, 50) then [] else ["status"]) +
    (if LengthBetween(s.modifiedDate, 1, 50) then [] else ["modified_date"]) +
    (if AtMost(s.parentEsid, 20) then [] else ["parent_esid"]) +
    (if AtMost(s.childrenEsids, 500) then [] else ["children_esids"])
  }

  predicate Valid(s: Street) {
    FieldErrors(s) == []
  }

  /** A street that passes validation meets every constraint of its
      fields; in particular its canton code is two capital letters. */
  lemma ValidMeaning(s: Street)
    ensures Valid(s) <==>
      LengthBetween(s.esid, 1, 20) && LengthBetween(s.name, 1, 200) &&
      LengthBetween(s.postalCodes, 1, 500) && 1 <= s.municipalityBfs <= 9999 &&
      LengthBetween(s.municipalityName, 1, 100) && MunicipalityModel.IsCantonCode(s.cantonCode) &&
      LengthBetween(s.streetType, 1, 50) && LengthBetween(s.status, 1, 50) &&
      LengthBetween(s.modifiedDate, 1, 50) && AtMost(s.parentEsid, 20) && AtMost(s.childrenEsids, 500)
  {
  }
}
