/** `MunicipalitiesAPI`: one communes snapshot of the Swiss Federal Statistical
    Office, parsed row by row, enriched with the canton of every record by
    walking the parent links, cached, and queried by linear scans. */
module Municipalities {
  import opened Wrappers
  import opened Text
  import opened Seqs
  import opened Numerals
  import opened Dates
  import opened PyValues
  import opened MunicipalityModel
  import opened GeoBase

  /** `text or None` for a cell text. */
  function OrNone(text: string): (v: PyValue)
    ensures WellFormed(v)
  {
    if text == "" then PyNone else PyStr(text)
  }

  /** The `level` argument: a non-blank `Level` cell goes through `int()`,
      whose ValueError escapes; anything else is `None`. */
  function ParseLevel(row: Row): (r: Result<Option<int>, Error>)
    ensures r.Failure? ==> "Level" in row && r.error == ValueError(row["Level"])
    ensures r.Success? && r.value.Some? ==> "Level" in row && ParseInt(row["Level"]) == Some(r.value.value)
  {
    var text := Get(row, "Level", "");
    if text != "" && Strip(text) != "" then
      match IntCell(text)
      case Success(n) => Success(Some(n))
      case Failure(e) => Failure(e)
    else Success(None)
  }

  /** The date validator on the cell `key` (`row.get(key) or None`); its
      OverflowError escapes validation as an exception of its own. */
  function DateCell(row: Row, key: string): (r: Result<Option<Date>, Error>)
    ensures r.Success? && r.value.Some? ==> IsValidDate(r.value.value)
    ensures r.Failure? ==> r.error.OverflowError? && !IsCInt(r.error.value)
  {
    match ParseDate(OrNone(Get(row, key, "")))
    case Success(d) => Success(d)
    case Failure(n) => Failure(OverflowError(n))
  }

  /** The record `_parse_row_v1` hands to the model, with its fields run
      through their validators. The canton fields start out empty;
      enrichment fills them in later. */
  function RowRecord(row: Row, level: Option<int>, validFrom: Option<Date>, validTo: Option<Date>): (m: Municipality)
    ensures m.cantonCode.None? && m.cantonName.None?
  {
    Municipality(
      historicalCode := Strip(Get(row, "HistoricalCode", "")),
      bfsCode := HandleEmptyString(OrNone(Get(row, "BfsCode", ""))),
      name := Strip(Get(row, "Name", "")),
      shortName := HandleEmptyString(OrNone(Get(row, "ShortName", ""))),
      cantonCode := HandleEmptyString(PyNone),
      cantonName := HandleEmptyString(PyNone),
      level := level,
      parent := HandleEmptyString(OrNone(Get(row, "Parent", ""))),
      validFrom := validFrom,
      validTo := validTo,
      recType := HandleEmptyString(OrNone(Get(row, "Rec_Type_de", ""))))
  }

  /** `_parse_row_v1`: the `int()` of the level is evaluated first. The model
      then validates its fields in declaration order; the OverflowError of a
      date validator (`valid_from` before `valid_to`) escapes at once, and
      otherwise the record is rejected if any field fails. */
  function ParseRowV1(row: Row): (r: Result<Municipality, Error>)
    ensures r.Success? ==> Valid(r.value) && r.value.cantonCode.None? && r.value.cantonName.None?
    ensures r.Success? ==> r.value.historicalCode == Strip(Get(row, "HistoricalCode", "")) &&
                           r.value.name == Strip(Get(row, "Name", ""))
  {
    match ParseLevel(row)
    case Failure(e) => Failure(e)
    case Success(level) =>
      match DateCell(row, "ValidFrom")
      case Failure(e) => Failure(e)
      case Success(validFrom) =>
        match DateCell(row, "ValidTo")
        case Failure(e) => Failure(e)
        case Success(validTo) =>
          var m := RowRecord(row, level, validFrom, validTo);
          var errs := FieldErrors(m);
          if errs == [] then Success(m) else Failure(ValidationError(errs))
  }

  /** A level that `int()` cannot read makes the row raise ValueError,
      whatever else the row holds. */
  lemma ParseRowBadLevel(row: Row)
    requires "Level" in row && !IsBlank(row["Level"]) && ParseInt(row["Level"]).None?
    ensures ParseRowV1(row) == Failure(ValueError(row["Level"]))
  {
    StripEmptyIffBlank(row["Level"]);
  }

  /** A date that overflows `date()` makes the row raise OverflowError, even
      when other fields would fail validation; `ValidFrom` is looked at
      before `ValidTo`. */
  lemma ParseRowDateOverflow(row: Row)
    requires ParseLevel(row).Success?
    ensures DateCell(row, "ValidFrom").Failure? ==> ParseRowV1(row) == Failure(DateCell(row, "ValidFrom").error)
    ensures DateCell(row, "ValidFrom").Success? && DateCell(row, "ValidTo").Failure? ==>
              ParseRowV1(row) == Failure(DateCell(row, "ValidTo").error)
    ensures ParseRowV1(row).Failure? && ParseRowV1(row).error.OverflowError? ==>
              DateCell(row, "ValidFrom").Failure? || DateCell(row, "ValidTo").Failure?
  {
  }

  /** A row without a historical code, or with a blank one, fails validation
      on that field, unless a date raises first. */
  lemma ParseRowNeedsHistoricalCode(row: Row)
    requires ParseLevel(row).Success?
    requires DateCell(row, "ValidFrom").Success? && DateCell(row, "ValidTo").Success?
    requires IsBlank(Get(row, "HistoricalCode", ""))
    ensures ParseRowV1(row).Failure? && ParseRowV1(row).error.ValidationError?
    ensures "historical_code" in ParseRowV1(row).error.fields
  {
    StripEmptyIffBlank(Get(row, "HistoricalCode", ""));
    var m := RowRecord(row, ParseLevel(row).value, DateCell(row, "ValidFrom").value, DateCell(row, "ValidTo").value);
    assert FieldErrors(m)[0] == "historical_code";
  }

  /** `has_parent` of a parsed record: exactly when the `Parent` cell is
      present and not blank, and then the enrichment walk has a parent
      code to start from. */
  lemma HasParentOfRow(row: Row, level: Option<int>, validFrom: Option<Date>, validTo: Option<Date>)
    ensures var m := RowRecord(row, level, validFrom, validTo);
            HasParent(m) <==> !IsBlank(Get(row, "Parent", ""))
    ensures var m := RowRecord(row, level, validFrom, validTo);
            HasParent(m) ==> HasTruthyParent(m) && m.parent.value == Strip(Get(row, "Parent", ""))
  {
    var v := OrNone(Get(row, "Parent", ""));
    HandleEmptyStringSpec(v);
    HandleEmptyStringTrimmed(v);
    if Get(row, "Parent", "") == "" {
      assert IsBlank(Get(row, "Parent", ""));
    }
  }

  /** The parent code, truthy: set and not the empty string. */
  predicate HasTruthyParent(m: Municipality) {
    m.parent.Some? && m.parent.value != ""
  }

  predicate IsCanton(m: Municipality) {
    m.level == Some(1)
  }

  /** `{m.historical_code: m for m in ms}`: later records overwrite earlier
      ones with the same code. */
  function IndexOf(ms: seq<Municipality>): map<string, Municipality>
  {
    if ms == [] then map[]
    else IndexOf(ms[..|ms| - 1])[ms[|ms| - 1].historicalCode := ms[|ms| - 1]]
  }

  /** The index holds exactly the codes of the list, each bound to the last
      record that carries it. */
  lemma {:induction false} IndexOfSpec(ms: seq<Municipality>, code: string)
    ensures code in IndexOf(ms) <==> exists i :: 0 <= i < |ms| && ms[i].historicalCode == code
    ensures code in IndexOf(ms) ==>
      exists i :: 0 <= i < |ms| && IndexOf(ms)[code] == ms[i] && ms[i].historicalCode == code &&
                  forall j :: i < j < |ms| ==> ms[j].historicalCode != code
  {
    IndexOfKeys(ms, code);
    if code in IndexOf(ms) {
      IndexOfLast(ms, code);
    }
  }

  /** The codes of the index are the codes of the list. */
  lemma {:induction false} IndexOfKeys(ms: seq<Municipality>, code: string)
    ensures code in IndexOf(ms) <==> exists i :: 0 <= i < |ms| && ms[i].historicalCode == code
    decreases |ms|
  {
    if ms != [] {
      var n := |ms| - 1;
      var init := ms[..n];
      IndexOfKeys(init, code);
      if ms[n].historicalCode != code {
        if exists i :: 0 <= i < |ms| && ms[i].historicalCode == code {
          var i :| 0 <= i < |ms| && ms[i].historicalCode == code;
          assert init[i] == ms[i];
        }
        if code in IndexOf(init) {
          var i :| 0 <= i < |init| && init[i].historicalCode == code;
          assert ms[i] == init[i];
        }
      }
    }
  }

  /** A code of the index is bound to the last record that carries it. */
  lemma {:induction false} IndexOfLast(ms: seq<Municipality>, code: string)
    requires code in IndexOf(ms)
    ensures exists i :: 0 <= i < |ms| && IndexOf(ms)[code] == ms[i] && ms[i].historicalCode == code &&
                        forall j :: i < j < |ms| ==> ms[j].historicalCode != code
    decreases |ms|
  {
    var n := |ms| - 1;
    var init := ms[..n];
    if ms[n].historicalCode == code {
      assert IndexOf(ms)[code] == ms[n];
    } else {
      assert IndexOf(ms)[code] == IndexOf(init)[code];
      IndexOfLast(init, code);
      var i :| 0 <= i < |init| && IndexOf(init)[code] == init[i] && init[i].historicalCode == code &&
               forall j :: i < j < |init| ==> init[j].historicalCode != code;
      assert ms[i] == init[i];
      assert forall j :: i < j < |ms| ==> ms[j].historicalCode != code by {
        forall j | i < j < |ms|
          ensures ms[j].historicalCode != code
        {
          if j < n {
            assert ms[j] == init[j];
          }
        }
      }
    }
  }

  /** `max_depth`, the safety bound on the number of parent hops. */
  const MaxDepth: nat := 5

  /** The record the parent code of `m` names, when there is one in the index. */
  function ParentOf(index: map<string, Municipality>, m: Municipality): Option<Municipality> {
    if HasTruthyParent(m) && m.parent.value in index then Some(index[m.parent.value]) else None
  }

  /** The walk of the enrichment loop from `current` after `depth` hops:
      the canton record it stops at, or `None` when it gives up. */
  function WalkFrom(index: map<string, Municipality>, current: Municipality, depth: nat): Option<Municipality>
    decreases MaxDepth - depth
  {
    if !(HasTruthyParent(current) && depth < MaxDepth) then None
    else if current.parent.value !in index then None
    else
      var parent := index[current.parent.value];
      if IsCanton(parent) then Some(parent) else WalkFrom(index, parent, depth + 1)
  }

  /** Reference definition of the walk's target: the chain of at most `n`
      ancestors of `m`, up to the first missing parent. */
  function Ancestors(index: map<string, Municipality>, m: Municipality, n: nat): (chain: seq<Municipality>)
    ensures |chain| <= n
    decreases n
  {
    if n == 0 then []
    else match ParentOf(index, m)
      case None => []
      case Some(p) => [p] + Ancestors(index, p, n - 1)
  }

  /** The walk finds the first canton among the first five ancestors, and
      nothing when the chain breaks or no canton occurs within five hops. */
  lemma {:induction false} WalkFindsFirstCantonAncestor(index: map<string, Municipality>, m: Municipality, depth: nat)
    requires depth <= MaxDepth
    ensures WalkFrom(index, m, depth) == FirstMatch(Ancestors(index, m, MaxDepth - depth), IsCanton)
    decreases MaxDepth - depth
  {
    var chain := Ancestors(index, m, MaxDepth - depth);
    if depth < MaxDepth && ParentOf(index, m).Some? {
      var p := ParentOf(index, m).value;
      var rest := Ancestors(index, p, MaxDepth - (depth + 1));
      assert chain == [p] + rest;
      assert chain[0] == p && chain[1..] == rest;
      assert FirstMatch(chain, IsCanton) == if IsCanton(p) then Some(p) else FirstMatch(rest, IsCanton);
      assert WalkFrom(index, m, depth) == if IsCanton(p) then Some(p) else WalkFrom(index, p, depth + 1);
      if !IsCanton(p) {
        WalkFindsFirstCantonAncestor(index, p, depth + 1);
      }
    } else {
      assert chain == [];
    }
  }

  /** The canton fields a record receives: its own short name and name when
      it is a canton, those of the canton the walk reaches otherwise. */
  function CantonFields(index: map<string, Municipality>, m: Municipality): (Option<string>, Option<string>) {
    if IsCanton(m) then (m.shortName, Some(m.name))
    else if HasTruthyParent(m) then
      match WalkFrom(index, m, 0)
      case Some(c) => (c.shortName, Some(c.name))
      case None => (None, None)
    else (None, None)
  }

  /** `m.model_copy(update=...)` with the canton fields. */
  function Enriched(index: map<string, Municipality>, m: Municipality): Municipality {
    var (code, cname) := CantonFields(index, m);
    m.(cantonCode := code, cantonName := cname)
  }

  /** What `_enrich_with_cantons` returns. */
  function EnrichAll(ms: seq<Municipality>): (r: seq<Municipality>)
    ensures |r| == |ms|
  {
    var index := IndexOf(ms);
    seq(|ms|, i requires 0 <= i < |ms| => Enriched(index, ms[i]))
  }

  /** Enrichment keeps length and order and changes nothing but the two
      canton fields. */
  lemma EnrichAllOnlyTouchesCantonFields(ms: seq<Municipality>)
    ensures |EnrichAll(ms)| == |ms|
    ensures forall i :: 0 <= i < |ms| ==>
      EnrichAll(ms)[i].(cantonCode := ms[i].cantonCode, cantonName := ms[i].cantonName) == ms[i]
  {
  }

  /** A canton record is enriched with its own short name and name. */
  lemma EnrichedCanton(ms: seq<Municipality>, i: nat)
    requires i < |ms| && IsCanton(ms[i])
    ensures EnrichAll(ms)[i].cantonCode == ms[i].shortName
    ensures EnrichAll(ms)[i].cantonName == Some(ms[i].name)
  {
  }

  /** Any other record gets the fields of the first canton among its first
      five ancestors, and none when there is no such canton. */
  lemma EnrichedFromAncestors(ms: seq<Municipality>, i: nat)
    requires i < |ms| && !IsCanton(ms[i])
    ensures var chain := Ancestors(IndexOf(ms), ms[i], MaxDepth);
            match FirstMatch(chain, IsCanton)
            case Some(c) => EnrichAll(ms)[i].cantonCode == c.shortName && EnrichAll(ms)[i].cantonName == Some(c.name)
            case None => EnrichAll(ms)[i].cantonCode.None? && EnrichAll(ms)[i].cantonName.None?
  {
    WalkFindsFirstCantonAncestor(IndexOf(ms), ms[i], 0);
  }

  /** A parent code that is not in the snapshot leaves the canton fields
      empty, without error. */
  lemma EnrichedMissingParent(ms: seq<Municipality>, i: nat)
    requires i < |ms| && !IsCanton(ms[i]) && HasTruthyParent(ms[i])
    requires forall j :: 0 <= j < |ms| ==> ms[j].historicalCode != ms[i].parent.value
    ensures EnrichAll(ms)[i].cantonCode.None? && EnrichAll(ms)[i].cantonName.None?
  {
    IndexOfSpec(ms, ms[i].parent.value);
  }

  /** The walk takes at most five hops: a canton that is reachable only in a
      sixth hop or later is never found. */
  lemma WalkBoundedByMaxDepth(index: map<string, Municipality>, m: Municipality)
    requires forall k :: 0 <= k < |Ancestors(index, m, MaxDepth)| ==> !IsCanton(Ancestors(index, m, MaxDepth)[k])
    ensures WalkFrom(index, m, 0).None?
  {
    WalkFindsFirstCantonAncestor(index, m, 0);
  }

  /** A record that is its own parent does not trap the walk: it ends with
      no canton. */
  lemma WalkEndsOnCycle(index: map<string, Municipality>, m: Municipality)
    requires HasTruthyParent(m) && !IsCanton(m)
    requires m.parent.value in index && index[m.parent.value] == m
    ensures WalkFrom(index, m, 0).None?
  {
    assert ParentOf(index, m) == Some(m);
    assert Ancestors(index, m, 1) == [m];
    assert Ancestors(index, m, 2) == [m, m];
    assert Ancestors(index, m, 3) == [m, m, m];
    assert Ancestors(index, m, 4) == [m, m, m, m];
    assert Ancestors(index, m, 5) == [m, m, m, m, m];
    WalkBoundedByMaxDepth(index, m);
  }

  /** `_enrich_with_cantons`: builds the index with a loop over the records,
      then walks up from each record in turn. */
  method EnrichWithCantons(ms: seq<Municipality>) returns (enriched: seq<Municipality>)
    ensures enriched == EnrichAll(ms)
  {
    var index: map<string, Municipality> := map[];
    for k := 0 to |ms|
      invariant index == IndexOf(ms[..k])
    {
      assert ms[..k + 1][..k] == ms[..k];
      index := index[ms[k].historicalCode := ms[k]];
    }
    assert ms[..|ms|] == ms;
    enriched := [];
    for i := 0 to |ms|
      invariant |enriched| == i
      invariant forall j :: 0 <= j < i ==> enriched[j] == Enriched(index, ms[j])
    {
      var m := ms[i];
      var cantonCode: Option<string> := None;
      var cantonName: Option<string> := None;
      if IsCanton(m) {
        cantonCode := m.shortName;
        cantonName := Some(m.name);
      } else if HasTruthyParent(m) {
        var current := m;
        var depth: nat := 0;
        while HasTruthyParent(current) && depth < MaxDepth
          invariant depth <= MaxDepth
          invariant cantonCode.None? && cantonName.None?
          invariant WalkFrom(index, current, depth) == WalkFrom(index, m, 0)
          decreases MaxDepth - depth
        {
          var parentCode := current.parent.value;
          if parentCode !in index {
            break;
          }
          var parent := index[parentCode];
          if IsCanton(parent) {
            cantonCode := parent.shortName;
            cantonName := Some(parent.name);
            break;
          }
          current := parent;
          depth := depth + 1;
        }
      }
      enriched := enriched + [m.(cantonCode := cantonCode, cantonName := cantonName)];
    }
  }

  /** `get_by_bfs_code`: the first record in snapshot order with that BFS
      number; no filtering by validity dates and no tie-break. */
  function GetByBfsCode(all: seq<Municipality>, code: string): (r: Option<Municipality>)
    ensures r.Some? ==> r.value in all && r.value.bfsCode == Some(code)
    ensures r.None? <==> forall i :: 0 <= i < |all| ==> all[i].bfsCode != Some(code)
    ensures r.Some? ==> exists i :: 0 <= i < |all| && all[i] == r.value &&
                                    forall j :: 0 <= j < i ==> all[j].bfsCode != Some(code)
  {
    var r := FirstMatch(all, (m: Municipality) => m.bfsCode == Some(code));
    if r.Some? then
      var i :| FirstMatchAt(all, (m: Municipality) => m.bfsCode == Some(code), i) && all[i] == r.value;
      r
    else r
  }

  /** `get_by_historical_code`: the first record in snapshot order with that code. */
  function GetByHistoricalCode(all: seq<Municipality>, code: string): (r: Option<Municipality>)
    ensures r.Some? ==> r.value in all && r.value.historicalCode == code
    ensures r.None? <==> forall i :: 0 <= i < |all| ==> all[i].historicalCode != code
    ensures r.Some? ==> exists i :: 0 <= i < |all| && all[i] == r.value &&
                                    forall j :: 0 <= j < i ==> all[j].historicalCode != code
  {
    var r := FirstMatch(all, (m: Municipality) => m.historicalCode == code);
    if r.Some? then
      var i :| FirstMatchAt(all, (m: Municipality) => m.historicalCode == code, i) && all[i] == r.value;
      r
    else r
  }

  /** The canton filter: the argument is upper-cased but not stripped. */
  function InCanton(code: string): Municipality -> bool {
    (m: Municipality) => m.cantonCode == Some(Upper(code))
  }

  /** `get_by_canton` */
  function GetByCanton(all: seq<Municipality>, code: string): (r: seq<Municipality>)
  {
    Filter(all, InCanton(code))
  }

  /** `iter_by_canton` */
  function IterByCanton(all: seq<Municipality>, code: string): (r: seq<Municipality>)
  {
    Stream(all, InCanton(code))
  }

  /** Both canton queries yield exactly the records of that canton, in
      snapshot order, and the generator yields what the list holds. */
  lemma CantonQueries(all: seq<Municipality>, code: string)
    ensures IterByCanton(all, code) == GetByCanton(all, code)
    ensures forall m :: m in GetByCanton(all, code) <==> m in all && m.cantonCode == Some(Upper(code))
    ensures IsSubsequence(GetByCanton(all, code), all)
  {
    StreamIsFilter(all, InCanton(code));
    FilterMembers(all, InCanton(code));
    FilterSubsequence(all, InCanton(code));
  }

  /** Upper-casing makes the canton queries case-insensitive in the argument. */
  lemma CantonQueryCaseInsensitive(all: seq<Municipality>, code: string)
    ensures GetByCanton(all, code) == GetByCanton(all, Upper(code))
  {
    UpperIdempotent(code);
    FilterCongruence(all, InCanton(code), InCanton(Upper(code)));
  }

  predicate IsHistorical(m: Municipality) {
    !IsActive(m)
  }

  /** `get_active` */
  function GetActive(all: seq<Municipality>): seq<Municipality> {
    Filter(all, IsActive)
  }

  /** `get_historical` */
  function GetHistorical(all: seq<Municipality>): seq<Municipality> {
    Filter(all, IsHistorical)
  }

  /** Active and historical records partition the snapshot: each record is
      in exactly one of the two lists, and both keep snapshot order. */
  lemma ActiveHistoricalPartition(all: seq<Municipality>)
    ensures multiset(GetActive(all)) + multiset(GetHistorical(all)) == multiset(all)
    ensures |GetActive(all)| + |GetHistorical(all)| == |all|
    ensures forall m :: m in GetActive(all) <==> m in all && m.validTo.None?
    ensures forall m :: m in GetHistorical(all) <==> m in all && m.validTo.Some?
    ensures IsSubsequence(GetActive(all), all) && IsSubsequence(GetHistorical(all), all)
  {
    FilterPartition(all, IsActive, IsHistorical);
    FilterMembers(all, IsActive);
    FilterMembers(all, IsHistorical);
    FilterSubsequence(all, IsActive);
    FilterSubsequence(all, IsHistorical);
  }

  /** `reference_date or self._get_current_date()`: `today` stands for the
      clock reading, already rendered as `DD-MM-YYYY`. */
  function ReferenceDate(requested: Option<string>, today: string): (d: string)
    ensures requested.None? || requested == Some("") ==> d == today
    ensures requested.Some? && requested.value != "" ==> d == requested.value
  {
    if requested.Some? && requested.value != "" then requested.value else today
  }

  /** `s.replace(c, '')` is the order-preserving filter that drops `c`. */
  lemma {:induction false} RemoveCharIsFilter(s: string, c: char)
    ensures RemoveChar(s, c) == Filter(s, (x: char) => x != c)
    decreases |s|
  {
    RemoveCharIsStream(s, c);
    StreamIsFilter(s, (x: char) => x != c);
  }

  lemma {:induction false} RemoveCharIsStream(s: string, c: char)
    ensures RemoveChar(s, c) == Stream(s, (x: char) => x != c)
    decreases |s|
  {
    if s != [] {
      RemoveCharIsStream(s[1..], c);
    }
  }

  /** The cache file name: the reference date with its dashes removed,
      between the fixed prefix and the `.csv` suffix. */
  function CsvFilename(referenceDate: string): (name: string)
    ensures |name| >= 23 && StartsWith(name, "bfs_municipalities_") && EndsWith(name, ".csv")
    ensures '-' !in name[19..|name| - 4]
    ensures name == "bfs_municipalities_" + Filter(referenceDate, (x: char) => x != '-') + ".csv"
  {
    var name := "bfs_municipalities_" + RemoveChar(referenceDate, '-') + ".csv";
    assert name[19..|name| - 4] == RemoveChar(referenceDate, '-');
    RemoveCharIsFilter(referenceDate, '-');
    name
  }

  /** Dropping the two dashes of `a-b-c` leaves `abc` when the fields
      themselves hold none. */
  lemma RemoveDashes(a: string, b: string, c: string)
    requires '-' !in a && '-' !in b && '-' !in c
    ensures RemoveChar(a + ['-'] + b + ['-'] + c, '-') == a + b + c
  {
    var rest := b + ['-'] + c;
    assert a + ['-'] + b + ['-'] + c == a + ['-'] + rest;
    RemoveCharJoin(a, rest, '-');
    RemoveCharJoin(b, c, '-');
    RemoveCharAbsent(c, '-');
  }

  /** The reference date of the docstring example. */
  lemma CsvFilenameExample()
    ensures CsvFilename("01-01-2025") == "bfs_municipalities_01012025.csv"
  {
    assert "01-01-2025" == "01" + ['-'] + "01" + ['-'] + "2025";
    RemoveDashes("01", "01", "2025");
    assert "01" + "01" + "2025" == "01012025";
    assert "bfs_municipalities_" + "01012025" + ".csv" == "bfs_municipalities_01012025.csv";
  }

  /** A reference date written `DD-MM-YYYY`, as the snapshot and the clock
      reading are, names the file `bfs_municipalities_DDMMYYYY.csv`. */
  lemma CsvFilenameOfDayFirst(d: Date)
    requires IsValidDate(d)
    ensures CsvFilename(DayFirstFormat(d, '-')) ==
            "bfs_municipalities_" + Pad(d.day, 2) + Pad(d.month, 2) + Pad(d.year, 4) + ".csv"
  {
    var dd, mm, yyyy := Pad(d.day, 2), Pad(d.month, 2), Pad(d.year, 4);
    DigitsHaveNoSeparator(dd, '-');
    DigitsHaveNoSeparator(mm, '-');
    DigitsHaveNoSeparator(yyyy, '-');
    RemoveDashes(dd, mm, yyyy);
  }

  /** The dataset settings `_setup_version` assigns. */
  datatype Config = Config(apiBaseUrl: string, csvFilename: string, csvDelimiter: char)

  /** `_setup_version`: only model version `v1` exists. */
  function SetupVersion(modelVersion: string, referenceDate: string): (r: Result<Config, Error>)
    ensures r.Success? <==> modelVersion == "v1"
    ensures r.Failure? ==> r.error == GeoApiError("Unsupported model version: " + modelVersion)
    ensures r.Success? ==> r.value.csvFilename == CsvFilename(referenceDate) && r.value.csvDelimiter == ','
  {
    if modelVersion == "v1" then
      Success(Config("https://www.agvchapp.bfs.admin.ch/api/communes", CsvFilename(referenceDate), ','))
    else Failure(GeoApiError("Unsupported model version: " + modelVersion))
  }

  /** The configuring part of `__init__`: the reference date falls back to
      today's date when none or an empty one is given, and `_setup_version`
      then raises for any model version but `v1`. */
  function Configure(requested: Option<string>, modelVersion: string, today: string): (r: Result<Config, Error>)
    ensures r.Success? <==> modelVersion == "v1"
    ensures r.Failure? ==> r.error == GeoApiError("Unsupported model version: " + modelVersion)
    ensures r.Success? ==> r.value.csvFilename == CsvFilename(ReferenceDate(requested, today))
  {
    SetupVersion(modelVersion, ReferenceDate(requested, today))
  }

  /** Without a reference date, or with an empty one, the cache file is named
      after today's date; a given date names it whatever today is. */
  lemma ConfigureReferenceDate(requested: Option<string>, today: string, other: string)
    ensures requested.None? || requested == Some("") ==>
              Configure(requested, "v1", today).value.csvFilename == CsvFilename(today)
    ensures requested.Some? && requested.value != "" ==>
              Configure(requested, "v1", today).value.csvFilename == Configure(requested, "v1", other).value.csvFilename
  {
  }

  /** Parses the rows in order; the first row that raises ends the parse. */
  function ParseRows(rows: seq<Row>): Result<seq<Municipality>, Error> {
    MapResult(rows, ParseRowV1)
  }

  /** What a cold `_get_enriched_data` produces: fetch or fall back, drop a
      leading byte-order mark, read the rows with `readRows` (the CSV
      reader), parse them and enrich the records. */
  function LoadSnapshot(fetch: Result<string, Error>, fallback: Result<string, Error>, fallbackAllowed: bool,
                        readRows: string -> seq<Row>): Result<seq<Municipality>, Error>
  {
    match FetchOrFallback(fetch, fallback, fallbackAllowed, "municipality data").result
    case Failure(e) => Failure(e)
    case Success(content) =>
      match ParseRows(readRows(StripBom(content, true)))
      case Failure(e) => Failure(e)
      case Success(ms) => Success(EnrichAll(ms))
  }

  /** The row loop of `_get_enriched_data`: each row is validated in file
      order, and the first invalid row's exception ends the load. */
  method ParseAllRows(rows: seq<Row>) returns (r: Result<seq<Municipality>, Error>)
    ensures r == ParseRows(rows)
  {
    var unenriched: seq<Municipality> := [];
    assert rows[0..] == rows;
    PrependAllNil(MapResult(rows, ParseRowV1));
    for k := 0 to |rows|
      invariant MapResult(rows, ParseRowV1) == PrependAll(unenriched, MapResult(rows[k..], ParseRowV1))
    {
      MapResultStep(rows, k, ParseRowV1, unenriched);
      var parsed := ParseRowV1(rows[k]);
      if parsed.Failure? {
        return Failure(parsed.error);
      }
      unenriched := unenriched + [parsed.value];
    }
    assert rows[|rows|..] == [];
    PrependAllNil<Municipality, Error>(Success(unenriched));
    return Success(unenriched);
  }

  /** A municipalities API object and its cache of enriched records. */
  class MunicipalitiesApi {
    const config: Config
    const fallbackAllowed: bool
    var enrichedCache: Option<seq<Municipality>>

    /** A newly constructed API object has nothing cached. */
    constructor (config: Config, fallbackAllowed: bool)
      ensures this.config == config && this.fallbackAllowed == fallbackAllowed
      ensures enrichedCache.None?
    {
      this.config := config;
      this.fallbackAllowed := fallbackAllowed;
      enrichedCache := None;
    }

    /** `_get_enriched_data`: served from the cache when it is filled;
        otherwise loaded, and the cache is filled on success. `fetch` and
        `fallback` are the outcomes of the remote fetch and of the local
        fallback. */
    method GetEnrichedData(fetch: Result<string, Error>, fallback: Result<string, Error>,
                           readRows: string -> seq<Row>) returns (r: Result<seq<Municipality>, Error>)
      modifies this
      ensures old(enrichedCache).Some? ==> r == Success(old(enrichedCache).value) && enrichedCache == old(enrichedCache)
      ensures old(enrichedCache).None? ==> r == LoadSnapshot(fetch, fallback, fallbackAllowed, readRows)
      ensures old(enrichedCache).None? ==> enrichedCache == if r.Success? then Some(r.value) else None
    {
      if enrichedCache.Some? {
        return Success(enrichedCache.value);
      }
      var fetched := FetchOrFallback(fetch, fallback, fallbackAllowed, "municipality data").result;
      if fetched.Failure? {
        return Failure(fetched.error);
      }
      var content := fetched.value;
      var rows := readRows(StripBom(content, true));
      var parsed := ParseAllRows(rows);
      if parsed.Failure? {
        return Failure(parsed.error);
      }
      var unenriched := parsed.value;
      var enriched := EnrichWithCantons(unenriched);
      enrichedCache := Some(enriched);
      return Success(enriched);
    }
  }
}
