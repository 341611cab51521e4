/**
 * The lookups the datapackage generator makes for a dataset before it
 * builds a pipeline: its id out of a dataset URL, its pipeline spec on the
 * file server, its latitude/longitude columns and its species columns, and
 * the clean-up of its row of the dataset list.
 */
module GenerateLookups {
  import opened Wrappers
  import opened Text

  /** The last position of `c` in `s`. */
  function LastIndex(s: string, c: char): (r: Option<nat>)
    ensures r.Some? ==> r.value < |s| && s[r.value] == c && forall k :: r.value < k < |s| ==> s[k] != c
    ensures r.None? ==> forall k :: 0 <= k < |s| ==> s[k] != c
  {
    if s == [] then None
    else if s[|s| - 1] == c then Some(|s| - 1)
    else LastIndex(s[..|s| - 1], c)
  }

  predicate AllDigits(s: string) { forall k :: 0 <= k < |s| ==> IsDigit(s[k]) }

  /**
   * extract_dataset_id: `re.sub` of `.*` `/` `(\d*)` `$` by the digits. The
   * dot does not cross a newline and `$` also matches before a final newline,
   * so the only match is the last line (without a final newline) when it
   * ends in a slash and digits; it is replaced by those digits.
   */
  function ExtractDatasetId(url: string): string
  {
    var body := if |url| > 0 && url[|url| - 1] == '\n' then url[..|url| - 1] else url;
    var start := match LastIndex(body, '\n') case None => 0 case Some(k) => k + 1;
    match LastIndex(body[start..], '/')
    case None => url
    case Some(j) =>
      var digits := body[start + j + 1..];
      if AllDigits(digits) then body[..start] + digits + url[|body|..] else url
  }

  /** generate_data_url. */
  function DataUrl(datasetId: string): string
  {
    "https://www.bco-dmo.org/dataset/" + datasetId + "/data/download/tsv"
  }

  /** The part of a pipeline-spec path that names the dataset's version. */
  function SearchString(datasetId: string, datasetVersion: string): string
  {
    "/" + datasetId + "/" + datasetVersion + "/data/pipeline-spec.yaml"
  }

  /** The condition of find_pipeline_spec_match's loop. */
  predicate Matching(path: string, datasetId: string, datasetVersion: string)
  {
    Contains(path, SearchString(datasetId, datasetVersion))
    && !Contains(path, "/working/") && !Contains(path, "/work/")
  }

  /** The matching paths, duplicates included, in order. */
  function Matches(paths: seq<string>, datasetId: string, datasetVersion: string): seq<string>
  {
    if paths == [] then []
    else
      var last := paths[|paths| - 1];
      Matches(paths[..|paths| - 1], datasetId, datasetVersion)
      + (if Matching(last, datasetId, datasetVersion) then [last] else [])
  }

  lemma {:induction false} MatchesMembers(paths: seq<string>, datasetId: string, datasetVersion: string)
    ensures forall p :: p in Matches(paths, datasetId, datasetVersion) <==> p in paths && Matching(p, datasetId, datasetVersion)
  {
    if paths != [] {
      MatchesMembers(paths[..|paths| - 1], datasetId, datasetVersion);
      assert paths == paths[..|paths| - 1] + [paths[|paths| - 1]];
    }
  }

  /** The `assert len(matches) <= 1` that fails. */
  datatype SeveralMatches = SeveralMatches(matches: seq<string>)

  /**
   * find_pipeline_spec_match: the one path that matches, None when none
   * does, and a failed assertion when more than one path (or the same path
   * twice) matches.
   */
  method FindPipelineSpecMatch(paths: seq<string>, datasetId: string, datasetVersion: string)
    returns (r: Result<Option<string>, SeveralMatches>)
    ensures r.Err? <==> |Matches(paths, datasetId, datasetVersion)| > 1
    ensures r == Ok(None) <==> forall p :: p in paths ==> !Matching(p, datasetId, datasetVersion)
    ensures r.Ok? && r.value.Some? ==>
      r.value.value in paths && Matching(r.value.value, datasetId, datasetVersion)
      && forall p :: p in paths && Matching(p, datasetId, datasetVersion) ==> p == r.value.value
  {
    var matches: seq<string> := [];
    for i := 0 to |paths|
      invariant matches == Matches(paths[..i], datasetId, datasetVersion)
    {
      assert paths[..i + 1][..i] == paths[..i];
      var searchString := "/" + datasetId + "/" + datasetVersion + "/data/pipeline-spec.yaml";
      var path := paths[i];
      if Contains(path, searchString) && !Contains(path, "/working/") && !Contains(path, "/work/") {
        matches := matches + [path];
      }
    }
    assert paths[..|paths|] == paths;
    MatchesMembers(paths, datasetId, datasetVersion);
    if |matches| > 1 {
      assert matches[0] in matches;
      return Err(SeveralMatches(matches));
    }
    if |matches| == 1 {
      OnlyMatch(paths, datasetId, datasetVersion);
      assert matches[0] in matches;
      return Ok(Some(matches[0]));
    }
    return Ok(None);
  }

  lemma OnlyMatch(paths: seq<string>, datasetId: string, datasetVersion: string)
    requires |Matches(paths, datasetId, datasetVersion)| == 1
    ensures forall p :: p in paths && Matching(p, datasetId, datasetVersion) ==> p == Matches(paths, datasetId, datasetVersion)[0]
  {
    MatchesMembers(paths, datasetId, datasetVersion);
    var m := Matches(paths, datasetId, datasetVersion);
    forall p | p in paths && Matching(p, datasetId, datasetVersion) ensures p == m[0] {
      assert p in m;
    }
  }

  /** A SPARQL result row: each variable's value. */
  type Binding = map<string, string>

  /**
   * latlon_dict: the rows keyed by the id of their "dataset" URL, a later
   * row replacing an earlier one; None where a row has no "dataset".
   */
  function LatLonIndex(rows: seq<Binding>): Option<map<string, Binding>>
  {
    if rows == [] then Some(map[])
    else
      var last := rows[|rows| - 1];
      match LatLonIndex(rows[..|rows| - 1])
      case None => None
      case Some(index) =>
        if "dataset" in last then Some(index[ExtractDatasetId(last["dataset"]) := last]) else None
  }

  /** The KeyError of a row without a column the script reads. */
  datatype MissingColumn = MissingColumn(column: string)

  /** get_latlon_fields: the two column names of a known dataset, else (None, None). */
  function LatLonFields(datasetId: string, index: map<string, Binding>): (r: Result<(Option<string>, Option<string>), MissingColumn>)
    ensures datasetId !in index ==> r == Ok((None, None))
    ensures r.Ok? && datasetId in index ==>
      "lat_column" in index[datasetId] && "lon_column" in index[datasetId]
      && r.value == (Some(index[datasetId]["lat_column"]), Some(index[datasetId]["lon_column"]))
    ensures r.Err? <==> datasetId in index && !("lat_column" in index[datasetId] && "lon_column" in index[datasetId])
  {
    if datasetId in index then
      var row := index[datasetId];
      if "lat_column" !in row then Err(MissingColumn("lat_column"))
      else if "lon_column" !in row then Err(MissingColumn("lon_column"))
      else Ok((Some(row["lat_column"]), Some(row["lon_column"])))
    else Ok((None, None))
  }

  /** The rows of a dataset, in list order: those with a "dataset" URL naming it. */
  function Owned(rows: seq<Binding>, datasetId: string): seq<Binding>
  {
    if rows == [] then []
    else
      var last := rows[|rows| - 1];
      Owned(rows[..|rows| - 1], datasetId)
      + (if "dataset" in last && ExtractDatasetId(last["dataset"]) == datasetId then [last] else [])
  }

  /** Every row names a dataset, and those of this dataset name a species column. */
  predicate SpeciesReadable(rows: seq<Binding>, datasetId: string)
  {
    forall b :: b in rows ==>
      "dataset" in b && (ExtractDatasetId(b["dataset"]) == datasetId ==> "species_column" in b)
  }

  /** The species columns of a dataset, or the first missing column. */
  function SpeciesColumns(rows: seq<Binding>, datasetId: string): Result<seq<string>, MissingColumn>
  {
    if rows == [] then Ok([])
    else
      var last := rows[|rows| - 1];
      match SpeciesColumns(rows[..|rows| - 1], datasetId)
      case Err(e) => Err(e)
      case Ok(columns) =>
        if "dataset" !in last then Err(MissingColumn("dataset"))
        else if ExtractDatasetId(last["dataset"]) != datasetId then Ok(columns)
        else if "species_column" !in last then Err(MissingColumn("species_column"))
        else Ok(columns + [last["species_column"]])
  }

  /**
   * The columns are read iff every row names a dataset and every row of
   * this dataset names a column; they are those rows' columns in order.
   */
  lemma {:induction false} SpeciesColumnsOwned(rows: seq<Binding>, datasetId: string)
    ensures SpeciesColumns(rows, datasetId).Ok? <==> SpeciesReadable(rows, datasetId)
    ensures SpeciesColumns(rows, datasetId).Ok? ==>
      var columns := SpeciesColumns(rows, datasetId).value;
      var owned := Owned(rows, datasetId);
      |columns| == |owned|
      && forall k :: 0 <= k < |owned| ==> "species_column" in owned[k] && columns[k] == owned[k]["species_column"]
  {
    if rows != [] {
      var init := rows[..|rows| - 1];
      SpeciesColumnsOwned(init, datasetId);
      assert rows == init + [rows[|rows| - 1]];
      if !SpeciesReadable(init, datasetId) {
        assert exists b :: b in init && !("dataset" in b && (ExtractDatasetId(b["dataset"]) == datasetId ==> "species_column" in b));
      }
    }
  }

  /** get_species_fields: the loop over the species rows. */
  method SpeciesFields(rows: seq<Binding>, datasetId: string) returns (r: Result<seq<string>, MissingColumn>)
    ensures r == SpeciesColumns(rows, datasetId)
    ensures r.Ok? <==> SpeciesReadable(rows, datasetId)
    ensures r.Ok? ==>
      var owned := Owned(rows, datasetId);
      |r.value| == |owned|
      && forall k :: 0 <= k < |owned| ==> "species_column" in owned[k] && r.value[k] == owned[k]["species_column"]
  {
    SpeciesColumnsOwned(rows, datasetId);
    var returnList: seq<string> := [];
    for i := 0 to |rows|
      invariant SpeciesColumns(rows[..i], datasetId) == Ok(returnList)
    {
      assert rows[..i + 1][..i] == rows[..i];
      var species := rows[i];
      if "dataset" !in species {
        SpeciesStopAt(rows, datasetId, i + 1);
        return Err(MissingColumn("dataset"));
      }
      var newDatasetId := ExtractDatasetId(species["dataset"]);
      if datasetId == newDatasetId {
        if "species_column" !in species {
          SpeciesStopAt(rows, datasetId, i + 1);
          return Err(MissingColumn("species_column"));
        }
        returnList := returnList + [species["species_column"]];
      }
    }
    assert rows[..|rows|] == rows;
    return Ok(returnList);
  }

  lemma {:induction false} SpeciesStopAt(rows: seq<Binding>, datasetId: string, i: nat)
    requires i <= |rows| && SpeciesColumns(rows[..i], datasetId).Err?
    ensures SpeciesColumns(rows, datasetId) == SpeciesColumns(rows[..i], datasetId)
    decreases |rows| - i
  {
    if i < |rows| {
      assert rows[..i + 1][..i] == rows[..i];
      SpeciesStopAt(rows, datasetId, i + 1);
    } else {
      assert rows[..i] == rows;
    }
  }

  /** A row of datasets.csv after the main loop's clean-up. */
  datatype Dataset = Dataset(id: string, version: string, falseVersioned: bool, title: string, url: string)

  /**
   * A version `int` rejects becomes "0" and is recorded as false-versioned;
   * a title ending in ".tsv" loses it; a dataset whose url type is not
   * "Primary" is loaded from the URL of its row.
   */
  function Normalise(row: seq<string>): (d: Dataset)
    requires |row| >= 5
    ensures d.id == row[0]
    ensures d.falseVersioned <==> ParseInt(row[1]).None?
    ensures d.version == if d.falseVersioned then "0" else row[1]
    ensures EndsWith(row[4], ".tsv") ==> d.title + ".tsv" == row[4]
    ensures !EndsWith(row[4], ".tsv") ==> d.title == row[4]
    ensures d.url == if row[2] == "Primary" then DataUrl(row[0]) else row[3]
  {
    var datasetId := row[0];
    var falseVersioned := ParseInt(row[1]).None?;
    var version := if falseVersioned then "0" else row[1];
    var title := if EndsWith(row[4], ".tsv") then row[4][..|row[4]| - 4] else row[4];
    var url := if row[2] != "Primary" then row[3] else DataUrl(datasetId);
    Dataset(datasetId, version, falseVersioned, title, url)
  }
}

module GenerateLookupsFacts {
  import opened Wrappers
  import opened Text
  import opened GenerateLookups

  /** A URL ending in a slash and digits gives those digits. */
  lemma ExtractDigitTail(prefix: string, digits: string)
    requires forall k :: 0 <= k < |prefix| ==> prefix[k] != '\n'
    requires AllDigits(digits)
    ensures ExtractDatasetId(prefix + "/" + digits) == digits
  {
    var url := prefix + "/" + digits;
    assert forall k :: 0 <= k < |url| ==> url[k] != '\n' by {
      forall k | 0 <= k < |url| ensures url[k] != '\n' {
        if k < |prefix| {
          assert url[k] == prefix[k];
        } else if k > |prefix| {
          assert url[k] == digits[k - |prefix| - 1];
        }
      }
    }
    assert url[|prefix|] == '/';
    if |url| > 0 && url[|url| - 1] == '\n' {
      assert false;
    }
    assert LastIndex(url, '\n').None?;
    assert url[0..] == url;
    var j := LastIndex(url, '/');
    assert j == Some(|prefix|) by {
      forall k | |prefix| < k < |url| ensures url[k] != '/' {
        assert url[k] == digits[k - |prefix| - 1];
      }
    }
    assert url[|prefix| + 1..] == digits;
    assert url[..0] + digits + url[|url|..] == digits;
  }

  /**
   * On a one-line URL the id is either the URL itself or the digits after
   * its last slash, which then end the URL.
   */
  lemma ExtractOneLine(url: string)
    requires forall k :: 0 <= k < |url| ==> url[k] != '\n'
    ensures var id := ExtractDatasetId(url);
      id == url || (AllDigits(id) && |id| < |url| && url[|url| - |id| - 1] == '/' && url[|url| - |id|..] == id)
  {
    assert LastIndex(url, '\n').None?;
    assert url[0..] == url;
    if |url| > 0 {
      assert url[|url| - 1] != '\n';
    }
    match LastIndex(url, '/')
    case None =>
    case Some(j) =>
      var digits := url[j + 1..];
      if AllDigits(digits) {
        assert url[..0] + digits + url[|url|..] == digits;
      }
  }

  /** A version `int` accepts is kept; anything else becomes "0". */
  lemma NormaliseVersion(row: seq<string>)
    requires |row| >= 5
    ensures ParseInt(Normalise(row).version).Some?
  {
    if ParseInt(row[1]).None? {
      assert "0" == [DigitChar(0)];
      assert Strip("0") == "0" by {
        assert !IsSpace('0');
      }
      assert DigitGroups("0");
    }
  }

  /** Each row of a dataset in the rows is in its owned list, and only those. */
  lemma {:induction false} OwnedMembers(rows: seq<Binding>, datasetId: string)
    ensures forall b :: b in Owned(rows, datasetId) <==>
      b in rows && "dataset" in b && ExtractDatasetId(b["dataset"]) == datasetId
  {
    if rows != [] {
      OwnedMembers(rows[..|rows| - 1], datasetId);
      assert rows == rows[..|rows| - 1] + [rows[|rows| - 1]];
    }
  }

  /** The latitude/longitude index is built only when every row names a dataset. */
  lemma {:induction false} LatLonIndexNamed(rows: seq<Binding>)
    requires LatLonIndex(rows).Some?
    ensures forall b :: b in rows ==> "dataset" in b
  {
    if rows != [] {
      var init := rows[..|rows| - 1];
      var last := rows[|rows| - 1];
      assert LatLonIndex(init).Some? && "dataset" in last;
      LatLonIndexNamed(init);
      forall b | b in rows ensures "dataset" in b {
        var k :| 0 <= k < |rows| && rows[k] == b;
        if k < |rows| - 1 {
          assert init[k] == b;
        }
      }
    }
  }

  /** The latitude/longitude index holds the last row of each dataset. */
  lemma {:induction false} LatLonIndexLast(rows: seq<Binding>, datasetId: string)
    requires LatLonIndex(rows).Some?
    ensures datasetId in LatLonIndex(rows).value <==> Owned(rows, datasetId) != []
    ensures datasetId in LatLonIndex(rows).value ==>
      LatLonIndex(rows).value[datasetId] == Owned(rows, datasetId)[|Owned(rows, datasetId)| - 1]
  {
    if rows != [] {
      var init := rows[..|rows| - 1];
      var last := rows[|rows| - 1];
      LatLonIndexLast(init, datasetId);
      var index := LatLonIndex(init).value;
      var owned := Owned(init, datasetId);
      var id := ExtractDatasetId(last["dataset"]);
      assert LatLonIndex(rows).value == index[id := last];
      if id == datasetId {
        assert Owned(rows, datasetId) == owned + [last];
      } else {
        assert Owned(rows, datasetId) == owned + [];
      }
    }
  }
}
