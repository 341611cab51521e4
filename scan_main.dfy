/**
 * The floating-point bug scan over the whole bucket: list_pipeline_specs and
 * main (conrad_scripts/laminar_floating_point_error/script.py).
 *
 * Every pipeline spec of the bucket is parsed, its Excel files extracted and
 * checked, and each bug becomes one record naming the spec, the pipeline,
 * the file, the sheet and the cell. The records are sorted newest first by
 * the spec's last-modified time.
 */
module ScanMain {
  import opened Wrappers
  import opened Text
  import opened Json
  import opened Lists
  import opened Sorting
  import opened Convert
  import opened ScanExtract
  import opened ScanCheck

  const SpecSuffix := "pipeline-spec.yaml"

  /** A key of the bucket that names a pipeline spec. */
  predicate IsSpecKey(key: string) { EndsWith(key, SpecSuffix) }

  /** The spec keys of the listing pages, in order; a page without "Contents" is an empty page. */
  function SpecKeys(pages: seq<seq<string>>): seq<string>
  {
    if pages == [] then []
    else SpecKeys(pages[..|pages| - 1]) + Filter(pages[|pages| - 1], IsSpecKey)
  }

  /**
   * The parsed spec at a key with its last-modified time, rendered as
   * "%Y-%m-%d %H:%M:%S UTC"; ({}, None) when it cannot be fetched or parsed.
   */
  type Parser = string -> (Value, Option<string>)

  /** The bugs check_excel_for_bug reports for an Excel path. */
  type Checker = string -> seq<Bug>

  /** The checker is check_excel_for_bug over the workbooks `open` gives, comparing cells with `judge`. */
  ghost predicate Checks(open: Opener, judge: Judge, check: Checker)
  {
    forall path {:trigger CheckExcel(path, open, judge)} :: check(path) == CheckExcel(path, open, judge)
  }

  /** One entry of potentially_buggy_pipelines.json. */
  datatype Record = Record(
    pipelineSpec: string,
    pipelineName: string,
    excelFile: string,
    sheetName: string,
    errorLocation: string,
    row: nat,
    column: string,
    oldValue: Conv,
    newValue: Conv,
    formatType: FormatType,
    lastUpdated: string)

  /** `last_modified or "Unknown"`. */
  function LastUpdated(lastModified: Option<string>): (r: string)
    ensures r != []
    ensures lastModified.Some? && lastModified.value != [] ==> r == lastModified.value
  {
    if lastModified.Some? && lastModified.value != [] then lastModified.value else "Unknown"
  }

  /** The cell reference: column letters then the row number. */
  function Location(column: string, row: nat): string { column + NatToString(row) }

  function RecordOf(key: string, name: string, path: string, lastModified: Option<string>, b: Bug): Record
  {
    Record(key, name, path, b.sheet, Location(b.column, b.row), b.row, b.column,
           b.oldValue, b.newValue, b.formatType, LastUpdated(lastModified))
  }

  /** The records of one Excel file's bugs, in order. */
  function FileRecords(key: string, name: string, path: string, lastModified: Option<string>, bugs: seq<Bug>): (r: seq<Record>)
    ensures |r| == |bugs|
    ensures forall i :: 0 <= i < |r| ==> r[i] == RecordOf(key, name, path, lastModified, bugs[i])
  {
    seq(|bugs|, i requires 0 <= i < |bugs| => RecordOf(key, name, path, lastModified, bugs[i]))
  }

  /** The records of one spec's Excel files, file by file. */
  function SpecRecords(key: string, files: seq<(string, string)>, lastModified: Option<string>, check: Checker): seq<Record>
  {
    if files == [] then []
    else
      var f := files[|files| - 1];
      SpecRecords(key, files[..|files| - 1], lastModified, check)
        + FileRecords(key, f.0, f.1, lastModified, check(f.1))
  }

  /** The records of the specs in order; an extraction that raises ends the scan. */
  function AllRecords(keys: seq<string>, parse: Parser, matches: Matcher, check: Checker): Result<seq<Record>, ScanError>
  {
    if keys == [] then Ok([])
    else match AllRecords(keys[..|keys| - 1], parse, matches, check)
      case Err(e) => Err(e)
      case Ok(front) =>
        var key := keys[|keys| - 1];
        match ExcelFiles(parse(key).0, matches)
        case Err(e) => Err(e)
        case Ok(files) => Ok(front + SpecRecords(key, files, parse(key).1, check))
  }

  /** The order of the output file: a record comes before another whose last_updated is not later. */
  predicate Newer(a: Record, b: Record) { TextLe(b.lastUpdated, a.lastUpdated) }

  /** What main writes: every record, newest first; or what extraction raised. */
  function ScanOutput(pages: seq<seq<string>>, parse: Parser, matches: Matcher, check: Checker): Result<seq<Record>, ScanError>
  {
    match AllRecords(SpecKeys(pages), parse, matches, check)
    case Err(e) => Err(e)
    case Ok(records) => Ok(Sort(records, Newer))
  }

  /** list_pipeline_specs: the page loop and the key loop. */
  method ListPipelineSpecs(pages: seq<seq<string>>) returns (keys: seq<string>)
    ensures keys == SpecKeys(pages)
  {
    keys := [];
    for p := 0 to |pages|
      invariant keys == SpecKeys(pages[..p])
    {
      assert pages[..p + 1][..p] == pages[..p];
      ghost var before := keys;
      var page := pages[p];
      for j := 0 to |page|
        invariant keys == before + Filter(page[..j], IsSpecKey)
      {
        FilterSnoc(page[..j], page[j], IsSpecKey);
        assert page[..j + 1] == page[..j] + [page[j]];
        if EndsWith(page[j], SpecSuffix) {
          keys := keys + [page[j]];
        }
      }
      assert page[..|page|] == page;
    }
    assert pages[..|pages|] == pages;
  }

  /** A comprehension over a list grown by one element. */
  lemma {:induction false} FilterSnoc<T>(xs: seq<T>, x: T, p: T -> bool)
    ensures Filter(xs + [x], p) == Filter(xs, p) + (if p(x) then [x] else [])
  {
    if xs != [] {
      assert (xs + [x])[1..] == xs[1..] + [x];
      FilterSnoc(xs[1..], x, p);
    } else {
      assert xs + [x] == [x];
    }
  }

  /** The loop recording one file's bugs. */
  method AppendFileRecords(records: seq<Record>, key: string, name: string, path: string, lastModified: Option<string>, bugs: seq<Bug>)
    returns (r: seq<Record>)
    ensures r == records + FileRecords(key, name, path, lastModified, bugs)
  {
    r := records;
    for i := 0 to |bugs|
      invariant r == records + FileRecords(key, name, path, lastModified, bugs[..i])
    {
      var b := bugs[i];
      r := r + [Record(key, name, path, b.sheet, b.column + NatToString(b.row), b.row, b.column,
                       b.oldValue, b.newValue, b.formatType, LastUpdated(lastModified))];
    }
    assert bugs[..|bugs|] == bugs;
  }

  /** check_excel_for_bug on one path, as the checker sees it. */
  method CheckFile(path: string, open: Opener, judge: Judge, ghost check: Checker) returns (bugs: seq<Bug>)
    requires Checks(open, judge, check)
    ensures bugs == check(path)
  {
    bugs := CheckExcelForBug(path, open, judge);
  }

  /** The loop over one spec's Excel files. */
  method CheckSpecFiles(records: seq<Record>, key: string, files: seq<(string, string)>, lastModified: Option<string>,
                        open: Opener, judge: Judge, ghost check: Checker)
    returns (r: seq<Record>)
    requires Checks(open, judge, check)
    ensures r == records + SpecRecords(key, files, lastModified, check)
  {
    r := records;
    for i := 0 to |files|
      invariant r == records + SpecRecords(key, files[..i], lastModified, check)
    {
      var bugs := CheckFile(files[i].1, open, judge, check);
      SpecRecordsSnoc(key, files, i, lastModified, check);
      ghost var done := SpecRecords(key, files[..i], lastModified, check);
      ghost var more := FileRecords(key, files[i].0, files[i].1, lastModified, bugs);
      assert (records + done) + more == records + (done + more);
      r := AppendFileRecords(r, key, files[i].0, files[i].1, lastModified, bugs);
    }
    assert files[..|files|] == files;
  }

  lemma SpecRecordsSnoc(key: string, files: seq<(string, string)>, i: nat, lastModified: Option<string>, check: Checker)
    requires i < |files|
    ensures SpecRecords(key, files[..i + 1], lastModified, check)
         == SpecRecords(key, files[..i], lastModified, check)
            + FileRecords(key, files[i].0, files[i].1, lastModified, check(files[i].1))
  {
    assert files[..i + 1][..i] == files[..i];
  }

  /** main: every spec in turn, then the sort by last_updated, newest first. */
  method RunScan(pages: seq<seq<string>>, parse: Parser, matches: Matcher, open: Opener, fixed: Renderer, ghost check: Checker)
    returns (r: Result<seq<Record>, ScanError>)
    requires Checks(open, JudgeWith(fixed), check)
    ensures r == ScanOutput(pages, parse, matches, check)
  {
    var judge := JudgeWith(fixed);
    var keys := ListPipelineSpecs(pages);
    var records: seq<Record> := [];
    for k := 0 to |keys|
      invariant AllRecords(keys[..k], parse, matches, check) == Ok(records)
    {
      assert keys[..k + 1][..k] == keys[..k];
      var parsed := parse(keys[k]);
      var files := ExtractExcelFiles(parsed.0, matches);
      if files.Err? {
        AllRecordsStops(keys, k + 1, parse, matches, check);
        return Err(files.error);
      }
      records := CheckSpecFiles(records, keys[k], files.value, parsed.1, open, judge, check);
    }
    assert keys[..|keys|] == keys;
    r := Ok(Sort(records, Newer));
  }

  /** Once a prefix of the specs raises, the whole scan raises the same. */
  lemma {:induction false} AllRecordsStops(keys: seq<string>, k: nat, parse: Parser, matches: Matcher, check: Checker)
    requires k <= |keys| && AllRecords(keys[..k], parse, matches, check).Err?
    ensures AllRecords(keys, parse, matches, check) == AllRecords(keys[..k], parse, matches, check)
    decreases |keys|
  {
    if k == |keys| {
      assert keys[..k] == keys;
    } else {
      var front := keys[..|keys| - 1];
      assert front[..k] == keys[..k];
      AllRecordsStops(front, k, parse, matches, check);
    }
  }
}

/** What main promises about potentially_buggy_pipelines.json. */
module ScanMainFacts {
  import opened Wrappers
  import opened Text
  import opened Lists
  import opened Sorting
  import opened ScanExtract
  import opened ScanCheck
  import opened ScanCheckFacts
  import opened ScanMain

  /** The listing keeps exactly the keys ending in "pipeline-spec.yaml". */
  lemma {:induction false} SpecKeysFacts(pages: seq<seq<string>>, key: string)
    ensures key in SpecKeys(pages) <==> IsSpecKey(key) && exists p :: 0 <= p < |pages| && key in pages[p]
  {
    if pages != [] {
      var front := pages[..|pages| - 1];
      var last := pages[|pages| - 1];
      SpecKeysFacts(front, key);
      if IsSpecKey(key) && key in last {
        FilterKeeps(last, IsSpecKey, key);
      }
      if exists p :: 0 <= p < |pages| && key in pages[p] {
        var p :| 0 <= p < |pages| && key in pages[p];
        if p < |front| {
          assert key in front[p];
        }
      }
      if exists p :: 0 <= p < |front| && key in front[p] {
        var p :| 0 <= p < |front| && key in front[p];
        assert key in pages[p];
      }
    }
  }

  /** The number of leading column letters. */
  function LetterRun(s: string): (n: nat)
    ensures n <= |s|
  {
    if s != [] && 'A' <= s[0] <= 'Z' then 1 + LetterRun(s[1..]) else 0
  }

  /** A cell reference split back into its column letters and row number. */
  function ParseLocation(loc: string): Option<(string, nat)>
  {
    var n := LetterRun(loc);
    if forall k :: n <= k < |loc| ==> IsDigit(loc[k]) then Some((loc[..n], DigitsValue(loc[n..]))) else None
  }

  lemma {:induction false} LetterRunStops(column: string, digits: string)
    requires forall k :: 0 <= k < |column| ==> 'A' <= column[k] <= 'Z'
    requires digits != [] && IsDigit(digits[0])
    ensures LetterRun(column + digits) == |column|
  {
    if column == [] {
      assert column + digits == digits;
    } else {
      assert (column + digits)[1..] == column[1..] + digits;
      LetterRunStops(column[1..], digits);
    }
  }

  /** The error location names the bug's cell: it reads back as the column letters and the row. */
  lemma LocationRoundTrip(column: string, row: nat)
    requires forall k :: 0 <= k < |column| ==> 'A' <= column[k] <= 'Z'
    ensures ParseLocation(Location(column, row)) == Some((column, row))
  {
    var digits := NatToString(row);
    var loc := Location(column, row);
    LetterRunStops(column, digits);
    assert loc[..|column|] == column && loc[|column|..] == digits;
    DigitsRoundTrip(row);
  }

  /** A checker that reports only placed, non-General bugs. */
  ghost predicate CheckerOk(check: Checker)
  {
    forall path, b :: b in check(path) ==> b.formatType == Other && WellPlaced(b)
  }

  /** check_excel_for_bug is such a checker. */
  lemma ScanCheckerOk(open: Opener, fixed: Convert.Renderer, check: Checker)
    requires Checks(open, JudgeWith(fixed), check)
    ensures CheckerOk(check)
  {
    forall path, b | b in check(path)
      ensures b.formatType == Other && WellPlaced(b)
    {
      CheckExcelFacts(path, open, fixed, b.sheet);
    }
  }

  /** A record as main writes it: a non-General bug whose error location reads back as its cell. */
  predicate RecordOk(rec: Record)
  {
    rec.formatType == Other && rec.row >= 1 && rec.column != []
    && ParseLocation(rec.errorLocation) == Some((rec.column, rec.row))
    && rec.lastUpdated != []
  }

  lemma {:induction false} SpecRecordsOk(key: string, files: seq<(string, string)>, lastModified: Option<string>, check: Checker)
    requires CheckerOk(check)
    ensures forall i :: 0 <= i < |SpecRecords(key, files, lastModified, check)| ==>
      RecordOk(SpecRecords(key, files, lastModified, check)[i])
      && SpecRecords(key, files, lastModified, check)[i].pipelineSpec == key
  {
    if files != [] {
      var front := files[..|files| - 1];
      var f := files[|files| - 1];
      SpecRecordsOk(key, front, lastModified, check);
      var bugs := check(f.1);
      forall i | 0 <= i < |bugs|
        ensures RecordOk(RecordOf(key, f.0, f.1, lastModified, bugs[i]))
      {
        assert bugs[i] in bugs;
        LocationRoundTrip(bugs[i].column, bugs[i].row);
      }
    }
  }

  /** Every record of the scan is a placed non-General bug of one of the listed specs. */
  lemma {:induction false} AllRecordsOk(keys: seq<string>, parse: Parser, matches: Matcher, check: Checker)
    requires CheckerOk(check)
    ensures AllRecords(keys, parse, matches, check).Ok? ==>
      forall i :: 0 <= i < |AllRecords(keys, parse, matches, check).value| ==>
        RecordOk(AllRecords(keys, parse, matches, check).value[i])
        && AllRecords(keys, parse, matches, check).value[i].pipelineSpec in keys
  {
    if keys != [] {
      var front := keys[..|keys| - 1];
      var key := keys[|keys| - 1];
      AllRecordsOk(front, parse, matches, check);
      var files := ExcelFiles(parse(key).0, matches);
      if AllRecords(keys, parse, matches, check).Ok? {
        SpecRecordsOk(key, files.value, parse(key).1, check);
        var rs := AllRecords(keys, parse, matches, check).value;
        var before := AllRecords(front, parse, matches, check).value;
        forall i | 0 <= i < |rs|
          ensures RecordOk(rs[i]) && rs[i].pipelineSpec in keys
        {
          if i < |before| {
            assert rs[i].pipelineSpec in front;
          }
        }
      }
    }
  }

  /** The scan fails exactly when extracting the Excel files of some spec raises. */
  lemma {:induction false} AllRecordsFail(keys: seq<string>, parse: Parser, matches: Matcher, check: Checker)
    ensures AllRecords(keys, parse, matches, check).Err? <==>
      exists i :: 0 <= i < |keys| && ExcelFiles(parse(keys[i]).0, matches).Err?
  {
    if keys != [] {
      var front := keys[..|keys| - 1];
      AllRecordsFail(front, parse, matches, check);
      if exists i :: 0 <= i < |front| && ExcelFiles(parse(front[i]).0, matches).Err? {
        var i :| 0 <= i < |front| && ExcelFiles(parse(front[i]).0, matches).Err?;
        assert keys[i] == front[i];
      }
      if exists i :: 0 <= i < |keys| && ExcelFiles(parse(keys[i]).0, matches).Err? {
        var i :| 0 <= i < |keys| && ExcelFiles(parse(keys[i]).0, matches).Err?;
        if i < |front| {
          assert front[i] == keys[i];
        }
      }
    }
  }

  /** Ordering by last_updated, newest first, is total and transitive. */
  lemma NewerOrders()
    ensures TotalPreorder(Newer)
  {
    forall a, b
      ensures Newer(a, b) || Newer(b, a)
    {
      TextLeTotal(a.lastUpdated, b.lastUpdated);
    }
    forall a, b, c | Newer(a, b) && Newer(b, c)
      ensures Newer(a, c)
    {
      TextLeTransitive(c.lastUpdated, b.lastUpdated, a.lastUpdated);
    }
  }

  /** The scan fails exactly when extracting the Excel files of some listed spec raises. */
  lemma ScanOutputFails(pages: seq<seq<string>>, parse: Parser, matches: Matcher, check: Checker)
    ensures ScanOutput(pages, parse, matches, check).Err? <==>
      exists i :: 0 <= i < |SpecKeys(pages)| && ExcelFiles(parse(SpecKeys(pages)[i]).0, matches).Err?
  {
    AllRecordsFail(SpecKeys(pages), parse, matches, check);
    assert ScanOutput(pages, parse, matches, check).Err? ==> exists i :: 0 <= i < |SpecKeys(pages)| && ExcelFiles(parse(SpecKeys(pages)[i]).0, matches).Err?;
    assert (exists i :: 0 <= i < |SpecKeys(pages)| && ExcelFiles(parse(SpecKeys(pages)[i]).0, matches).Err?) ==> ScanOutput(pages, parse, matches, check).Err?;
  }

  /** Reordering keeps what holds of every record. */
  lemma PermutedRecordsOk(records: seq<Record>, out: seq<Record>, pages: seq<seq<string>>)
    requires multiset(out) == multiset(records)
    requires forall i :: 0 <= i < |records| ==> RecordOk(records[i]) && records[i].pipelineSpec in SpecKeys(pages)
    ensures forall i :: 0 <= i < |out| ==> RecordOk(out[i]) && IsSpecKey(out[i].pipelineSpec)
  {
    forall i | 0 <= i < |out|
      ensures RecordOk(out[i]) && IsSpecKey(out[i].pipelineSpec)
    {
      assert out[i] in multiset(out);
      assert out[i] in records;
      var j :| 0 <= j < |records| && records[j] == out[i];
      SpecKeysFacts(pages, out[i].pipelineSpec);
    }
  }

  /**
   * main: the output holds exactly the records found, newest first; each is
   * a non-General bug of a listed spec whose error location reads back as
   * its cell, so the General-format tally is always zero.
   */
  lemma ScanOutputFacts(pages: seq<seq<string>>, parse: Parser, matches: Matcher, check: Checker)
    requires CheckerOk(check)
    ensures ScanOutput(pages, parse, matches, check).Ok? ==>
      var out := ScanOutput(pages, parse, matches, check).value;
      Sorted(out, Newer)
      && multiset(out) == multiset(AllRecords(SpecKeys(pages), parse, matches, check).value)
      && (forall i :: 0 <= i < |out| ==> RecordOk(out[i]) && IsSpecKey(out[i].pipelineSpec))
      && Filter(out, (r: Record) => r.formatType == General) == []
  {
    var keys := SpecKeys(pages);
    if ScanOutput(pages, parse, matches, check).Ok? {
      var records := AllRecords(keys, parse, matches, check).value;
      var out := Sort(records, Newer);
      NewerOrders();
      SortSorted(records, Newer);
      SortPermutes(records, Newer);
      AllRecordsOk(keys, parse, matches, check);
      PermutedRecordsOk(records, out, pages);
      FilterNone(out, (r: Record) => r.formatType == General);
    }
  }
}
