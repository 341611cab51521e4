/**
 * Which Excel files a pipeline spec loads: extract_excel_files of the
 * floating-point bug scan (conrad_scripts/laminar_floating_point_error/script.py).
 *
 * A spec is the parsed YAML document: its first key is the pipeline name,
 * whose "pipeline" list holds the steps. Every load step with format "xlsx"
 * contributes the paths in its "from" parameter; a step with
 * "input_path_pattern" set has its S3 globs expanded against the bucket
 * listing, which is a parameter here.
 */
module ScanExtract {
  import opened Wrappers
  import opened Text
  import opened Json

  const LoadProcessor := "bcodmo_pipeline_processors.load"

  /** Why extraction raised, ending the whole scan. */
  datatype ScanError =
    | WrongType                 // AttributeError or TypeError: a value is not the dict, list or str the code treats it as
    | NonS3Start                // a glob entry that does not start with "s3://"
    | ImproperS3Url(p: string)  // a glob entry with no "/" after its bucket
    | NoObjectsFound(p: string) // a glob entry that matched no object

  /**
   * The object keys of a bucket that a glob path matches, in listing order
   * and unquoted: the S3 listing filtered with fnmatch.
   */
  type Matcher = (string, string) -> seq<string>

  /** Python iteration over a value: a list's items, a string's characters, a dict's keys. */
  function Items(v: Value): (r: Result<seq<Value>, ScanError>)
    ensures r.Err? <==> !(v.Arr? || v.Str? || v.Obj?)
  {
    match Elements(v)
    case Some(items) => Ok(items)
    case None => Err(WrongType)
  }

  /** The position of the first "/" in a string. */
  function FirstSlash(s: string): (r: Option<nat>)
    ensures r.Some? ==> r.value < |s| && s[r.value] == '/' && '/' !in s[..r.value]
    ensures r.None? ==> '/' !in s
  {
    if s == [] then None
    else if s[0] == '/' then Some(0)
    else match FirstSlash(s[1..])
      case None => None
      case Some(i) =>
        assert s[..i + 1] == [s[0]] + s[1..][..i];
        Some(i + 1)
  }

  /** `bucket, path = p[5:].split("/", 1)`, which raises when there is no "/". */
  function BucketAndPath(p: string): (r: Result<(string, string), ScanError>)
    requires StartsWith(p, "s3://")
    ensures r.Ok? ==> p == "s3://" + r.value.0 + "/" + r.value.1 && '/' !in r.value.0
    ensures r.Err? <==> '/' !in p[5..]
  {
    var rest := p[5..];
    match FirstSlash(rest)
    case None => Err(ImproperS3Url(p))
    case Some(i) =>
      assert rest == rest[..i] + "/" + rest[i + 1..];
      assert p == "s3://" + rest;
      Ok((rest[..i], rest[i + 1..]))
  }

  /** The matched keys as S3 URLs of the bucket. */
  function S3Paths(bucket: string, found: seq<string>): (r: seq<string>)
    ensures |r| == |found|
    ensures forall i :: 0 <= i < |r| ==> r[i] == "s3://" + bucket + "/" + found[i]
  {
    seq(|found|, i requires 0 <= i < |found| => "s3://" + bucket + "/" + found[i])
  }

  /** One entry of a glob step's "from", expanded against the bucket listing. */
  function Expand(p: Value, matches: Matcher): Result<seq<string>, ScanError>
  {
    if !p.Str? then Err(WrongType)
    else if !StartsWith(p.s, "s3://") then Err(NonS3Start)
    else match BucketAndPath(p.s)
      case Err(e) => Err(e)
      case Ok(bp) =>
        var found := matches(bp.0, bp.1);
        if found == [] then Err(NoObjectsFound(p.s)) else Ok(S3Paths(bp.0, found))
  }

  /** The expansions of a glob step's entries in order; the first entry that raises ends it. */
  function ExpandAll(ps: seq<Value>, matches: Matcher): Result<seq<string>, ScanError>
  {
    if ps == [] then Ok([])
    else match ExpandAll(ps[..|ps| - 1], matches)
      case Err(e) => Err(e)
      case Ok(front) =>
        match Expand(ps[|ps| - 1], matches)
        case Err(e) => Err(e)
        case Ok(more) => Ok(front + more)
  }

  /** The paths a plain (non-glob) "from" names: one string, or an iterable of strings. */
  function Listed(from: Value): Result<seq<string>, ScanError>
  {
    if from.Str? then Ok([from.s])
    else match Items(from)
      case Err(e) => Err(e)
      case Ok(items) =>
        if forall i | 0 <= i < |items| :: items[i].Str?
        then Ok(seq(|items|, i requires 0 <= i < |items| && items[i].Str? => items[i].s))
        else Err(WrongType)
  }

  /** A step that loads xlsx files: a dict running the load processor with a dict of parameters whose format is "xlsx". */
  predicate XlsxLoad(step: Value)
  {
    step.Obj? && At(step, "run") == Str(LoadProcessor)
    && Get(step, "parameters", Obj([])).Obj?
    && At(Get(step, "parameters", Obj([])), "format") == Str("xlsx")
  }

  /** The paths one step of the pipeline contributes, before stripping. */
  function StepPaths(step: Value, matches: Matcher): Result<seq<string>, ScanError>
  {
    if !step.Obj? then Err(WrongType)
    else if At(step, "run") != Str(LoadProcessor) then Ok([])
    else
      var params := Get(step, "parameters", Obj([]));
      if !params.Obj? then Err(WrongType)
      else if At(params, "format") != Str("xlsx") then Ok([])
      else
        var from := Get(params, "from", Arr([]));
        if Truthy(Get(params, "input_path_pattern", Bool(false))) then
          match Items(from)
          case Err(e) => Err(e)
          case Ok(ps) => ExpandAll(ps, matches)
        else Listed(from)
  }

  /** The (pipeline name, stripped path) pairs for a list of paths. */
  function Pairs(name: string, paths: seq<string>): (r: seq<(string, string)>)
    ensures |r| == |paths|
    ensures forall i :: 0 <= i < |r| ==> r[i] == (name, Strip(paths[i]))
  {
    seq(|paths|, i requires 0 <= i < |paths| => (name, Strip(paths[i])))
  }

  /** The pairs of a list of steps, in order; the first step that raises ends it. */
  function StepsFiles(name: string, steps: seq<Value>, matches: Matcher): Result<seq<(string, string)>, ScanError>
  {
    if steps == [] then Ok([])
    else match StepsFiles(name, steps[..|steps| - 1], matches)
      case Err(e) => Err(e)
      case Ok(front) =>
        match StepPaths(steps[|steps| - 1], matches)
        case Err(e) => Err(e)
        case Ok(paths) => Ok(front + Pairs(name, paths))
  }

  /** `"pipeline" in data` for a dict, a string or a list; other values raise. */
  function HasPipeline(data: Value): Result<bool, ScanError>
  {
    match data
    case Obj(_) => Ok(Has(data, "pipeline"))
    case Str(s) => Ok(Contains(s, "pipeline"))
    case Arr(a) => Ok(Str("pipeline") in a)
    case _ => Err(WrongType)
  }

  /** The (pipeline name, Excel path) pairs a parsed spec loads, or what it raised. */
  function ExcelFiles(spec: Value, matches: Matcher): Result<seq<(string, string)>, ScanError>
  {
    if !Truthy(spec) then Ok([])
    else if !spec.Obj? then Err(WrongType)
    else
      var name := spec.entries[0].0;
      var data := spec.entries[0].1;
      match HasPipeline(data)
      case Err(e) => Err(e)
      case Ok(false) => Ok([])
      case Ok(true) =>
        if !data.Obj? then Err(WrongType)
        else match Items(Get(data, "pipeline", Arr([])))
          case Err(e) => Err(e)
          case Ok(steps) => StepsFiles(name, steps, matches)
  }

  /** Once a prefix of the entries raises, the whole expansion raises the same. */
  lemma {:induction false} ExpandAllStops(ps: seq<Value>, k: nat, matches: Matcher)
    requires k <= |ps| && ExpandAll(ps[..k], matches).Err?
    ensures ExpandAll(ps, matches) == ExpandAll(ps[..k], matches)
    decreases |ps|
  {
    if k == |ps| {
      assert ps[..k] == ps;
    } else {
      var front := ps[..|ps| - 1];
      assert front[..k] == ps[..k];
      ExpandAllStops(front, k, matches);
    }
  }

  /** Once a prefix of the steps raises, the whole extraction raises the same. */
  lemma {:induction false} StepsFilesStops(name: string, steps: seq<Value>, k: nat, matches: Matcher)
    requires k <= |steps| && StepsFiles(name, steps[..k], matches).Err?
    ensures StepsFiles(name, steps, matches) == StepsFiles(name, steps[..k], matches)
    decreases |steps|
  {
    if k == |steps| {
      assert steps[..k] == steps;
    } else {
      var front := steps[..|steps| - 1];
      assert front[..k] == steps[..k];
      StepsFilesStops(name, front, k, matches);
    }
  }

  /** The loop over one glob's matches, building their S3 URLs. */
  method MatchUrls(bucket: string, found: seq<string>) returns (more: seq<string>)
    ensures more == S3Paths(bucket, found)
  {
    more := [];
    for j := 0 to |found|
      invariant more == S3Paths(bucket, found[..j])
    {
      more := more + ["s3://" + bucket + "/" + found[j]];
    }
    assert found[..|found|] == found;
  }

  /** The loop appending one (pipeline name, stripped path) pair per path. */
  method AppendPairs(files: seq<(string, string)>, name: string, paths: seq<string>) returns (r: seq<(string, string)>)
    ensures r == files + Pairs(name, paths)
  {
    r := files;
    for j := 0 to |paths|
      invariant r == files + Pairs(name, paths[..j])
    {
      r := r + [(name, Strip(paths[j]))];
    }
    assert paths[..|paths|] == paths;
  }

  /** The glob expansion of a step's entries, one entry and one match at a time. */
  method ExpandGlobs(ps: seq<Value>, matches: Matcher) returns (r: Result<seq<string>, ScanError>)
    ensures r == ExpandAll(ps, matches)
  {
    var paths: seq<string> := [];
    for k := 0 to |ps|
      invariant ExpandAll(ps[..k], matches) == Ok(paths)
    {
      assert ps[..k + 1][..k] == ps[..k];
      var p := ps[k];
      if !p.Str? || !StartsWith(p.s, "s3://") || BucketAndPath(p.s).Err? {
        ExpandAllStops(ps, k + 1, matches);
        return Expand(p, matches);
      }
      var bp := BucketAndPath(p.s);
      var bucket := bp.value.0;
      var found := matches(bucket, bp.value.1);
      var more := MatchUrls(bucket, found);
      if |more| == 0 {
        ExpandAllStops(ps, k + 1, matches);
        return Err(NoObjectsFound(p.s));
      }
      paths := paths + more;
    }
    assert ps[..|ps|] == ps;
    r := Ok(paths);
  }

  /** The paths of one step, with its glob loop. */
  method LoadStepPaths(step: Value, matches: Matcher) returns (r: Result<seq<string>, ScanError>)
    ensures r == StepPaths(step, matches)
  {
    if !step.Obj? {
      return Err(WrongType);
    }
    if At(step, "run") != Str(LoadProcessor) {
      return Ok([]);
    }
    var params := Get(step, "parameters", Obj([]));
    if !params.Obj? {
      return Err(WrongType);
    }
    if At(params, "format") != Str("xlsx") {
      return Ok([]);
    }
    var from := Get(params, "from", Arr([]));
    if Truthy(Get(params, "input_path_pattern", Bool(false))) {
      var ps := Items(from);
      if ps.Err? {
        return Err(ps.error);
      }
      r := ExpandGlobs(ps.value, matches);
    } else {
      r := Listed(from);
    }
  }

  /** The step loop of extract_excel_files, appending one stripped pair per path. */
  method StepsLoop(name: string, steps: seq<Value>, matches: Matcher) returns (r: Result<seq<(string, string)>, ScanError>)
    ensures r == StepsFiles(name, steps, matches)
  {
    var files: seq<(string, string)> := [];
    for k := 0 to |steps|
      invariant StepsFiles(name, steps[..k], matches) == Ok(files)
    {
      assert steps[..k + 1][..k] == steps[..k];
      var paths := LoadStepPaths(steps[k], matches);
      if paths.Err? {
        StepsFilesStops(name, steps, k + 1, matches);
        return Err(paths.error);
      }
      files := AppendPairs(files, name, paths.value);
    }
    assert steps[..|steps|] == steps;
    r := Ok(files);
  }

  /** extract_excel_files. */
  method ExtractExcelFiles(spec: Value, matches: Matcher) returns (r: Result<seq<(string, string)>, ScanError>)
    ensures r == ExcelFiles(spec, matches)
  {
    if !Truthy(spec) {
      return Ok([]);
    }
    if !spec.Obj? {
      return Err(WrongType);
    }
    var name := spec.entries[0].0;
    var data := spec.entries[0].1;
    var has := HasPipeline(data);
    if has.Err? {
      return Err(has.error);
    }
    if !has.value {
      return Ok([]);
    }
    if !data.Obj? {
      return Err(WrongType);
    }
    var steps := Items(Get(data, "pipeline", Arr([])));
    if steps.Err? {
      return Err(steps.error);
    }
    r := StepsLoop(name, steps.value, matches);
  }
}

/** What extract_excel_files promises about the pairs it returns. */
module ScanExtractFacts {
  import opened Wrappers
  import opened Text
  import opened Json
  import opened ScanExtract

  /** One entry expands to at least one path, each an S3 URL. */
  lemma ExpandFacts(p: Value, matches: Matcher)
    requires Expand(p, matches).Ok?
    ensures |Expand(p, matches).value| >= 1
    ensures forall i :: 0 <= i < |Expand(p, matches).value| ==> StartsWith(Expand(p, matches).value[i], "s3://")
  {
    var e := Expand(p, matches);
    var bp := BucketAndPath(p.s);
    forall i | 0 <= i < |e.value|
      ensures StartsWith(e.value[i], "s3://")
    {
      assert e.value[i] == "s3://" + (bp.value.0 + "/" + matches(bp.value.0, bp.value.1)[i]);
    }
  }

  /** The expansion finishes when and only when no entry raises. */
  lemma {:induction false} ExpandAllOk(ps: seq<Value>, matches: Matcher)
    ensures ExpandAll(ps, matches).Ok? <==> forall i :: 0 <= i < |ps| ==> Expand(ps[i], matches).Ok?
  {
    if ps != [] {
      var front := ps[..|ps| - 1];
      var last := ps[|ps| - 1];
      ExpandAllOk(front, matches);
      assert ExpandAll(ps, matches).Ok? <==> ExpandAll(front, matches).Ok? && Expand(last, matches).Ok?;
      if ExpandAll(ps, matches).Ok? {
        forall i | 0 <= i < |ps| ensures Expand(ps[i], matches).Ok? {
          if i < |front| {
            assert ps[i] == front[i];
          }
        }
      }
      if forall i :: 0 <= i < |ps| ==> Expand(ps[i], matches).Ok? {
        forall i | 0 <= i < |front| ensures Expand(front[i], matches).Ok? {
          assert front[i] == ps[i];
        }
      }
    }
  }

  /** A glob step expands when and only when every entry does, and every entry yields at least one S3 URL. */
  lemma {:induction false} ExpandAllFacts(ps: seq<Value>, matches: Matcher)
    ensures ExpandAll(ps, matches).Ok? <==> forall i :: 0 <= i < |ps| ==> Expand(ps[i], matches).Ok?
    ensures ExpandAll(ps, matches).Ok? ==>
      |ExpandAll(ps, matches).value| >= |ps|
      && forall i :: 0 <= i < |ExpandAll(ps, matches).value| ==> StartsWith(ExpandAll(ps, matches).value[i], "s3://")
  {
    if ps != [] {
      var front := ps[..|ps| - 1];
      ExpandAllFacts(front, matches);
      ExpandAllOk(ps, matches);
      var last := ps[|ps| - 1];
      if ExpandAll(front, matches).Ok? && Expand(last, matches).Ok? {
        ExpandFacts(last, matches);
        var a := ExpandAll(front, matches).value;
        var b := Expand(last, matches).value;
        assert ExpandAll(ps, matches).value == a + b;
        forall i | 0 <= i < |a + b| ensures StartsWith((a + b)[i], "s3://") {
          if i < |a| {
            assert (a + b)[i] == a[i];
          } else {
            assert (a + b)[i] == b[i - |a|];
          }
        }
      }
    }
  }

  /** The pairs of a list of steps exist when and only when no step raises, and all carry the pipeline name. */
  lemma {:induction false} StepsFilesFacts(name: string, steps: seq<Value>, matches: Matcher)
    ensures StepsFiles(name, steps, matches).Ok? <==> forall i :: 0 <= i < |steps| ==> StepPaths(steps[i], matches).Ok?
    ensures StepsFiles(name, steps, matches).Ok? ==>
      forall i :: 0 <= i < |StepsFiles(name, steps, matches).value| ==> StepsFiles(name, steps, matches).value[i].0 == name
  {
    if steps != [] {
      var front := steps[..|steps| - 1];
      StepsFilesFacts(name, front, matches);
      assert forall i :: 0 <= i < |front| ==> front[i] == steps[i];
    }
  }

  /** Only an xlsx load step contributes pairs. */
  lemma {:induction false} StepsFilesNeedLoad(name: string, steps: seq<Value>, matches: Matcher)
    requires StepsFiles(name, steps, matches).Ok? && StepsFiles(name, steps, matches).value != []
    ensures exists i :: 0 <= i < |steps| && XlsxLoad(steps[i])
  {
    var front := steps[..|steps| - 1];
    var last := steps[|steps| - 1];
    if XlsxLoad(last) {
      assert XlsxLoad(steps[|steps| - 1]);
    } else {
      assert StepPaths(last, matches) == Ok([]);
      StepsFilesNeedLoad(name, front, matches);
      var i :| 0 <= i < |front| && XlsxLoad(front[i]);
      assert steps[i] == front[i];
    }
  }

  /** A string that `strip()` returned neither starts nor ends with whitespace. */
  lemma {:induction false} StripClean(s: string)
    ensures var t := Strip(s); t == [] || (!IsSpace(t[0]) && !IsSpace(t[|t| - 1]))
  {
    StripStartClean(s);
    StripEndClean(StripStart(s));
  }

  lemma {:induction false} StripStartClean(s: string)
    ensures StripStart(s) == [] || !IsSpace(StripStart(s)[0])
    decreases |s|
  {
    if s != [] && IsSpace(s[0]) {
      StripStartClean(s[1..]);
    }
  }

  lemma {:induction false} StripEndClean(s: string)
    ensures StripEnd(s) <= s
    ensures StripEnd(s) == [] || !IsSpace(StripEnd(s)[|StripEnd(s)| - 1])
    decreases |s|
  {
    if s != [] && IsSpace(s[|s| - 1]) {
      StripEndClean(s[..|s| - 1]);
    }
  }

  /**
   * extract_excel_files: a falsy spec loads nothing; every pair carries the
   * spec's first key as pipeline name and a stripped path; and a pair only
   * comes from an xlsx load step of the pipeline.
   */
  lemma ExcelFilesFacts(spec: Value, matches: Matcher)
    ensures !Truthy(spec) ==> ExcelFiles(spec, matches) == Ok([])
    ensures ExcelFiles(spec, matches).Ok? && ExcelFiles(spec, matches).value != [] ==>
      spec.Obj? && |spec.entries| > 0
      && (forall i :: 0 <= i < |ExcelFiles(spec, matches).value| ==>
            ExcelFiles(spec, matches).value[i].0 == spec.entries[0].0)
      && var data := spec.entries[0].1;
         data.Obj? && Has(data, "pipeline")
         && var steps := Items(Get(data, "pipeline", Arr([])));
            steps.Ok? && exists i :: 0 <= i < |steps.value| && XlsxLoad(steps.value[i])
    ensures ExcelFiles(spec, matches).Ok? ==>
      forall i :: 0 <= i < |ExcelFiles(spec, matches).value| ==>
        var p := ExcelFiles(spec, matches).value[i].1;
        p == [] || (!IsSpace(p[0]) && !IsSpace(p[|p| - 1]))
  {
    var r := ExcelFiles(spec, matches);
    if r.Ok? && r.value != [] {
      var data := spec.entries[0].1;
      var steps := Items(Get(data, "pipeline", Arr([])));
      StepsFilesFacts(spec.entries[0].0, steps.value, matches);
      StepsFilesNeedLoad(spec.entries[0].0, steps.value, matches);
      forall i | 0 <= i < |r.value|
        ensures var p := r.value[i].1; p == [] || (!IsSpace(p[0]) && !IsSpace(p[|p| - 1]))
      {
        StepsFilesStripped(spec.entries[0].0, steps.value, matches, i);
      }
    }
  }

  /** Every path in the pairs of a list of steps is the `strip()` of some path. */
  lemma {:induction false} StepsFilesStripped(name: string, steps: seq<Value>, matches: Matcher, k: nat)
    requires StepsFiles(name, steps, matches).Ok? && k < |StepsFiles(name, steps, matches).value|
    ensures var p := StepsFiles(name, steps, matches).value[k].1; p == [] || (!IsSpace(p[0]) && !IsSpace(p[|p| - 1]))
  {
    var front := steps[..|steps| - 1];
    var f := StepsFiles(name, front, matches).value;
    if k < |f| {
      StepsFilesStripped(name, front, matches, k);
    } else {
      var paths := StepPaths(steps[|steps| - 1], matches).value;
      StripClean(paths[k - |f|]);
    }
  }
}
