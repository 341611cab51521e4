/**
 * The triage of the buggy laminar pipelines by submission
 * (conrad_scripts/laminar_floating_point_error/filter/script.py). Each
 * pipeline of the bug list is skipped, ignored as a repeat, or filed under
 * its author: once per submission id, in the bucket of datasets that use
 * its checked-in output, of submissions that do not, or of submissions
 * whose id was only inferred from the spreadsheet path; a pipeline with no
 * id at all goes to a fourth bucket.
 */
module LaminarFilter {
  import opened Wrappers
  import opened Text
  import opened Json

  /** Lists and dicts cannot be dict keys: `k in d` and `d[k] = v` raise TypeError on them. */
  predicate Hashable(v: Value) { !v.Arr? && !v.Obj? }

  /** Two specs whose path lost its version number; they are skipped. */
  const TypoSpecs: seq<Value> := [Str("879380//data/pipeline-spec.yaml"), Str("869011//data/pipeline-spec.yaml")]

  /**
   * The two `continue`s at the top of the loop: a dict record with a falsy
   * "is_buggy", or one whose spec is a typo spec. Every other record reads
   * "pipeline_spec" and raises without it.
   */
  predicate Skipped(record: Value)
  {
    record.Obj? &&
    ((Has(record, "is_buggy") && !Truthy(At(record, "is_buggy")))
     || (Has(record, "pipeline_spec") && At(record, "pipeline_spec") in TypoSpecs))
  }

  /** What the comparison of a repeated title reads from the first record of that title. */
  datatype Run = Run(orcid: Value, spec: Value, lastUpdated: Value)

  /** A repeated title is harmless when it names the same run of the same pipeline. */
  predicate SameRun(record: Value, first: Run)
  {
    At(record, "author_orcid") == first.orcid && At(record, "pipeline_spec") == first.spec
    && At(record, "last_updated") == first.lastUpdated
  }

  const SubmissionsBucket: string := "s3://bcodmo-submissions/"

  /** The path segment after the submissions bucket, "" when the file lies elsewhere. */
  function InferredId(excelFile: string): string
  {
    if StartsWith(excelFile, SubmissionsBucket) then TakeUntil(excelFile[|SubmissionsBucket|..], '/') else ""
  }

  /**
   * A record with a new title as the script has read it: the fields it
   * files, the ids it is placed under and whether they came with it. The
   * author's name is only read, and only used, for a new author.
   */
  datatype Pipeline = Pipeline(
    title: Value,
    spec: Value,
    orcid: Value,
    name: Value,
    lastUpdated: Value,
    ids: seq<Value>,
    attached: bool)

  function RunOf(p: Pipeline): Run { Run(p.orcid, p.spec, p.lastUpdated) }

  datatype Bucket = InDataset | NotInDataset | InferredNotInDataset | NoSubmissionId

  /** The fields the loop over submission ids writes into the pipeline's record. */
  datatype Detail = Detail(submissionId: Value, originallyAttached: bool, submissionState: Value, checkedIn: bool)

  /** The record filed in the buckets: the title and date, then the last submission's fields. */
  datatype Info = Info(pipelineTitle: Value, lastUpdated: Value, detail: Option<Detail>)

  datatype Placement = Placement(bucket: Bucket, detail: Detail)

  datatype Author = Author(
    orcid: Value,
    name: Value,
    inDataset: seq<Info>,
    notInDataset: seq<Info>,
    inferred: seq<Info>,
    noSubmissionId: seq<Info>)

  datatype FilterError =
    | BadInput  // the loaded file is not a dict with an iterable "all_results"
    | BadRecord(record: Value)  // the record is not a dict, lacks a key the loop indexes, or holds a value there the loop cannot use
    | Conflict(pipelineTitle: Value)  // a repeated title of another run: the script exits
    | NoSubmission(submissionId: Value)  // the API answered 400, and `None.get` raises
    | Malformed(submissionId: Value)  // a `.get` on something other than a dict, or a key or list the loops index is missing

  /** The submission API: the JSON reply for an id as the loop holds it, None for an HTTP 400. */
  type Fetch = Value -> Option<Value>

  /** `v.get("bcodmo:", {})`. */
  function Meta(v: Value): Value { Get(v, "bcodmo:", Obj([])) }

  /** `v or []`. */
  function OrEmpty(v: Value): Value { if Truthy(v) then v else Arr([]) }

  /**
   * What one resource adds to `checked_in`: its id when it is a laminar
   * resource of the pipeline whose check-in succeeded. None where the
   * script's `.get` or indexing raises.
   */
  function CheckedInId(resource: Value, title: Value): (r: Option<Option<Value>>)
    ensures !resource.Obj? || !Meta(resource).Obj? ==> r.None?
    ensures resource.Obj? && Meta(resource).Obj? && At(Meta(resource), "category") != Str("laminar") ==> r == Some(None)
    ensures r.Some? && r.value.Some? ==>
      At(Meta(resource), "category") == Str("laminar") && At(Meta(resource), "laminarTitle") == title
      && At(Get(Meta(resource), "checkIn", Obj([])), "Status") == Str("SUCCESS")
      && r.value.value == At(Meta(resource), "resourceId")
  {
    var m := Meta(resource);
    if !resource.Obj? || !m.Obj? then None
    else if At(m, "category") != Str("laminar") then Some(None)
    else if !Has(m, "laminarTitle") then None
    else if At(m, "laminarTitle") != title then Some(None)
    else
      var checkIn := Get(m, "checkIn", Obj([]));
      if !Truthy(checkIn) then Some(None)
      else if !Has(checkIn, "Status") then None
      else if At(checkIn, "Status") != Str("SUCCESS") then Some(None)
      else if !Has(m, "resourceId") then None
      else Some(Some(At(m, "resourceId")))
  }

  function Prefixed<T>(acc: seq<T>, rest: Option<seq<T>>): Option<seq<T>>
  {
    match rest
    case None => None
    case Some(xs) => Some(acc + xs)
  }

  /** The ids of the checked-in laminar resources of the pipeline, in resource order. */
  function CheckedIn(resources: seq<Value>, title: Value): Option<seq<Value>>
  {
    if resources == [] then Some([])
    else match CheckedInId(resources[0], title)
      case None => None
      case Some(id) => Prefixed(if id.Some? then [id.value] else [], CheckedIn(resources[1..], title))
  }

  /**
   * A dataset's file list under `key`, `[]` when absent or empty; None when
   * the dataset is not a dict or the list cannot be iterated.
   */
  function Files(dataset: Value, key: string): Option<seq<Value>>
  {
    if !dataset.Obj? then None else Elements(OrEmpty(Get(dataset, key, Arr([]))))
  }

  /** Whether the dataset lists one of the ids among its primary or supplemental files. */
  function Lists(dataset: Value, ids: seq<Value>): Option<bool>
  {
    match Files(dataset, "primaryDataFiles")
    case None => None
    case Some(primary) =>
      match Files(dataset, "supplementalFiles")
      case None => None
      case Some(supplemental) =>
        Some((exists i :: 0 <= i < |primary| && primary[i] in ids)
          || (exists i :: 0 <= i < |supplemental| && supplemental[i] in ids))
  }

  function Either(found: bool, rest: Option<bool>): Option<bool>
  {
    match rest
    case None => None
    case Some(b) => Some(found || b)
  }

  function InDatasets(datasets: seq<Value>, ids: seq<Value>): Option<bool>
  {
    if datasets == [] then Some(false)
    else match Lists(datasets[0], ids)
      case None => None
      case Some(found) => Either(found, InDatasets(datasets[1..], ids))
  }

  function BucketOf(found: bool, attached: bool): Bucket
  {
    if found then InDataset else if attached then NotInDataset else InferredNotInDataset
  }

  /** The bucket and the record fields for one submission id of a pipeline. */
  function Examine(id: Value, attached: bool, title: Value, fetch: Fetch): Result<Placement, FilterError>
  {
    match fetch(id)
    case None => Err(NoSubmission(id))
    case Some(reply) =>
      if !reply.Obj? then Err(Malformed(id)) else Place(Get(reply, "datapackage", Obj([])), id, attached, title)
  }

  /** The same for the submission datapackage the API returned. */
  function Place(submission: Value, id: Value, attached: bool, title: Value): (r: Result<Placement, FilterError>)
    ensures r.Err? ==> r.error == Malformed(id)
    ensures !submission.Obj? || !Meta(submission).Obj? || !Has(submission, "resources") ==> r.Err?
    ensures r.Ok? ==>
      r.value.bucket in {InDataset, if attached then NotInDataset else InferredNotInDataset}
      && r.value.detail.submissionId == id && r.value.detail.originallyAttached == attached
      && r.value.detail.submissionState == At(Meta(submission), "state")
  {
    var state := At(Meta(submission), "state");
    if !submission.Obj? || !Meta(submission).Obj? then Err(Malformed(id))
    else if !Has(submission, "resources") then Err(Malformed(id))
    else match Elements(At(submission, "resources"))
      case None => Err(Malformed(id))
      case Some(resources) =>
        match CheckedIn(resources, title)
        case None => Err(Malformed(id))
        case Some(checked) =>
          match Elements(Get(Meta(submission), "datasets", Arr([])))
          case None => Err(Malformed(id))
          case Some(datasets) =>
            match InDatasets(datasets, checked)
            case None => Err(Malformed(id))
            case Some(found) =>
              Ok(Placement(BucketOf(found, attached), Detail(id, attached, state, |checked| > 0)))
  }

  /** The handling of one submission id, with the submission API bound. */
  type Examiner = (Value, bool, Value) -> Result<Placement, FilterError>

  function ExamineWith(fetch: Fetch): Examiner
  {
    (id, attached, title) => Examine(id, attached, title, fetch)
  }

  function Then<T>(acc: seq<T>, rest: Result<seq<T>, FilterError>): Result<seq<T>, FilterError>
  {
    match rest
    case Err(e) => Err(e)
    case Ok(xs) => Ok(acc + xs)
  }

  lemma ThenAssoc<T>(acc: seq<T>, x: T, rest: Result<seq<T>, FilterError>)
    ensures Then(acc, Then([x], rest)) == Then(acc + [x], rest)
  {
    if rest.Ok? {
      assert acc + ([x] + rest.value) == (acc + [x]) + rest.value;
    }
  }

  function Placements(ids: seq<Value>, attached: bool, title: Value, examine: Examiner): Result<seq<Placement>, FilterError>
  {
    if ids == [] then Ok([])
    else match examine(ids[0], attached, title)
      case Err(e) => Err(e)
      case Ok(p) => Then([p], Placements(ids[1..], attached, title, examine))
  }

  function Buckets(ps: seq<Placement>): (r: seq<Bucket>)
    ensures |r| == |ps| && forall i :: 0 <= i < |ps| ==> r[i] == ps[i].bucket
  {
    seq(|ps|, i requires 0 <= i < |ps| => ps[i].bucket)
  }

  function Entries(a: Author, b: Bucket): seq<Info>
  {
    match b
    case InDataset => a.inDataset
    case NotInDataset => a.notInDataset
    case InferredNotInDataset => a.inferred
    case NoSubmissionId => a.noSubmissionId
  }

  /** `results[orcid][bucket].append(info)`. */
  function File(a: Author, b: Bucket, info: Info): Author
  {
    match b
    case InDataset => a.(inDataset := a.inDataset + [info])
    case NotInDataset => a.(notInDataset := a.notInDataset + [info])
    case InferredNotInDataset => a.(inferred := a.inferred + [info])
    case NoSubmissionId => a.(noSubmissionId := a.noSubmissionId + [info])
  }

  /**
   * Filing one record in several buckets. The script appends the same dict
   * each time and keeps writing into it, so every bucket ends up holding its
   * final contents.
   */
  function FileAll(a: Author, bs: seq<Bucket>, info: Info): Author
  {
    if bs == [] then a else File(FileAll(a, bs[..|bs| - 1], info), bs[|bs| - 1], info)
  }

  /** The position of the author in `results`, which keeps insertion order. */
  function AuthorIndex(authors: seq<Author>, orcid: Value): (r: Option<nat>)
    ensures r.Some? ==> r.value < |authors| && authors[r.value].orcid == orcid
    ensures r.Some? ==> forall i :: 0 <= i < r.value ==> authors[i].orcid != orcid
    ensures r.None? ==> forall i :: 0 <= i < |authors| ==> authors[i].orcid != orcid
  {
    if authors == [] then None
    else if authors[0].orcid == orcid then Some(0)
    else match AuthorIndex(authors[1..], orcid)
      case None => None
      case Some(i) => Some(i + 1)
  }

  /** The state the loop over pipelines carries: the authors, the first record of each title, the duplicate count. */
  datatype Tally = Tally(authors: seq<Author>, seen: map<Value, Run>, duplicates: nat)

  const Start: Tally := Tally([], map[], 0)

  /** The record filed for a pipeline once its submission ids are placed. */
  function InfoOf(p: Pipeline, ps: seq<Placement>): Info
  {
    Info(p.title, p.lastUpdated, if ps == [] then None else Some(ps[|ps| - 1].detail))
  }

  /**
   * The reads a record with a new title goes through, in the order of the
   * loop: "submission_ids", "original_prefix" and "author_orcid" must be
   * there and the orcid usable as a key; a new author needs
   * "author_name"; then "last_updated"; the ids must have a length, and
   * when there are none "excel_file" must be a string, whose inferred id
   * is then the one id. BadRecord where one of these raises.
   */
  function Read(authors: seq<Author>, record: Value): (r: Result<Pipeline, FilterError>)
    ensures r.Err? ==> r.error == BadRecord(record)
    ensures r.Ok? <==>
      Has(record, "submission_ids") && Has(record, "original_prefix") && Has(record, "author_orcid")
      && Hashable(At(record, "author_orcid"))
      && (AuthorIndex(authors, At(record, "author_orcid")).None? ==> Has(record, "author_name"))
      && Has(record, "last_updated") && Elements(At(record, "submission_ids")).Some?
      && (Elements(At(record, "submission_ids")).value == [] ==> At(record, "excel_file").Str?)
    ensures r.Ok? ==>
      r.value.title == At(record, "pipeline_title") && r.value.spec == At(record, "pipeline_spec")
      && r.value.orcid == At(record, "author_orcid") && r.value.name == At(record, "author_name")
      && r.value.lastUpdated == At(record, "last_updated")
      && (r.value.attached <==> Elements(At(record, "submission_ids")).value != [])
      && (r.value.attached ==> r.value.ids == Elements(At(record, "submission_ids")).value)
      && (!r.value.attached ==>
        |r.value.ids| <= 1
        && (r.value.ids != [] <==> InferredId(At(record, "excel_file").s) != "")
        && forall id :: id in r.value.ids ==> id == Str(InferredId(At(record, "excel_file").s)))
  {
    var orcid := At(record, "author_orcid");
    if !Has(record, "submission_ids") || !Has(record, "original_prefix") || !Has(record, "author_orcid") || !Hashable(orcid) then
      Err(BadRecord(record))
    else if AuthorIndex(authors, orcid).None? && !Has(record, "author_name") then Err(BadRecord(record))
    else if !Has(record, "last_updated") then Err(BadRecord(record))
    else match Elements(At(record, "submission_ids"))
      case None => Err(BadRecord(record))
      case Some(listed) =>
        var excelFile := At(record, "excel_file");
        if listed == [] && !excelFile.Str? then Err(BadRecord(record))
        else
          var ids := if listed != [] then listed
            else if InferredId(excelFile.s) != "" then [Str(InferredId(excelFile.s))] else [];
          Ok(Pipeline(At(record, "pipeline_title"), At(record, "pipeline_spec"), orcid, At(record, "author_name"),
            At(record, "last_updated"), ids, listed != []))
  }

  /** A repeated title: the comparison with its first record reads the orcid, then the spec, then the date. */
  function Repeat(t: Tally, record: Value, first: Run): Result<Tally, FilterError>
  {
    var title := At(record, "pipeline_title");
    if !Has(record, "author_orcid") then Err(BadRecord(record))
    else if At(record, "author_orcid") != first.orcid || At(record, "pipeline_spec") != first.spec then Err(Conflict(title))
    else if !Has(record, "last_updated") then Err(BadRecord(record))
    else if At(record, "last_updated") != first.lastUpdated then Err(Conflict(title))
    else Ok(t.(duplicates := t.duplicates + 1))
  }

  /** One turn of the loop over `all_results`. */
  function Step(t: Tally, record: Value, examine: Examiner): Result<Tally, FilterError>
  {
    if Skipped(record) then Ok(t)
    else if !Has(record, "pipeline_spec") || !Has(record, "pipeline_title") || !Hashable(At(record, "pipeline_title")) then
      Err(BadRecord(record))
    else if At(record, "pipeline_title") in t.seen then Repeat(t, record, t.seen[At(record, "pipeline_title")])
    else match Read(t.authors, record)
      case Err(e) => Err(e)
      case Ok(p) =>
        match Placements(p.ids, p.attached, p.title, examine)
        case Err(e) => Err(e)
        case Ok(ps) => Ok(Filed(t, p, ps))
  }

  /**
   * A new pipeline filed under its author (added at the end when new):
   * once per placement, or once under no_submission_id when it has no id.
   */
  function Filed(t: Tally, p: Pipeline, ps: seq<Placement>): Tally
  {
    var authors := if AuthorIndex(t.authors, p.orcid).Some? then t.authors
      else t.authors + [Author(p.orcid, p.name, [], [], [], [])];
    var i := if AuthorIndex(t.authors, p.orcid).Some? then AuthorIndex(t.authors, p.orcid).value
      else |t.authors|;
    var buckets := (if p.ids == [] then [NoSubmissionId] else []) + Buckets(ps);
    Tally(authors[i := FileAll(authors[i], buckets, InfoOf(p, ps))], t.seen[p.title := RunOf(p)], t.duplicates)
  }

  function Filter(records: seq<Value>, t: Tally, examine: Examiner): Result<Tally, FilterError>
  {
    if records == [] then Ok(t)
    else match Step(t, records[0], examine)
      case Err(e) => Err(e)
      case Ok(t') => Filter(records[1..], t', examine)
  }

  /** The number of records in one bucket, summed over the authors. */
  function Total(authors: seq<Author>, b: Bucket): nat
  {
    if authors == [] then 0 else Total(authors[..|authors| - 1], b) + |Entries(authors[|authors| - 1], b)|
  }

  /** What the script saves and logs. */
  datatype Report = Report(
    results: seq<Author>,
    inDatasetCount: nat,
    notInDatasetCount: nat,
    inferredCount: nat,
    noSubmissionCount: nat,
    duplicateCount: nat)

  function Summarize(t: Tally): Report
  {
    Report(t.authors, Total(t.authors, InDataset), Total(t.authors, NotInDataset),
      Total(t.authors, InferredNotInDataset), Total(t.authors, NoSubmissionId), t.duplicates)
  }

  /** The script on the loaded bug list: the loop runs over `js["all_results"]`. */
  function Triage(js: Value, fetch: Fetch): Result<Report, FilterError>
  {
    if !Has(js, "all_results") || Elements(At(js, "all_results")).None? then Err(BadInput)
    else match Filter(Elements(At(js, "all_results")).value, Start, ExamineWith(fetch))
      case Err(e) => Err(e)
      case Ok(t) => Ok(Summarize(t))
  }

  /** One turn of the resource loop: the resource at `k` either raises or adds its id, if any, to `checked`. */
  lemma CheckedInStep(checked: seq<Value>, resources: seq<Value>, k: nat, title: Value)
    requires k < |resources|
    ensures CheckedInId(resources[k], title).None? ==> CheckedIn(resources[k..], title).None?
    ensures CheckedInId(resources[k], title).Some? ==>
      var id := CheckedInId(resources[k], title).value;
      Prefixed(checked, CheckedIn(resources[k..], title))
        == Prefixed(checked + (if id.Some? then [id.value] else []), CheckedIn(resources[k + 1..], title))
  {
    assert resources[k..][0] == resources[k];
    assert resources[k..][1..] == resources[k + 1..];
    match CheckedInId(resources[k], title) {
      case None =>
      case Some(id) =>
        var found := if id.Some? then [id.value] else [];
        match CheckedIn(resources[k + 1..], title) {
          case None =>
          case Some(rest) => assert checked + (found + rest) == (checked + found) + rest;
        }
    }
  }

  /** The loop over a submission's resources that fills `checked_in`. */
  method CollectCheckedIn(resources: seq<Value>, title: Value) returns (r: Option<seq<Value>>)
    ensures r == CheckedIn(resources, title)
  {
    var checked: seq<Value> := [];
    var k := 0;
    assert resources[0..] == resources;
    match CheckedIn(resources, title) {
      case None =>
      case Some(all) => assert [] + all == all;
    }
    while k < |resources|
      invariant k <= |resources|
      invariant CheckedIn(resources, title) == Prefixed(checked, CheckedIn(resources[k..], title))
    {
      CheckedInStep(checked, resources, k, title);
      var id := CheckedInId(resources[k], title);
      if id.None? {
        return None;
      }
      if id.value.Some? {
        checked := checked + [id.value.value];
      } else {
        assert checked + [] == checked;
      }
      k := k + 1;
    }
    assert checked + [] == checked;
    return Some(checked);
  }

  /** The loop over a dataset's primary data files. */
  method ScanPrimary(primary: seq<Value>, ids: seq<Value>) returns (found: bool)
    ensures found == exists i :: 0 <= i < |primary| && primary[i] in ids
  {
    found := false;
    for j := 0 to |primary|
      invariant found == exists i :: 0 <= i < j && primary[i] in ids
    {
      if primary[j] in ids {
        found := true;
      }
    }
  }

  /** The loop over a dataset's supplemental files, which stops at the first listed id. */
  method ScanSupplemental(supplemental: seq<Value>, ids: seq<Value>) returns (listed: bool)
    ensures listed == exists x :: x in supplemental && x in ids
  {
    listed := false;
    var j := 0;
    while j < |supplemental|
      invariant j <= |supplemental|
      invariant !listed ==> forall x :: x in supplemental[..j] ==> x !in ids
      invariant listed ==> exists x :: x in supplemental && x in ids
    {
      if supplemental[j] in ids {
        listed := true;
        break;
      }
      assert supplemental[..j + 1] == supplemental[..j] + [supplemental[j]];
      j := j + 1;
    }
    assert !listed ==> supplemental[..j] == supplemental;
  }

  /** The loops over the datasets and their file lists that set `in_dataset`. */
  method SearchDatasets(datasets: seq<Value>, ids: seq<Value>) returns (r: Option<bool>)
    ensures r == InDatasets(datasets, ids)
  {
    var inDataset := false;
    var k := 0;
    while k < |datasets|
      invariant k <= |datasets|
      invariant InDatasets(datasets, ids) == Either(inDataset, InDatasets(datasets[k..], ids))
    {
      assert datasets[k..][1..] == datasets[k + 1..];
      var files := Files(datasets[k], "primaryDataFiles");
      if files.None? {
        return None;
      }
      var found := ScanPrimary(files.value, ids);
      files := Files(datasets[k], "supplementalFiles");
      if files.None? {
        return None;
      }
      var listed := ScanSupplemental(files.value, ids);
      inDataset := inDataset || found || listed;
      k := k + 1;
    }
    return Some(inDataset);
  }

  /** The body of the loop over submission ids for one id. */
  method ExamineSubmission(id: Value, attached: bool, title: Value, fetch: Fetch) returns (r: Result<Placement, FilterError>)
    ensures r == Examine(id, attached, title, fetch)
  {
    var reply := fetch(id);
    if reply.None? {
      return Err(NoSubmission(id));
    }
    if !reply.value.Obj? {
      return Err(Malformed(id));
    }
    var submission := Get(reply.value, "datapackage", Obj([]));
    if !submission.Obj? || !Meta(submission).Obj? {
      return Err(Malformed(id));
    }
    var state := At(Meta(submission), "state");
    if !Has(submission, "resources") {
      return Err(Malformed(id));
    }
    var resources := Elements(At(submission, "resources"));
    if resources.None? {
      return Err(Malformed(id));
    }
    var checked := CollectCheckedIn(resources.value, title);
    if checked.None? {
      return Err(Malformed(id));
    }
    var datasets := Elements(Get(Meta(submission), "datasets", Arr([])));
    if datasets.None? {
      return Err(Malformed(id));
    }
    var found := SearchDatasets(datasets.value, checked.value);
    if found.None? {
      return Err(Malformed(id));
    }
    return Ok(Placement(BucketOf(found.value, attached), Detail(id, attached, state, |checked.value| > 0)));
  }

  /** The loop over a pipeline's submission ids. */
  method PlaceIds(ids: seq<Value>, attached: bool, title: Value, fetch: Fetch) returns (r: Result<seq<Placement>, FilterError>)
    ensures r == Placements(ids, attached, title, ExamineWith(fetch))
  {
    var placed: seq<Placement> := [];
    var k := 0;
    assert ids[0..] == ids;
    match Placements(ids, attached, title, ExamineWith(fetch)) {
      case Err(_) =>
      case Ok(all) => assert [] + all == all;
    }
    while k < |ids|
      invariant k <= |ids|
      invariant Placements(ids, attached, title, ExamineWith(fetch)) == Then(placed, Placements(ids[k..], attached, title, ExamineWith(fetch)))
    {
      assert ids[k..][1..] == ids[k + 1..];
      var p := ExamineSubmission(ids[k], attached, title, fetch);
      if p.Err? {
        return Err(p.error);
      }
      ThenAssoc(placed, p.value, Placements(ids[k + 1..], attached, title, ExamineWith(fetch)));
      placed := placed + [p.value];
      k := k + 1;
    }
    assert placed + [] == placed;
    return Ok(placed);
  }

  /** The body of the loop over `all_results` for one record. */
  method TriagePipeline(t: Tally, record: Value, fetch: Fetch) returns (r: Result<Tally, FilterError>)
    ensures r == Step(t, record, ExamineWith(fetch))
  {
    if Skipped(record) {
      return Ok(t);
    }
    if !Has(record, "pipeline_spec") || !Has(record, "pipeline_title") || !Hashable(At(record, "pipeline_title")) {
      return Err(BadRecord(record));
    }
    var title := At(record, "pipeline_title");
    if title in t.seen {
      var first := t.seen[title];
      if !Has(record, "author_orcid") {
        return Err(BadRecord(record));
      }
      if At(record, "author_orcid") != first.orcid || At(record, "pipeline_spec") != first.spec {
        return Err(Conflict(title));
      }
      if !Has(record, "last_updated") {
        return Err(BadRecord(record));
      }
      if At(record, "last_updated") != first.lastUpdated {
        return Err(Conflict(title));
      }
      return Ok(t.(duplicates := t.duplicates + 1));
    }
    var read := Read(t.authors, record);
    if read.Err? {
      return Err(read.error);
    }
    var p := read.value;
    var placed := PlaceIds(p.ids, p.attached, p.title, fetch);
    if placed.Err? {
      return Err(placed.error);
    }
    var authors := t.authors;
    var i := |authors|;
    match AuthorIndex(authors, p.orcid) {
      case Some(j) => i := j;
      case None => authors := authors + [Author(p.orcid, p.name, [], [], [], [])];
    }
    var buckets := (if p.ids == [] then [NoSubmissionId] else []) + Buckets(placed.value);
    var info := InfoOf(p, placed.value);
    authors := authors[i := FileAll(authors[i], buckets, info)];
    return Ok(Tally(authors, t.seen[title := RunOf(p)], t.duplicates));
  }

  /** The closing loop over `results` that adds up the four bucket sizes. */
  method CountBuckets(authors: seq<Author>) returns (count: nat, count2: nat, count3: nat, count4: nat)
    ensures count == Total(authors, InDataset) && count2 == Total(authors, NotInDataset)
    ensures count3 == Total(authors, InferredNotInDataset) && count4 == Total(authors, NoSubmissionId)
  {
    count, count2, count3, count4 := 0, 0, 0, 0;
    for k := 0 to |authors|
      invariant count == Total(authors[..k], InDataset) && count2 == Total(authors[..k], NotInDataset)
      invariant count3 == Total(authors[..k], InferredNotInDataset) && count4 == Total(authors[..k], NoSubmissionId)
    {
      assert authors[..k + 1][..k] == authors[..k];
      count := count + |authors[k].inDataset|;
      count2 := count2 + |authors[k].notInDataset|;
      count3 := count3 + |authors[k].inferred|;
      count4 := count4 + |authors[k].noSubmissionId|;
    }
    assert authors[..|authors|] == authors;
  }

  /** The whole script after the bug list is loaded. */
  method TriageBuggyPipelines(js: Value, fetch: Fetch) returns (r: Result<Report, FilterError>)
    ensures r == Triage(js, fetch)
  {
    if !Has(js, "all_results") {
      return Err(BadInput);
    }
    var all := Elements(At(js, "all_results"));
    if all.None? {
      return Err(BadInput);
    }
    var records := all.value;
    var t := Start;
    var k := 0;
    while k < |records|
      invariant k <= |records|
      invariant Filter(records, Start, ExamineWith(fetch)) == Filter(records[k..], t, ExamineWith(fetch))
    {
      assert records[k..][1..] == records[k + 1..];
      var next := TriagePipeline(t, records[k], fetch);
      if next.Err? {
        return Err(next.error);
      }
      t := next.value;
      k := k + 1;
    }
    var count, count2, count3, count4 := CountBuckets(t.authors);
    return Ok(Report(t.authors, count, count2, count3, count4, t.duplicates));
  }
}

/** What the triage promises, proved about its specification. */
module LaminarFilterFacts {
  import opened Wrappers
  import opened Text
  import opened Json
  import opened LaminarFilter

  /** A record leaves the state exactly as it was iff it is skipped. */
  lemma SkipIff(t: Tally, record: Value, examine: Examiner)
    ensures Step(t, record, examine) == Ok(t) <==> Skipped(record)
  {
    if !Skipped(record) && Step(t, record, examine).Ok? && At(record, "pipeline_title") !in t.seen {
      assert At(record, "pipeline_title") in Step(t, record, examine).value.seen;
    }
  }

  /**
   * A title seen before files nothing: the same run only adds to the
   * duplicate count; another run stops the script on the conflict, and a
   * record without the orcid or the date it is compared on raises.
   */
  lemma RepeatFacts(t: Tally, record: Value, examine: Examiner)
    requires !Skipped(record) && Has(record, "pipeline_spec") && Has(record, "pipeline_title")
    requires Hashable(At(record, "pipeline_title")) && At(record, "pipeline_title") in t.seen
    ensures var r := Step(t, record, examine);
      var first := t.seen[At(record, "pipeline_title")];
      (r.Ok? <==> Has(record, "author_orcid") && Has(record, "last_updated") && SameRun(record, first))
      && (r.Ok? ==> r.value.authors == t.authors && r.value.seen == t.seen && r.value.duplicates == t.duplicates + 1)
      && (r.Err? && Has(record, "author_orcid") && Has(record, "last_updated") ==> r.error == Conflict(At(record, "pipeline_title")))
      && (!Has(record, "author_orcid") ==> r == Err(BadRecord(record)))
  {
  }

  /** The first record of each title is kept for the comparison, and every processed title is recorded. */
  lemma SeenKept(t: Tally, record: Value, examine: Examiner)
    requires Step(t, record, examine).Ok?
    ensures var t' := Step(t, record, examine).value;
      (forall title :: title in t.seen ==> title in t'.seen && t'.seen[title] == t.seen[title])
      && (!Skipped(record) ==> At(record, "pipeline_title") in t'.seen)
  {
  }

  lemma {:induction false} FilterSeenKept(records: seq<Value>, t: Tally, examine: Examiner)
    requires Filter(records, t, examine).Ok?
    ensures var t' := Filter(records, t, examine).value;
      (forall title :: title in t.seen ==> title in t'.seen && t'.seen[title] == t.seen[title])
      && (forall i :: 0 <= i < |records| && !Skipped(records[i]) ==> At(records[i], "pipeline_title") in t'.seen)
  {
    if records != [] {
      SeenKept(t, records[0], examine);
      var t1 := Step(t, records[0], examine).value;
      FilterSeenKept(records[1..], t1, examine);
      forall i | 0 <= i < |records| && !Skipped(records[i])
        ensures At(records[i], "pipeline_title") in Filter(records, t, examine).value.seen
      {
        if i > 0 {
          assert records[i] == records[1..][i - 1];
        }
      }
    }
  }

  /**
   * A record that is not skipped and has no "pipeline_spec" stops the
   * script with a KeyError, as does any record that is not a dict.
   */
  lemma MissingSpecRaises(t: Tally, record: Value, examine: Examiner)
    requires !Has(record, "pipeline_spec") && !(Has(record, "is_buggy") && !Truthy(At(record, "is_buggy")))
    ensures Step(t, record, examine) == Err(BadRecord(record))
  {
  }

  /**
   * The record process.py writes for a pipeline it skipped on shutdown or
   * whose worker thread raised: a name, a status and one error, with no
   * author and no submission ids, and neither "is_buggy" nor
   * "pipeline_spec".
   */
  function StatusRecord(name: Value, status: string, error: string): Value
  {
    Obj([("pipeline_name", name), ("status", Str(status)), ("errors", Arr([Str(error)])),
      ("author_name", Null), ("author_orcid", Null), ("submission_ids", Arr([]))])
  }

  /** Such a record stops the triage where it is read. */
  lemma StatusRecordRaises(t: Tally, name: Value, status: string, error: string, examine: Examiner)
    ensures Step(t, StatusRecord(name, status, error), examine) == Err(BadRecord(StatusRecord(name, status, error)))
  {
    var record := StatusRecord(name, status, error);
    LookupAbsent(record.entries, "is_buggy");
    LookupAbsent(record.entries, "pipeline_spec");
    MissingSpecRaises(t, record, examine);
  }

  /**
   * A new title without submission ids whose "excel_file" is missing or
   * is not a string (null in the records of a failed run) raises at
   * `.startswith`.
   */
  lemma ExcelFileNotStringRaises(t: Tally, record: Value, examine: Examiner)
    requires !Skipped(record) && At(record, "pipeline_title") !in t.seen
    requires At(record, "submission_ids") == Arr([]) && !At(record, "excel_file").Str?
    ensures Step(t, record, examine) == Err(BadRecord(record))
  {
    if Has(record, "pipeline_spec") && Has(record, "pipeline_title") && Hashable(At(record, "pipeline_title")) {
      assert Read(t.authors, record).Err?;
    }
  }

  lemma {:induction false} LookupAbsent(e: seq<(string, Value)>, k: string)
    requires forall i :: 0 <= i < |e| ==> e[i].0 != k
    ensures Lookup(e, k).None?
  {
    if e != [] {
      LookupAbsent(e[1..], k);
    }
  }

  /** The first record the loop stops on decides the outcome of the whole loop. */
  lemma {:induction false} FilterStops(records: seq<Value>, i: nat, t: Tally, examine: Examiner)
    requires i < |records| && Filter(records[..i], t, examine).Ok?
    requires Step(Filter(records[..i], t, examine).value, records[i], examine).Err?
    ensures Filter(records, t, examine) == Step(Filter(records[..i], t, examine).value, records[i], examine)
  {
    if i > 0 {
      assert records[..i][1..] == records[1..][..i - 1];
      assert records[..i][0] == records[0];
      FilterStops(records[1..], i - 1, Step(t, records[0], examine).value, examine);
    }
  }

  /**
   * Every `all_results` that holds the record of a skipped or failed
   * pipeline makes the triage raise: on that record, or on an earlier one.
   */
  lemma {:induction false} StatusRecordFails(records: seq<Value>, i: nat, name: Value, status: string, error: string, t: Tally, examine: Examiner)
    requires i < |records| && records[i] == StatusRecord(name, status, error)
    ensures Filter(records, t, examine).Err?
  {
    if i == 0 {
      StatusRecordRaises(t, name, status, error, examine);
    } else if Step(t, records[0], examine).Ok? {
      StatusRecordFails(records[1..], i - 1, name, status, error, Step(t, records[0], examine).value, examine);
    }
  }

  /**
   * The inferred id is the segment right after the submissions bucket: it
   * holds no "/", and a "/" or the end of the path follows it.
   */
  lemma InferredIdFacts(excelFile: string)
    ensures '/' !in InferredId(excelFile)
    ensures !StartsWith(excelFile, SubmissionsBucket) ==> InferredId(excelFile) == ""
    ensures StartsWith(excelFile, SubmissionsBucket) ==>
      var n := |SubmissionsBucket + InferredId(excelFile)|;
      SubmissionsBucket + InferredId(excelFile) <= excelFile && (n < |excelFile| ==> excelFile[n] == '/')
  {
    if StartsWith(excelFile, SubmissionsBucket) {
      var rest := excelFile[|SubmissionsBucket|..];
      assert excelFile == SubmissionsBucket + rest;
    }
  }

  /** Any segment without "/" is found again in the path it starts. */
  lemma InferredIdOf(id: string, rest: string)
    requires '/' !in id && (rest == [] || rest[0] == '/')
    ensures InferredId(SubmissionsBucket + id + rest) == id
  {
    var e := SubmissionsBucket + id + rest;
    assert e[|SubmissionsBucket|..] == id + rest;
    TakeUntilOf(id, rest, '/');
  }

  /** The checked-in ids are exactly the ids of the qualifying resources, and the loop fails iff one resource raises. */
  lemma {:induction false} CheckedInFacts(resources: seq<Value>, title: Value)
    ensures CheckedIn(resources, title).None? <==>
      exists i :: 0 <= i < |resources| && CheckedInId(resources[i], title).None?
    ensures CheckedIn(resources, title).Some? ==> forall x ::
      x in CheckedIn(resources, title).value <==>
      exists i :: 0 <= i < |resources| && CheckedInId(resources[i], title) == Some(Some(x))
  {
    if resources != [] {
      CheckedInFacts(resources[1..], title);
      forall i | 0 < i < |resources| ensures resources[i] == resources[1..][i - 1] { }
      if CheckedIn(resources, title).Some? {
        forall x | exists i :: 0 <= i < |resources| && CheckedInId(resources[i], title) == Some(Some(x))
          ensures x in CheckedIn(resources, title).value
        {
          var i :| 0 <= i < |resources| && CheckedInId(resources[i], title) == Some(Some(x));
          if i > 0 {
            assert CheckedInId(resources[1..][i - 1], title) == Some(Some(x));
          }
        }
      }
      if CheckedIn(resources, title).None? && CheckedInId(resources[0], title).Some? {
        var i :| 0 <= i < |resources[1..]| && CheckedInId(resources[1..][i], title).None?;
        assert resources[1..][i] == resources[i + 1];
      }
    }
  }

  /** A file of some dataset is among the ids iff the loops set `in_dataset`; they fail iff a file list cannot be iterated. */
  lemma {:induction false} InDatasetsFacts(datasets: seq<Value>, ids: seq<Value>)
    ensures InDatasets(datasets, ids).None? <==> exists i :: 0 <= i < |datasets| && Lists(datasets[i], ids).None?
    ensures InDatasets(datasets, ids).Some? ==>
      (InDatasets(datasets, ids).value <==> exists i :: 0 <= i < |datasets| && Lists(datasets[i], ids) == Some(true))
  {
    if datasets != [] {
      InDatasetsFacts(datasets[1..], ids);
      forall i | 0 < i < |datasets| ensures datasets[i] == datasets[1..][i - 1] { }
      if InDatasets(datasets, ids).Some? && !Lists(datasets[0], ids).value {
        if exists i :: 0 <= i < |datasets| && Lists(datasets[i], ids) == Some(true) {
          var i :| 0 <= i < |datasets| && Lists(datasets[i], ids) == Some(true);
          assert Lists(datasets[1..][i - 1], ids) == Some(true);
        }
      }
      if InDatasets(datasets, ids).None? && Lists(datasets[0], ids).Some? {
        var i :| 0 <= i < |datasets[1..]| && Lists(datasets[1..][i], ids).None?;
        assert datasets[1..][i] == datasets[i + 1];
      }
    }
  }

  /** The author a pipeline is filed under, as it was before the pipeline. */
  function Before(t: Tally, p: Pipeline): Author
  {
    match AuthorIndex(t.authors, p.orcid)
    case Some(i) => t.authors[i]
    case None => Author(p.orcid, p.name, [], [], [], [])
  }

  lemma {:induction false} AuthorIndexFirst(authors: seq<Author>, orcid: Value, i: nat)
    requires i < |authors| && authors[i].orcid == orcid
    requires forall j :: 0 <= j < i ==> authors[j].orcid != orcid
    ensures AuthorIndex(authors, orcid) == Some(i)
  {
    if i > 0 {
      AuthorIndexFirst(authors[1..], orcid, i - 1);
    }
  }

  /** What holds of every placement the script makes for one id. */
  ghost predicate Faithful(examine: Examiner)
  {
    forall id, attached, title :: examine(id, attached, title).Ok? ==>
      var placed := examine(id, attached, title).value;
      placed.detail.submissionId == id && placed.detail.originallyAttached == attached
      && placed.bucket != NoSubmissionId
  }

  lemma ExamineFaithful(fetch: Fetch)
    ensures Faithful(ExamineWith(fetch))
  {
    forall id, attached, title | ExamineWith(fetch)(id, attached, title).Ok?
      ensures var placed := ExamineWith(fetch)(id, attached, title).value;
        placed.detail.submissionId == id && placed.detail.originallyAttached == attached
        && placed.bucket != NoSubmissionId
    {
      assert ExamineWith(fetch)(id, attached, title) == Examine(id, attached, title, fetch);
    }
  }

  /** The ids place the pipeline in one of three buckets each, in id order; one failing id fails them all. */
  lemma {:induction false} PlacementsFacts(ids: seq<Value>, attached: bool, title: Value, examine: Examiner)
    requires Faithful(examine)
    ensures Placements(ids, attached, title, examine).Err? <==>
      exists i :: 0 <= i < |ids| && examine(ids[i], attached, title).Err?
    ensures Placements(ids, attached, title, examine).Ok? ==>
      var ps := Placements(ids, attached, title, examine).value;
      |ps| == |ids| && forall i :: 0 <= i < |ps| ==>
        ps[i] == examine(ids[i], attached, title).value
        && ps[i].detail.submissionId == ids[i] && ps[i].detail.originallyAttached == attached
        && ps[i].bucket != NoSubmissionId
  {
    if ids != [] {
      PlacementsFacts(ids[1..], attached, title, examine);
      forall i | 0 < i < |ids| ensures ids[i] == ids[1..][i - 1] { }
      if Placements(ids, attached, title, examine).Err? && examine(ids[0], attached, title).Ok? {
        var i :| 0 <= i < |ids[1..]| && examine(ids[1..][i], attached, title).Err?;
        assert ids[1..][i] == ids[i + 1];
      }
    }
  }

  /** Some checked-in laminar resource of the pipeline is listed by some dataset. */
  ghost predicate Used(resources: seq<Value>, datasets: seq<Value>, title: Value)
  {
    exists i, j, x :: 0 <= i < |resources| && 0 <= j < |datasets|
      && CheckedInId(resources[i], title) == Some(Some(x)) && Listed(datasets[j], x)
  }

  /**
   * A placement is in the dataset bucket iff one of the submission's
   * checked-in laminar resources of the pipeline is listed among some
   * dataset's primary or supplemental files; otherwise it goes to the
   * bucket of its id's origin.
   */
  lemma PlaceFacts(submission: Value, id: Value, attached: bool, title: Value)
    requires Place(submission, id, attached, title).Ok?
    ensures var resources := Elements(At(submission, "resources")).value;
      var datasets := Elements(Get(Meta(submission), "datasets", Arr([]))).value;
      var placed := Place(submission, id, attached, title).value;
      (placed.bucket == InDataset <==> Used(resources, datasets, title))
      && (placed.bucket == NotInDataset <==> !Used(resources, datasets, title) && attached)
      && (placed.bucket == InferredNotInDataset <==> !Used(resources, datasets, title) && !attached)
  {
    var resources := Elements(At(submission, "resources")).value;
    var datasets := Elements(Get(Meta(submission), "datasets", Arr([]))).value;
    var checked := CheckedIn(resources, title).value;
    var found := InDatasets(datasets, checked).value;
    assert Place(submission, id, attached, title).value.bucket == BucketOf(found, attached);
    FoundIffUsed(resources, datasets, title);
  }

  /** The loops' verdict on the checked-in ids is the existence of a used resource. */
  lemma FoundIffUsed(resources: seq<Value>, datasets: seq<Value>, title: Value)
    requires CheckedIn(resources, title).Some? && InDatasets(datasets, CheckedIn(resources, title).value).Some?
    ensures InDatasets(datasets, CheckedIn(resources, title).value).value <==> Used(resources, datasets, title)
  {
    var checked := CheckedIn(resources, title).value;
    CheckedInFacts(resources, title);
    InDatasetsFacts(datasets, checked);
    if InDatasets(datasets, checked).value {
      var j :| 0 <= j < |datasets| && Lists(datasets[j], checked) == Some(true);
      ListsFacts(datasets[j], checked);
      var x :| x in checked && Listed(datasets[j], x);
      var i :| 0 <= i < |resources| && CheckedInId(resources[i], title) == Some(Some(x));
      assert Used(resources, datasets, title);
    }
    if Used(resources, datasets, title) {
      var i, j, x :| 0 <= i < |resources| && 0 <= j < |datasets| && CheckedInId(resources[i], title) == Some(Some(x))
        && Listed(datasets[j], x);
      assert x in checked;
      ListsFacts(datasets[j], checked);
    }
  }

  lemma ListsFacts(dataset: Value, ids: seq<Value>)
    requires Lists(dataset, ids).Some?
    ensures Lists(dataset, ids).value <==> exists x :: x in ids && Listed(dataset, x)
  {
    if Lists(dataset, ids).value {
      var primary := Files(dataset, "primaryDataFiles").value;
      var supplemental := Files(dataset, "supplementalFiles").value;
      if exists i :: 0 <= i < |primary| && primary[i] in ids {
        var i :| 0 <= i < |primary| && primary[i] in ids;
        assert Listed(dataset, primary[i]);
      } else {
        var i :| 0 <= i < |supplemental| && supplemental[i] in ids;
        assert Listed(dataset, supplemental[i]);
      }
    }
  }

  /** `x` is among the dataset's primary or supplemental files. */
  predicate Listed(dataset: Value, x: Value)
  {
    (Files(dataset, "primaryDataFiles").Some? && x in Files(dataset, "primaryDataFiles").value)
    || (Files(dataset, "supplementalFiles").Some? && x in Files(dataset, "supplementalFiles").value)
  }

  function Copies(info: Info, n: nat): (r: seq<Info>)
    ensures |r| == n && forall k :: 0 <= k < n ==> r[k] == info
  {
    seq(n, _ => info)
  }

  function Occurrences(bs: seq<Bucket>, b: Bucket): nat
  {
    if bs == [] then 0 else Occurrences(bs[..|bs| - 1], b) + (if bs[|bs| - 1] == b then 1 else 0)
  }

  /** Filing one record under several buckets appends that very record to each of them. */
  lemma {:induction false} FileAllFacts(a: Author, bs: seq<Bucket>, info: Info)
    ensures FileAll(a, bs, info).orcid == a.orcid && FileAll(a, bs, info).name == a.name
    ensures forall b :: Entries(FileAll(a, bs, info), b) == Entries(a, b) + Copies(info, Occurrences(bs, b))
  {
    if bs != [] {
      var init := bs[..|bs| - 1];
      FileAllFacts(a, init, info);
      forall b ensures Entries(FileAll(a, bs, info), b) == Entries(a, b) + Copies(info, Occurrences(bs, b)) {
        if bs[|bs| - 1] == b {
          assert Copies(info, Occurrences(bs, b)) == Copies(info, Occurrences(init, b)) + [info];
        } else {
          assert Copies(info, Occurrences(bs, b)) == Copies(info, Occurrences(init, b));
        }
      }
    }
  }

  lemma {:induction false} OccurrencesOfPlacements(ps: seq<Placement>)
    requires forall i :: 0 <= i < |ps| ==> ps[i].bucket != NoSubmissionId
    ensures Occurrences(Buckets(ps), InDataset) + Occurrences(Buckets(ps), NotInDataset)
      + Occurrences(Buckets(ps), InferredNotInDataset) == |ps|
    ensures Occurrences(Buckets(ps), NoSubmissionId) == 0
  {
    if ps != [] {
      var init := ps[..|ps| - 1];
      assert Buckets(ps)[..|ps| - 1] == Buckets(init);
      OccurrencesOfPlacements(init);
    }
  }

  lemma {:induction false} TotalUpdate(authors: seq<Author>, i: nat, a: Author, b: Bucket)
    requires i < |authors|
    ensures Total(authors[i := a], b) + |Entries(authors[i], b)| == Total(authors, b) + |Entries(a, b)|
  {
    var n := |authors| - 1;
    if i < n {
      assert authors[i := a][..n] == authors[..n][i := a];
      TotalUpdate(authors[..n], i, a, b);
    } else {
      assert authors[i := a][..n] == authors[..n];
    }
  }

  lemma TotalAppend(authors: seq<Author>, a: Author, b: Bucket)
    ensures Total(authors + [a], b) == Total(authors, b) + |Entries(a, b)|
  {
    assert (authors + [a])[..|authors|] == authors;
  }

  /**
   * A new title is filed once per submission id, in exactly one of the
   * three submission buckets each, or once under no_submission_id when it
   * has no id; the duplicate count stays.
   */
  lemma StepCounts(t: Tally, record: Value, examine: Examiner)
    requires Faithful(examine)
    requires !Skipped(record) && At(record, "pipeline_title") !in t.seen && Step(t, record, examine).Ok?
    ensures Read(t.authors, record).Ok?
    ensures var t' := Step(t, record, examine).value;
      var ids := Read(t.authors, record).value.ids;
      Total(t'.authors, InDataset) + Total(t'.authors, NotInDataset) + Total(t'.authors, InferredNotInDataset)
        == Total(t.authors, InDataset) + Total(t.authors, NotInDataset) + Total(t.authors, InferredNotInDataset) + |ids|
      && Total(t'.authors, NoSubmissionId) == Total(t.authors, NoSubmissionId) + (if ids == [] then 1 else 0)
      && t'.duplicates == t.duplicates
  {
    var p := Read(t.authors, record).value;
    PlacementsFacts(p.ids, p.attached, p.title, examine);
    FiledCounts(t, p, Placements(p.ids, p.attached, p.title, examine).value);
  }

  lemma FiledCounts(t: Tally, p: Pipeline, ps: seq<Placement>)
    requires |ps| == |p.ids| && forall i :: 0 <= i < |ps| ==> ps[i].bucket != NoSubmissionId
    ensures var t' := Filed(t, p, ps);
      Total(t'.authors, InDataset) + Total(t'.authors, NotInDataset) + Total(t'.authors, InferredNotInDataset)
        == Total(t.authors, InDataset) + Total(t.authors, NotInDataset) + Total(t.authors, InferredNotInDataset) + |p.ids|
      && Total(t'.authors, NoSubmissionId) == Total(t.authors, NoSubmissionId) + (if p.ids == [] then 1 else 0)
      && t'.duplicates == t.duplicates
  {
    var buckets := (if p.ids == [] then [NoSubmissionId] else []) + Buckets(ps);
    var authors := if AuthorIndex(t.authors, p.orcid).Some? then t.authors
      else t.authors + [Author(p.orcid, p.name, [], [], [], [])];
    var i := if AuthorIndex(t.authors, p.orcid).Some? then AuthorIndex(t.authors, p.orcid).value
      else |t.authors|;
    assert Filed(t, p, ps).authors == authors[i := FileAll(authors[i], buckets, InfoOf(p, ps))];
    BucketsOccur(p, ps);
    forall b ensures Total(Filed(t, p, ps).authors, b) == Total(t.authors, b) + Occurrences(buckets, b) {
      if AuthorIndex(t.authors, p.orcid).None? {
        TotalAppend(t.authors, Author(p.orcid, p.name, [], [], [], []), b);
      }
      FileAllTotal(authors, i, buckets, InfoOf(p, ps), b);
    }
  }

  lemma BucketsOccur(p: Pipeline, ps: seq<Placement>)
    requires |ps| == |p.ids| && forall i :: 0 <= i < |ps| ==> ps[i].bucket != NoSubmissionId
    ensures var buckets := (if p.ids == [] then [NoSubmissionId] else []) + Buckets(ps);
      Occurrences(buckets, InDataset) + Occurrences(buckets, NotInDataset) + Occurrences(buckets, InferredNotInDataset) == |p.ids|
      && Occurrences(buckets, NoSubmissionId) == (if p.ids == [] then 1 else 0)
  {
    OccurrencesOfPlacements(ps);
    if p.ids == [] {
      var buckets := [NoSubmissionId] + Buckets(ps);
      assert buckets == [NoSubmissionId];
      assert buckets[..0] == [];
    } else {
      assert [] + Buckets(ps) == Buckets(ps);
    }
  }

  lemma FileAllTotal(authors: seq<Author>, i: nat, bs: seq<Bucket>, info: Info, b: Bucket)
    requires i < |authors|
    ensures Total(authors[i := FileAll(authors[i], bs, info)], b) == Total(authors, b) + Occurrences(bs, b)
  {
    FileAllFacts(authors[i], bs, info);
    TotalUpdate(authors, i, FileAll(authors[i], bs, info), b);
  }

  /**
   * Every record filed for a new title is one and the same record, filed
   * under the record's own "author_orcid", whatever value it holds (null
   * included): the script appends a single dict and keeps updating it, so
   * each entry shows the title, the date and the fields of the last
   * submission id.
   */
  lemma StepSharesRecord(t: Tally, record: Value, examine: Examiner)
    requires Faithful(examine)
    requires !Skipped(record) && At(record, "pipeline_title") !in t.seen && Step(t, record, examine).Ok?
    ensures Read(t.authors, record).Ok?
    ensures var t' := Step(t, record, examine).value;
      var p := Read(t.authors, record).value;
      var info := InfoOf(p, Placements(p.ids, p.attached, p.title, examine).value);
      var i := AuthorIndex(t'.authors, At(record, "author_orcid"));
      info.pipelineTitle == At(record, "pipeline_title") && info.lastUpdated == At(record, "last_updated")
      && (info.detail.None? <==> p.ids == [])
      && (p.ids != [] ==> info.detail.value.submissionId == p.ids[|p.ids| - 1] && info.detail.value.originallyAttached == p.attached)
      && i.Some?
      && forall b :: (Entries(Before(t, p), b) <= Entries(t'.authors[i.value], b)
        && forall k :: |Entries(Before(t, p), b)| <= k < |Entries(t'.authors[i.value], b)| ==>
          Entries(t'.authors[i.value], b)[k] == info)
  {
    var p := Read(t.authors, record).value;
    PlacementsFacts(p.ids, p.attached, p.title, examine);
    FiledRecord(t, p, Placements(p.ids, p.attached, p.title, examine).value);
  }

  lemma FiledRecord(t: Tally, p: Pipeline, ps: seq<Placement>)
    ensures var t' := Filed(t, p, ps);
      var i := AuthorIndex(t'.authors, p.orcid);
      i.Some?
      && forall b :: (Entries(Before(t, p), b) <= Entries(t'.authors[i.value], b)
        && forall k :: |Entries(Before(t, p), b)| <= k < |Entries(t'.authors[i.value], b)| ==>
          Entries(t'.authors[i.value], b)[k] == InfoOf(p, ps))
  {
    var buckets := (if p.ids == [] then [NoSubmissionId] else []) + Buckets(ps);
    var info := InfoOf(p, ps);
    var authors := if AuthorIndex(t.authors, p.orcid).Some? then t.authors
      else t.authors + [Author(p.orcid, p.name, [], [], [], [])];
    var i := if AuthorIndex(t.authors, p.orcid).Some? then AuthorIndex(t.authors, p.orcid).value
      else |t.authors|;
    assert authors[i] == Before(t, p);
    var a' := FileAll(authors[i], buckets, info);
    var t' := Filed(t, p, ps);
    assert t'.authors == authors[i := a'];
    FileAllFacts(authors[i], buckets, info);
    AuthorIndexFirst(t'.authors, p.orcid, i);
  }
}
