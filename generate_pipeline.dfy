/**
 * The pipeline the datapackage generator builds for a dataset without a
 * usable pipeline of its own: load the data, attach the species lists and
 * the latitude/longitude columns, stamp the package with the dataset's id
 * and version, and dump the result to S3; and the single retry of a run
 * that fails in a processor.
 */
module GeneratePipeline {
  import opened Wrappers
  import opened Json

  /** One step of a pipeline: the processor it runs and its parameters. */
  datatype Step = Step(run: string, parameters: Value)

  const LoadRun := "bcodmo_pipeline_processors.load"
  const UpdateFieldsRun := "bcodmo_pipeline_processors.update_fields"
  const UpdateResourceRun := "update_resource"
  const UpdatePackageRun := "update_package"
  const DumpRun := "bcodmo_pipeline_processors.dump_to_s3"

  /** The first step: load the tab-separated data as strings. */
  function LoadStep(url: string, title: string): Step
  {
    Step(LoadRun, Obj([
      ("from", Str(url)), ("name", Str(title)), ("format", Str("csv")), ("skip_rows", Arr([Str("#")])),
      ("delimiter", Str("\t")), ("infer_strategy", Str("strings")), ("cast_strategy", Str("strings")),
      ("override_schema", Obj([("missingValues", Arr([Str(""), Str("nd")]))]))]))
  }

  /** `{"bcodmo:": {"unique": unique}}`. */
  function UniqueEntry(unique: Value): Value
  {
    Obj([("bcodmo:", Obj([("unique", unique)]))])
  }

  /** `processor_fields`: a species column named twice keeps its place and takes the later list. */
  function SpeciesFields(species: seq<string>, unique: seq<Value>): (r: Value)
    requires |unique| >= |species|
    ensures r.Obj?
  {
    if species == [] then Obj([])
    else
      var n := |species| - 1;
      Set(SpeciesFields(species[..n], unique), species[n], UniqueEntry(unique[n]))
  }

  /** The loop that fills `processor_fields`. */
  method BuildSpeciesFields(species: seq<string>, unique: seq<Value>) returns (fields: Value)
    requires |unique| >= |species|
    ensures fields == SpeciesFields(species, unique)
  {
    fields := Obj([]);
    for i := 0 to |species|
      invariant fields == SpeciesFields(species[..i], unique)
    {
      assert species[..i + 1][..i] == species[..i];
      fields := Set(fields, species[i], UniqueEntry(unique[i]));
    }
    assert species[..|species|] == species;
  }

  /** Python truthiness of a column name that may be None. */
  predicate Present(column: Option<string>) { column.Some? && column.value != "" }

  function UpdateFieldsStep(fields: Value): Step
  {
    Step(UpdateFieldsRun, Obj([("resources", Arr([Str("res1")])), ("fields", fields)]))
  }

  function UpdateResourceStep(lat: string, lon: string): Step
  {
    Step(UpdateResourceRun, Obj([("resources", Arr([Str("res1")])),
      ("metadata", Obj([("bcodmo:", Obj([("lat_column", Str(lat)), ("lon_column", Str(lon))]))]))]))
  }

  function UpdatePackageStep(datasetId: string, datasetVersion: string): Step
  {
    Step(UpdatePackageRun, Obj([("version", Str(datasetVersion)), ("id", Str(datasetId))]))
  }

  /** Where the dump goes: `<datasets prefix>/<id>/<version>`. */
  function DumpPrefix(datasetsPrefix: string, datasetId: string, datasetVersion: string): string
  {
    datasetsPrefix + "/" + datasetId + "/" + datasetVersion
  }

  function DumpStep(prefix: string, bucket: string): Step
  {
    Step(DumpRun, Obj([
      ("prefix", Str(prefix)), ("force-format", Bool(true)), ("format", Str("csv")),
      ("save_pipeline_spec", Bool(true)), ("temporal_format_property", Str("outputFormat")),
      ("bucket_name", Str(bucket)),
      ("data_manager", Obj([("name", Str("")), ("orcid", Str("")), ("submission_id", Str(""))]))]))
  }

  function StepValue(step: Step): Value { Obj([("run", Str(step.run)), ("parameters", step.parameters)]) }

  function StepValues(steps: seq<Step>): (r: seq<Value>)
    ensures |r| == |steps|
    ensures forall i :: 0 <= i < |steps| ==> r[i] == StepValue(steps[i])
  {
    if steps == [] then [] else StepValues(steps[..|steps| - 1]) + [StepValue(steps[|steps| - 1])]
  }

  /** `_get_pipeline_spec`, as the document it serialises to YAML. */
  function PipelineSpec(title: string, datasetId: string, datasetVersion: string, steps: seq<Step>): Value
  {
    Obj([(title, Obj([
      ("title", Str(title)), ("description", Str("")), ("datasetId", Str(datasetId)),
      ("datasetVersion", Str(datasetVersion)), ("version", Str("v2.10.0")), ("pipeline", Arr(StepValues(steps)))]))])
  }

  /** What the generator is given for one dataset. */
  datatype Request = Request(url: string, title: string, datasetId: string, datasetVersion: string,
                             species: seq<string>, unique: seq<Value>, lat: Option<string>, lon: Option<string>,
                             addDump: bool, datasetsPrefix: string, bucket: string)

  /** `[step]` when the condition holds, else nothing. */
  function When(c: bool, step: Step): seq<Step> { if c then [step] else [] }

  /**
   * The steps before the dump: load; update_fields when there are species;
   * update_resource when both columns are known; update_package.
   */
  function BaseSteps(q: Request): seq<Step>
    requires |q.unique| >= |q.species|
  {
    [LoadStep(q.url, q.title)]
    + When(q.species != [], UpdateFieldsStep(SpeciesFields(q.species, q.unique)))
    + LatLonSteps(q.lat, q.lon)
    + [UpdatePackageStep(q.datasetId, q.datasetVersion)]
  }

  /** update_resource, when both columns are truthy. */
  function LatLonSteps(lat: Option<string>, lon: Option<string>): (r: seq<Step>)
    ensures |r| <= 1 && (r != [] <==> Present(lat) && Present(lon))
    ensures r != [] ==> r[0].run == UpdateResourceRun
  {
    if Present(lat) && Present(lon) then [UpdateResourceStep(lat.value, lon.value)] else []
  }

  /** The dump step, carrying the spec of the steps up to and including itself. */
  function FinalDump(q: Request, base: seq<Step>): Step
  {
    var dump := DumpStep(DumpPrefix(q.datasetsPrefix, q.datasetId, q.datasetVersion), q.bucket);
    Step(DumpRun, Set(dump.parameters, "pipeline_spec", PipelineSpec(q.title, q.datasetId, q.datasetVersion, base + [dump])))
  }

  /** The steps, with the dump last when dumping. */
  function Steps(q: Request): seq<Step>
    requires |q.unique| >= |q.species|
  {
    BaseSteps(q) + When(q.addDump, FinalDump(q, BaseSteps(q)))
  }

  /** The fields of a non-empty species list are not empty. */
  lemma SpeciesFieldsNonEmpty(species: seq<string>, unique: seq<Value>)
    requires |unique| >= |species|
    ensures SpeciesFields(species, unique).entries != [] <==> species != []
  {
    if species != [] {
      var n := |species| - 1;
      GetSet(SpeciesFields(species[..n], unique), species[n], UniqueEntry(unique[n]), species[n], Null);
    }
  }

  /** The step construction of generate_and_run_pipeline. */
  method BuildSteps(q: Request) returns (steps: seq<Step>)
    requires |q.unique| >= |q.species|
    ensures steps == Steps(q)
  {
    steps := [LoadStep(q.url, q.title)];
    var processorFields := BuildSpeciesFields(q.species, q.unique);
    SpeciesFieldsNonEmpty(q.species, q.unique);
    if |processorFields.entries| > 0 {
      steps := steps + [UpdateFieldsStep(processorFields)];
    }
    assert steps == [LoadStep(q.url, q.title)] + When(q.species != [], UpdateFieldsStep(processorFields));
    if Present(q.lat) && Present(q.lon) {
      steps := steps + [UpdateResourceStep(q.lat.value, q.lon.value)];
    }
    steps := steps + [UpdatePackageStep(q.datasetId, q.datasetVersion)];
    assert steps == BaseSteps(q);
    if q.addDump {
      var base := steps;
      steps := steps + [DumpStep(DumpPrefix(q.datasetsPrefix, q.datasetId, q.datasetVersion), q.bucket)];
      var pipelineSpec := PipelineSpec(q.title, q.datasetId, q.datasetVersion, steps);
      var last := steps[|steps| - 1];
      assert steps[..|steps| - 1] == base;
      steps := steps[..|steps| - 1] + [Step(last.run, Set(last.parameters, "pipeline_spec", pipelineSpec))];
    } else {
      assert steps + [] == steps;
    }
  }

  /** How one run of the dataflow ends. */
  datatype RunResult = Processed(descriptor: Value) | ProcessorError | OtherError

  /** Running the flow of these steps, on the first (0) or second (1) attempt. */
  type Runner = (seq<Step>, nat) -> RunResult

  /** Why the generator raises. */
  datatype RunFailure = ProcessorFailed | OtherFailed

  /**
   * generate_and_run_pipeline: a processor error on the first attempt runs
   * the same steps again with `retry` set, and the result says whether it
   * was retried.
   */
  function Generate(steps: seq<Step>, run: Runner, retry: bool): Result<(Value, bool), RunFailure>
    decreases if retry then 0 else 1
  {
    match run(steps, if retry then 1 else 0)
    case Processed(d) => Ok((d, retry))
    case ProcessorError => if !retry then Generate(steps, run, true) else Err(ProcessorFailed)
    case OtherError => Err(OtherFailed)
  }

  method GenerateAndRunPipeline(q: Request, run: Runner, retry: bool) returns (r: Result<(Value, bool), RunFailure>)
    requires |q.unique| >= |q.species|
    ensures r == Generate(Steps(q), run, retry)
    decreases if retry then 0 else 1
  {
    var steps := BuildSteps(q);
    var result := run(steps, if retry then 1 else 0);
    match result {
      case Processed(d) =>
        return Ok((d, retry));
      case ProcessorError =>
        if !retry {
          r := GenerateAndRunPipeline(q, run, true);
        } else {
          return Err(ProcessorFailed);
        }
      case OtherError =>
        return Err(OtherFailed);
    }
  }
}

module GeneratePipelineFacts {
  import opened Wrappers
  import opened Json
  import opened GeneratePipeline

  function Runs(steps: seq<Step>): (r: seq<string>)
    ensures |r| == |steps|
    ensures forall i :: 0 <= i < |steps| ==> r[i] == steps[i].run
  {
    if steps == [] then [] else Runs(steps[..|steps| - 1]) + [steps[|steps| - 1].run]
  }

  lemma RunsAppend(a: seq<Step>, b: seq<Step>)
    ensures Runs(a + b) == Runs(a) + Runs(b)
  {
    assert |Runs(a + b)| == |Runs(a) + Runs(b)|;
  }

  lemma RunsWhen(c: bool, step: Step)
    ensures Runs(When(c, step)) == if c then [step.run] else []
  {
  }

  /**
   * The processors run in this order: load first; update_fields exactly
   * when there are species; update_resource exactly when both columns are
   * truthy; update_package; the dump last exactly when dumping.
   */
  lemma StepsOrder(q: Request)
    requires |q.unique| >= |q.species|
    ensures Runs(Steps(q)) == [LoadRun]
      + (if q.species != [] then [UpdateFieldsRun] else [])
      + (if Present(q.lat) && Present(q.lon) then [UpdateResourceRun] else [])
      + [UpdatePackageRun]
      + (if q.addDump then [DumpRun] else [])
  {
    var b := When(q.species != [], UpdateFieldsStep(SpeciesFields(q.species, q.unique)));
    var c := LatLonSteps(q.lat, q.lon);
    var e := When(q.addDump, FinalDump(q, BaseSteps(q)));
    StepsRuns(q);
    RunsWhen(q.species != [], UpdateFieldsStep(SpeciesFields(q.species, q.unique)));
    if Present(q.lat) && Present(q.lon) {
      RunsWhen(true, c[0]);
    }
    RunsWhen(q.addDump, FinalDump(q, BaseSteps(q)));
  }

  lemma StepsRuns(q: Request)
    requires |q.unique| >= |q.species|
    ensures Runs(Steps(q)) == [LoadRun]
      + Runs(When(q.species != [], UpdateFieldsStep(SpeciesFields(q.species, q.unique))))
      + Runs(LatLonSteps(q.lat, q.lon))
      + [UpdatePackageRun]
      + Runs(When(q.addDump, FinalDump(q, BaseSteps(q))))
  {
    var a := [LoadStep(q.url, q.title)];
    var b := When(q.species != [], UpdateFieldsStep(SpeciesFields(q.species, q.unique)));
    var c := LatLonSteps(q.lat, q.lon);
    var d := [UpdatePackageStep(q.datasetId, q.datasetVersion)];
    var e := When(q.addDump, FinalDump(q, BaseSteps(q)));
    assert Steps(q) == a + b + c + d + e;
    RunsAppend(a, b);
    RunsAppend(a + b, c);
    RunsAppend(a + b + c, d);
    RunsAppend(a + b + c + d, e);
    RunsWhen(true, LoadStep(q.url, q.title));
    RunsWhen(true, UpdatePackageStep(q.datasetId, q.datasetVersion));
  }

  /** The package step stamps the dataset's id and version; the dump goes under its prefix. */
  lemma StepsStamp(q: Request)
    requires |q.unique| >= |q.species|
    ensures var steps := Steps(q);
      var package := steps[|steps| - (if q.addDump then 2 else 1)];
      package.run == UpdatePackageRun
      && At(package.parameters, "id") == Str(q.datasetId) && At(package.parameters, "version") == Str(q.datasetVersion)
      && (q.addDump ==>
        At(steps[|steps| - 1].parameters, "prefix") == Str(DumpPrefix(q.datasetsPrefix, q.datasetId, q.datasetVersion)))
  {
    var steps := Steps(q);
    var package := UpdatePackageStep(q.datasetId, q.datasetVersion);
    var e := package.parameters.entries;
    assert e[1..][0].0 == "id";
    assert Lookup(e, "id") == Lookup(e[1..], "id");
    if q.addDump {
      var dump := DumpStep(DumpPrefix(q.datasetsPrefix, q.datasetId, q.datasetVersion), q.bucket);
      GetSet(dump.parameters, "pipeline_spec", PipelineSpec(q.title, q.datasetId, q.datasetVersion, steps[..|steps| - 1] + [dump]), "prefix", Null);
    }
  }

  /** The species fields name each species column with the list of its last mention. */
  lemma {:induction false} SpeciesFieldsLast(species: seq<string>, unique: seq<Value>, i: nat)
    requires |unique| >= |species| && i < |species|
    requires forall k :: i < k < |species| ==> species[k] != species[i]
    ensures At(SpeciesFields(species, unique), species[i]) == UniqueEntry(unique[i])
  {
    var n := |species| - 1;
    GetSet(SpeciesFields(species[..n], unique), species[n], UniqueEntry(unique[n]), species[i], Null);
    if i < n {
      SpeciesFieldsLast(species[..n], unique, i);
    }
  }

  /** The generator runs the flow at most twice: only the first two attempts decide the result. */
  lemma AtMostTwoRuns(steps: seq<Step>, run: Runner, other: Runner, retry: bool)
    requires run(steps, 0) == other(steps, 0) && run(steps, 1) == other(steps, 1)
    ensures Generate(steps, run, retry) == Generate(steps, other, retry)
    decreases if retry then 0 else 1
  {
    if !retry && run(steps, 0).ProcessorError? {
      AtMostTwoRuns(steps, run, other, true);
    }
  }

  /**
   * A first call succeeds with `retry` unset iff the first run succeeds,
   * succeeds with it set iff the first run failed in a processor and the
   * second succeeded, and raises a processor error after two such failures.
   */
  lemma RetryOnce(steps: seq<Step>, run: Runner)
    ensures var r := Generate(steps, run, false);
      (r.Ok? && !r.value.1 <==> run(steps, 0).Processed?)
      && (r.Ok? && r.value.1 <==> run(steps, 0).ProcessorError? && run(steps, 1).Processed?)
      && (r == Err(ProcessorFailed) <==> run(steps, 0).ProcessorError? && run(steps, 1).ProcessorError?)
  {
  }
}
