/**
 * One pipeline of the regression run (process_pipeline in
 * laminar_floating_point_error/process.py): load its spec, point its dump
 * step at the test location, reuse an existing test output or run the
 * pipeline and wait for it, compare the output with the original files, and
 * classify the outcome. A comparison that shows a value the original left
 * empty reruns the pipeline once with preserve_missing_values off.
 */
module ProcessPipeline {
  import opened Wrappers
  import opened Json
  import opened Interrupt
  import opened ProcessSteps
  import opened ProcessHttp
  import opened ProcessCompare
  import opened ProcessFiles

  /** An input entry: its "pipeline_name" (None when the key is absent) and its "pipeline_spec". */
  datatype Entry = Entry(nameKey: Option<Value>, specPath: Option<string>)
  {
    /** entry.get("pipeline_name") */
    const name: Value := if nameKey.Some? then nameKey.value else Null
  }

  /**
   * What the services answer: the parsed spec at a key (None when the
   * download or the YAML parse raises), whether test output exists under a
   * prefix, the replies to the submission and to the status polls, and S3.
   * The first three are indexed by the preserve_missing_values setting of
   * the pass that asks, since a rerun asks again.
   */
  datatype Services = Services(
    specs: string -> Option<Value>,
    outputExists: bool -> string -> bool,
    submitReplies: bool -> nat -> Reply,
    statusReplies: bool -> nat -> nat -> Reply,
    store: Store,
    fuel: nat)

  ghost predicate ServicesOk(sv: Services) { StoreOk(sv.store) }

  datatype Status = Skipped | Processing | Interrupted | Error | Buggy | NotBuggy

  /** A key that may be absent, present with None (Nil), or present with a value. */
  datatype Field<T> = Missing | Nil | Given(value: T)

  /** The exceptions the handler turns into an "error" result. */
  datatype Cause =
    | MissingSpecPath            // KeyError: 'pipeline_spec'
    | SpecUnavailable            // the download or the parse raised
    | BadSpec                    // not a non-empty dict whose first value is a dict
    | StepsNotIterable           // TypeError: "pipeline" is not a list, a string or a dict
    | InvalidSteps(e: StepsError)
    | SubmitRequestFailed        // a requests exception after the retries
    | SubmitOtherFailure         // another exception from the submission call
    | SubmitRejected(code: Value) // status_code other than 0
    | NoCacheId
    | StatusPollFailed           // an exception out of the status poll
    | PollBoundReached           // the model's bound on polls ran out

  /** The entries of "errors". */
  datatype Message =
    | InterruptedBeforeStart
    | InterruptedBeforeExecution
    | PipelineReturnedError(error: Value)
    | SuccessWithError(error: Value)
    | ExecutionFailed(status: Value)
    | FileComparisonInterrupted
    | HeadersMismatch(filename: string)
    | SomeComparisonsInterrupted
    | Exception(cause: Cause)
    | NotProcessed               // written by main into a slot no result reached

  /** The text of the messages with no varying part. */
  function FixedText(m: Message): Option<string>
  {
    match m
    case InterruptedBeforeStart => Some("Processing interrupted before start")
    case InterruptedBeforeExecution => Some("Processing interrupted before pipeline execution")
    case FileComparisonInterrupted => Some("File comparison interrupted by user")
    case SomeComparisonsInterrupted => Some("Some file comparisons were interrupted")
    case NotProcessed => Some("Pipeline was not processed due to interruption")
    case _ => None
  }

  datatype PipelineResult = PipelineResult(
    name: Value,
    status: Status,
    errors: seq<Message>,
    authorName: Value,
    authorOrcid: Value,
    submissionIds: Value,
    title: Option<string>,
    originalPrefix: Option<Value>,
    cacheId: Option<Value>,
    executionStatus: Option<Value>,
    reusedExisting: Option<bool>,
    comparison: Option<Files>,
    preserveMissingValues: Option<bool>,
    isBuggy: Field<bool>,
    totalCellDifferences: Option<nat>)

  const ReusedOutput: string := "REUSED_EXISTING_OUTPUT"

  function Initial(name: Value): PipelineResult
  {
    PipelineResult(name, Processing, [], Null, Null, Arr([]), None, None, None, None, None, None, None, Missing, None)
  }

  /** The result returned when the flag is set on entry. */
  function SkippedAtStart(name: Value): PipelineResult
  {
    Initial(name).(status := Skipped, errors := [InterruptedBeforeStart])
  }

  /** The exception handler. */
  function Failed(r: PipelineResult, c: Cause): PipelineResult
  {
    r.(status := Error, errors := r.errors + [Exception(c)], isBuggy := Nil)
  }

  /**
   * The spec download, its title (first key) and its "pipeline" value
   * (default []), which is not yet known to be a list.
   */
  function LoadSteps(sv: Services, entry: Entry): Result<(string, Value), Cause>
  {
    if entry.specPath.None? then Err(MissingSpecPath)
    else match sv.specs(entry.specPath.value)
      case None => Err(SpecUnavailable)
      case Some(spec) =>
        if !spec.Obj? || spec.entries == [] || !spec.entries[0].1.Obj? then Err(BadSpec)
        else Ok((spec.entries[0].0, Get(spec.entries[0].1, "pipeline", Arr([]))))
  }

  /**
   * The result up to the test-output check, and the title and validated
   * steps when no exception was raised. pipeline_title is recorded before
   * the steps are validated, so a validation error keeps it; validation
   * iterates the "pipeline" value as Python's `for` does.
   */
  function Prepare(sv: Services, entry: Entry): (PipelineResult, Option<(string, Validated)>)
  {
    var base := Initial(entry.name);
    match LoadSteps(sv, entry)
    case Err(c) => (Failed(base, c), None)
    case Ok((title, pipeline)) =>
      var titled := base.(title := Some(title));
      match Elements(pipeline)
      case None => (Failed(titled, StepsNotIterable), None)
      case Some(steps) =>
      match Validate(steps, title)
      case Err(e) => (Failed(titled, InvalidSteps(e)), None)
      case Ok(v) =>
        (titled.(originalPrefix := Some(v.originalPrefix), authorName := v.metadata.authorName,
                 authorOrcid := v.metadata.authorOrcid, submissionIds := v.metadata.submissionIds),
         Some((title, v)))
  }

  /** status_code 0 (Python also takes False as 0). */
  predicate CodeZero(v: Value) { v == Num(0) || v == Bool(false) }

  /** run_pipeline: the cache id of an accepted submission, or the exception. */
  function Submit(replies: nat -> Reply): Result<Value, Cause>
  {
    match Retry(replies).0
    case RaisedRequest => Err(SubmitRequestFailed)
    case RaisedOther => Err(SubmitOtherFailure)
    case Returned(body) =>
      if !body.Obj? then Err(SubmitOtherFailure)
      else if !CodeZero(At(body, "status_code")) then Err(SubmitRejected(At(body, "status_code")))
      else if !Truthy(At(body, "cache_id")) then Err(NoCacheId)
      else Ok(At(body, "cache_id"))
  }

  /**
   * Reuse the test output or run the pipeline and wait for it. The status
   * stays Processing exactly when the comparison is to follow.
   */
  function Execute(sv: Services, r: PipelineResult, title: string, preserve: bool, s: Shutdown, read: nat): (PipelineResult, nat)
  {
    if sv.outputExists(preserve)(TestLocation(title)) then
      (r.(cacheId := Some(Str(ReusedOutput)), executionStatus := Some(Str("SUCCESS")), reusedExisting := Some(true)), read)
    else if IsSet(s, read) then
      (r.(status := Interrupted, errors := r.errors + [InterruptedBeforeExecution]), read + 1)
    else match Submit(sv.submitReplies(preserve))
      case Err(c) => (Failed(r, c), read + 1)
      case Ok(cache) =>
        var submitted := r.(cacheId := Some(cache), reusedExisting := Some(false));
        var (w, read') := Poll(sv.statusReplies(preserve), s, read + 1, 0, sv.fuel);
        match w
        case Raised => (Failed(submitted, StatusPollFailed), read')
        case PollLimit => (Failed(submitted, PollBoundReached), read')
        case Finished(status, error) =>
          var waited := submitted.(executionStatus := Some(status),
                                   errors := if Truthy(error) then submitted.errors + [PipelineReturnedError(error)] else submitted.errors);
          if status == Str(InterruptedStatus) then (waited.(status := Interrupted), read')
          else if status != Str("SUCCESS") then
            (waited.(status := Error,
                     errors := waited.errors + [if status == Str("ERROR_WITH_SUCCESS") then SuccessWithError(error) else ExecutionFailed(status)]),
             read')
          else (waited, read')
  }

  /** A detailed comparison the user interrupted. */
  predicate WasInterrupted(d: Detail) { d.error == Some(InterruptedMessage) }

  /** A cell the original left empty and the new output fills. */
  predicate FilledIn(c: CellDiff) { c.originalValue == "" && c.newValue != "" }

  /** Some uninterrupted comparison holds a cell the original left empty: the rerun trigger. */
  predicate NeedsRerun(details: seq<Detail>)
  {
    exists i, j :: 0 <= i < |details| && !WasInterrupted(details[i]) && 0 <= j < |details[i].diffs| && FilledIn(details[i].diffs[j])
  }

  /** `not headers_match`, the key read with default True. */
  predicate BadHeaders(d: Detail) { d.headersMatch == Some(false) }

  /** What the header loop finds: whether it passed an interrupted comparison, and the first mismatching file. */
  datatype Scan = Scan(interrupted: bool, mismatch: Option<string>)

  function HeaderScan(details: seq<Detail>): Scan
  {
    if details == [] then Scan(false, None)
    else if WasInterrupted(details[0]) then HeaderScan(details[1..]).(interrupted := true)
    else if BadHeaders(details[0]) then Scan(false, Some(details[0].filename))
    else HeaderScan(details[1..])
  }

  /** `sum(diff.get("total_differences", 0) ...)` */
  function SumTotals(details: seq<Detail>): nat
  {
    if details == [] then 0 else (if details[0].total.Some? then details[0].total.value else 0) + SumTotals(details[1..])
  }

  /** The classification after an uninterrupted comparison. */
  function Classify(r: PipelineResult, files: Files): PipelineResult
  {
    var scan := HeaderScan(files.detailed);
    var scanned := r.(errors := r.errors + (if scan.mismatch.Some? then [HeadersMismatch(scan.mismatch.value)] else []));
    if scan.interrupted && scan.mismatch.None? then
      scanned.(status := Interrupted, isBuggy := Nil, errors := scanned.errors + [SomeComparisonsInterrupted])
    else if scan.mismatch.Some? then scanned.(status := Error, isBuggy := Nil)
    else if files.withDifferences > 0 then
      scanned.(status := Buggy, isBuggy := Given(true), totalCellDifferences := Some(SumTotals(files.detailed)))
    else scanned.(status := NotBuggy, isBuggy := Given(false))
  }

  function PrefixText(v: Value): Option<string> { if v.Str? then Some(v.s) else None }

  /** How one pass of process_pipeline ends: with a result, or by asking for the rerun. */
  datatype Outcome = Done(result: PipelineResult, read: nat) | RerunFrom(read: nat)

  /** The rerun decision and the classification, once the files are compared. */
  function Decide(r: PipelineResult, files: Files, read: nat, preserve: bool, s: Shutdown): Outcome
  {
    if files.error == Some(InterruptedMessage) then
      Done(r.(status := Interrupted, errors := r.errors + [FileComparisonInterrupted], comparison := Some(files)), read)
    else if preserve && !IsSet(s, read) && NeedsRerun(files.detailed) then RerunFrom(read + 1)
    else Done(Classify(r.(comparison := Some(files), preserveMissingValues := Some(preserve)), files), if preserve then read + 1 else read)
  }

  /** One pass of process_pipeline(entry, preserve), from flag read number `read` on. */
  function Pass(sv: Services, entry: Entry, preserve: bool, s: Shutdown, read: nat): Outcome
    requires ServicesOk(sv)
  {
    if IsSet(s, read) then Done(SkippedAtStart(entry.name), read + 1)
    else
      var (r, prepared) := Prepare(sv, entry);
      if prepared.None? then Done(r, read + 1)
      else
        var (executed, read1) := Execute(sv, r, prepared.value.0, preserve, s, read + 1);
        if executed.status != Processing then Done(executed, read1)
        else Compared(sv.store, executed, prepared.value.0, prepared.value.1.originalPrefix, preserve, s, read1)
  }

  /** The comparison of the test output with the original output, and what follows from it. */
  function Compared(store: Store, executed: PipelineResult, title: string, originalPrefix: Value, preserve: bool, s: Shutdown, read: nat): Outcome
    requires StoreOk(store)
  {
    var (files, read') := CompareFiles(store, TestLocation(title), PrefixText(originalPrefix), s, read);
    Decide(executed, files, read', preserve, s)
  }

  /** Only a pass with preserve_missing_values on asks for a rerun, so the rerun cannot recurse. */
  lemma {:induction false} RerunOnlyOnce(sv: Services, entry: Entry, preserve: bool, s: Shutdown, read: nat)
    requires ServicesOk(sv)
    ensures Pass(sv, entry, preserve, s, read).RerunFrom? ==> preserve
  {
  }

  /** process_pipeline(entry, preserve): a pass, and the pass without preservation that a rerun makes. */
  function Process(sv: Services, entry: Entry, preserve: bool, s: Shutdown, read: nat): (PipelineResult, nat)
    requires ServicesOk(sv)
  {
    var first := Pass(sv, entry, preserve, s, read);
    if first.Done? then (first.result, first.read)
    else
      RerunOnlyOnce(sv, entry, false, s, first.read);
      var second := Pass(sv, entry, false, s, first.read);
      (second.result, second.read)
  }

  /** The validation step of process_pipeline, up to the test-output check. */
  method PreparePipeline(sv: Services, entry: Entry) returns (r: PipelineResult, prepared: Option<(string, Validated)>)
    ensures (r, prepared) == Prepare(sv, entry)
  {
    r := Initial(entry.name);
    var loaded := LoadSteps(sv, entry);
    if loaded.Err? {
      return Failed(r, loaded.error), None;
    }
    var title := loaded.value.0;
    r := r.(title := Some(title));
    var steps := Elements(loaded.value.1);
    if steps.None? {
      return Failed(r, StepsNotIterable), None;
    }
    var validated := ValidateAndModify(steps.value, title);
    if validated.Err? {
      return Failed(r, InvalidSteps(validated.error)), None;
    }
    var v := validated.value;
    r := r.(originalPrefix := Some(v.originalPrefix), authorName := v.metadata.authorName,
            authorOrcid := v.metadata.authorOrcid, submissionIds := v.metadata.submissionIds);
    prepared := Some((title, v));
  }

  /**
   * The reuse-or-run step: the worker `thread` registers the pipeline while
   * it polls, and leaves the registry as it found it.
   */
  method RunOrReuse(sv: Services, registry: Registry, thread: nat, r: PipelineResult, title: string,
                    preserve: bool, s: Shutdown, read: nat) returns (result: PipelineResult, read': nat)
    requires thread !in registry.active
    modifies registry
    ensures (result, read') == Execute(sv, r, title, preserve, s, read)
    ensures registry.active == old(registry.active)
  {
    if sv.outputExists(preserve)(TestLocation(title)) {
      return r.(cacheId := Some(Str(ReusedOutput)), executionStatus := Some(Str("SUCCESS")), reusedExisting := Some(true)), read;
    }
    if IsSet(s, read) {
      return r.(status := Interrupted, errors := r.errors + [InterruptedBeforeExecution]), read + 1;
    }
    var submitted := Submit(sv.submitReplies(preserve));
    if submitted.Err? {
      return Failed(r, submitted.error), read + 1;
    }
    result := r.(cacheId := Some(submitted.value), reusedExisting := Some(false));
    var w;
    w, read' := WaitForCompletion(registry, thread, submitted.value, title, sv.statusReplies(preserve), s, read + 1, sv.fuel);
    assert registry.active == old(registry.active);
    if w.Raised? {
      return Failed(result, StatusPollFailed), read';
    }
    if w.PollLimit? {
      return Failed(result, PollBoundReached), read';
    }
    result := result.(executionStatus := Some(w.status));
    if Truthy(w.error) {
      result := result.(errors := result.errors + [PipelineReturnedError(w.error)]);
    }
    if w.status == Str(InterruptedStatus) {
      result := result.(status := Interrupted);
    } else if w.status != Str("SUCCESS") {
      result := result.(status := Error);
      if w.status == Str("ERROR_WITH_SUCCESS") {
        result := result.(errors := result.errors + [SuccessWithError(w.error)]);
      } else {
        result := result.(errors := result.errors + [ExecutionFailed(w.status)]);
      }
    }
  }

  /** The loop over the detailed comparisons looking for a cell to rerun for. */
  method FindFilledIn(details: seq<Detail>) returns (found: bool)
    ensures found <==> NeedsRerun(details)
  {
    var i := 0;
    while i < |details|
      invariant i <= |details|
      invariant forall k, j :: 0 <= k < i && !WasInterrupted(details[k]) && 0 <= j < |details[k].diffs| ==> !FilledIn(details[k].diffs[j])
    {
      if !WasInterrupted(details[i]) {
        var j := 0;
        while j < |details[i].diffs|
          invariant j <= |details[i].diffs|
          invariant forall l :: 0 <= l < j ==> !FilledIn(details[i].diffs[l])
        {
          if details[i].diffs[j].originalValue == "" && details[i].diffs[j].newValue != "" {
            return true;
          }
          j := j + 1;
        }
      }
      i := i + 1;
    }
    return false;
  }

  /** The loop that looks for a header mismatch, noting interrupted comparisons on the way. */
  method ScanHeaders(details: seq<Detail>) returns (scan: Scan)
    ensures scan == HeaderScan(details)
  {
    var interrupted := false;
    var i := 0;
    while i < |details|
      invariant i <= |details|
      invariant HeaderScan(details) == Scan(interrupted || HeaderScan(details[i..]).interrupted, HeaderScan(details[i..]).mismatch)
    {
      assert details[i..][1..] == details[i + 1..];
      if WasInterrupted(details[i]) {
        interrupted := true;
      } else if BadHeaders(details[i]) {
        return Scan(interrupted, Some(details[i].filename));
      }
      i := i + 1;
    }
    return Scan(interrupted, None);
  }

  method ClassifyComparison(r: PipelineResult, files: Files) returns (result: PipelineResult)
    ensures result == Classify(r, files)
  {
    var scan := ScanHeaders(files.detailed);
    result := r;
    if scan.mismatch.Some? {
      result := result.(errors := result.errors + [HeadersMismatch(scan.mismatch.value)]);
    }
    if scan.interrupted && scan.mismatch.None? {
      result := result.(status := Interrupted, isBuggy := Nil, errors := result.errors + [SomeComparisonsInterrupted]);
    } else if scan.mismatch.Some? {
      result := result.(status := Error, isBuggy := Nil);
    } else if files.withDifferences > 0 {
      result := result.(status := Buggy, isBuggy := Given(true), totalCellDifferences := Some(SumTotals(files.detailed)));
    } else {
      result := result.(status := NotBuggy, isBuggy := Given(false));
    }
  }

  /** One pass of process_pipeline */
  method RunPass(sv: Services, registry: Registry, thread: nat, entry: Entry, preserve: bool, s: Shutdown, read: nat)
    returns (o: Outcome)
    requires ServicesOk(sv) && thread !in registry.active
    modifies registry
    ensures o == Pass(sv, entry, preserve, s, read)
    ensures registry.active == old(registry.active)
  {
    if IsSet(s, read) {
      return Done(SkippedAtStart(entry.name), read + 1);
    }
    var r, prepared := PreparePipeline(sv, entry);
    if prepared.None? {
      return Done(r, read + 1);
    }
    var title := prepared.value.0;
    var executed, read1 := RunOrReuse(sv, registry, thread, r, title, preserve, s, read + 1);
    if executed.status != Processing {
      return Done(executed, read1);
    }
    var files, read2 := CompareCsvFiles(sv.store, TestLocation(title), PrefixText(prepared.value.1.originalPrefix), s, read1);
    o := DecideOutcome(executed, files, read2, preserve, s);
  }

  method DecideOutcome(r: PipelineResult, files: Files, read: nat, preserve: bool, s: Shutdown) returns (o: Outcome)
    ensures o == Decide(r, files, read, preserve, s)
  {
    if files.error == Some(InterruptedMessage) {
      return Done(r.(status := Interrupted, errors := r.errors + [FileComparisonInterrupted], comparison := Some(files)), read);
    }
    var read' := read;
    if preserve {
      if !IsSet(s, read) {
        var found := FindFilledIn(files.detailed);
        if found {
          return RerunFrom(read + 1);
        }
      }
      read' := read + 1;
    }
    var result := ClassifyComparison(r.(comparison := Some(files), preserveMissingValues := Some(preserve)), files);
    return Done(result, read');
  }

  /** process_pipeline: a pass that finds a cell to rerun for calls itself once with preservation off. */
  method ProcessPipeline(sv: Services, registry: Registry, thread: nat, entry: Entry, preserve: bool, s: Shutdown, read: nat)
    returns (result: PipelineResult, read': nat)
    requires ServicesOk(sv) && thread !in registry.active
    modifies registry
    ensures (result, read') == Process(sv, entry, preserve, s, read)
    ensures registry.active == old(registry.active)
    decreases if preserve then 1 else 0
  {
    var o := RunPass(sv, registry, thread, entry, preserve, s, read);
    if o.Done? {
      return o.result, o.read;
    }
    RerunOnlyOnce(sv, entry, preserve, s, read);
    result, read' := ProcessPipeline(sv, registry, thread, entry, false, s, o.read);
  }
}

/** What process_pipeline promises about the result it returns. */
module ProcessPipelineFacts {
  import opened Wrappers
  import opened Json
  import opened Interrupt
  import opened ProcessSteps
  import opened ProcessCompare
  import opened ProcessFiles
  import opened ProcessFilesFacts
  import opened ProcessHttp
  import opened ProcessPipeline

  /** Some uninterrupted comparison found differing headers. */
  predicate Mismatched(d: seq<Detail>)
  {
    exists i :: 0 <= i < |d| && !WasInterrupted(d[i]) && BadHeaders(d[i])
  }

  predicate AnyInterrupted(d: seq<Detail>)
  {
    exists i :: 0 <= i < |d| && WasInterrupted(d[i])
  }

  /** The header loop reports a mismatch exactly when there is one. */
  lemma {:induction false} HeaderScanMismatch(d: seq<Detail>)
    ensures HeaderScan(d).mismatch.Some? <==> Mismatched(d)
  {
    if d != [] {
      HeaderScanMismatch(d[1..]);
      if Mismatched(d[1..]) {
        var i :| 0 <= i < |d[1..]| && !WasInterrupted(d[1..][i]) && BadHeaders(d[1..][i]);
        assert d[i + 1] == d[1..][i];
      }
      if Mismatched(d) && (WasInterrupted(d[0]) || !BadHeaders(d[0])) {
        var i :| 0 <= i < |d| && !WasInterrupted(d[i]) && BadHeaders(d[i]);
        assert d[1..][i - 1] == d[i];
      }
    }
  }

  /** The file it names is the first uninterrupted comparison with differing headers. */
  lemma {:induction false} HeaderScanFirst(d: seq<Detail>)
    requires HeaderScan(d).mismatch.Some?
    ensures exists i :: 0 <= i < |d| && !WasInterrupted(d[i]) && BadHeaders(d[i]) && HeaderScan(d).mismatch.value == d[i].filename
                        && forall j :: 0 <= j < i ==> WasInterrupted(d[j]) || !BadHeaders(d[j])
  {
    if WasInterrupted(d[0]) || !BadHeaders(d[0]) {
      HeaderScanFirst(d[1..]);
      var i :| 0 <= i < |d[1..]| && !WasInterrupted(d[1..][i]) && BadHeaders(d[1..][i])
               && HeaderScan(d[1..]).mismatch.value == d[1..][i].filename
               && forall j :: 0 <= j < i ==> WasInterrupted(d[1..][j]) || !BadHeaders(d[1..][j]);
      assert d[i + 1] == d[1..][i];
      assert forall j :: 1 <= j < i + 1 ==> d[j] == d[1..][j - 1];
    }
  }

  /** Without a mismatch, the loop notes an interrupted comparison exactly when there is one. */
  lemma {:induction false} HeaderScanInterrupted(d: seq<Detail>)
    requires HeaderScan(d).mismatch.None?
    ensures HeaderScan(d).interrupted <==> AnyInterrupted(d)
  {
    if d != [] {
      HeaderScanInterrupted(d[1..]);
      if AnyInterrupted(d) && !WasInterrupted(d[0]) {
        var i :| 0 <= i < |d| && WasInterrupted(d[i]);
        assert d[1..][i - 1] == d[i];
      }
      if AnyInterrupted(d[1..]) {
        var i :| 0 <= i < |d[1..]| && WasInterrupted(d[1..][i]);
        assert d[i + 1] == d[1..][i];
      }
    }
  }

  /**
   * The classification precedence: differing headers give "error" ahead of
   * interrupted comparisons ("interrupted"), ahead of files with differences
   * ("buggy"), ahead of "not_buggy"; is_buggy is true exactly for "buggy"
   * and false exactly for "not_buggy", and the messages only grow.
   */
  lemma {:induction false} ClassifyPrecedence(r: PipelineResult, files: Files)
    ensures var c, d := Classify(r, files), files.detailed;
      (c.status == Error <==> Mismatched(d))
      && (c.status == Interrupted <==> !Mismatched(d) && AnyInterrupted(d))
      && (c.status == Buggy <==> !Mismatched(d) && !AnyInterrupted(d) && files.withDifferences > 0)
      && (c.status == NotBuggy <==> !Mismatched(d) && !AnyInterrupted(d) && files.withDifferences == 0)
      && (c.isBuggy == Given(true) <==> c.status == Buggy)
      && (c.isBuggy == Given(false) <==> c.status == NotBuggy)
      && (c.status == Buggy ==> c.totalCellDifferences == Some(SumTotals(d)))
      && r.errors <= c.errors
  {
    HeaderScanMismatch(files.detailed);
    if HeaderScan(files.detailed).mismatch.None? {
      HeaderScanInterrupted(files.detailed);
    }
  }

  /** The properties every returned result has. */
  predicate Reported(r: PipelineResult)
  {
    r.status != Processing
    && (r.reusedExisting == Some(true) ==> r.cacheId == Some(Str(ReusedOutput)) && r.executionStatus == Some(Str("SUCCESS")))
    && (r.comparison.Some? && r.comparison.value.error == Some(InterruptedMessage) ==> r.status == Interrupted)
    && (r.isBuggy == Given(true) <==> r.status == Buggy)
    && (r.isBuggy == Given(false) <==> r.status == NotBuggy)
    && (r.status == Buggy ==> r.comparison.Some? && r.comparison.value.withDifferences > 0
                              && r.totalCellDifferences == Some(SumTotals(r.comparison.value.detailed)))
    && ((r.status == Buggy || r.status == NotBuggy) ==>
          r.comparison.Some? && r.comparison.value.error.None? && r.executionStatus == Some(Str("SUCCESS"))
          && r.preserveMissingValues.Some?)
  }

  /** A result as the validation leaves it for the run. */
  predicate Unrun(r: PipelineResult)
  {
    r.status == Processing && r.reusedExisting.None? && r.cacheId.None? && r.executionStatus.None?
    && r.comparison.None? && r.preserveMissingValues.None? && r.isBuggy == Missing && r.totalCellDifferences.None?
  }

  lemma {:induction false} PrepareFacts(sv: Services, entry: Entry)
    ensures var (r, prepared) := Prepare(sv, entry);
      r.name == entry.name
      && (prepared.Some? ==> Unrun(r) && r.title == Some(prepared.value.0))
      && (prepared.None? ==> Reported(r) && r.status == Error)
    ensures var (r, prepared) := Prepare(sv, entry);
      LoadSteps(sv, entry).Ok? ==> r.title == Some(LoadSteps(sv, entry).value.0)
    ensures var (r, prepared) := Prepare(sv, entry);
      LoadSteps(sv, entry).Err? ==> r.title.None? && prepared.None?
  {
  }

  /**
   * A "pipeline" value that is not a list still gets the spec's title on
   * the error record: validation raises on it (TypeError for a number,
   * a boolean or null; AttributeError or "No dump_to_s3 step" for a string
   * or a dict, whose elements are strings), and it is never accepted.
   */
  lemma {:induction false} PrepareNonListSteps(sv: Services, entry: Entry)
    requires LoadSteps(sv, entry).Ok? && !LoadSteps(sv, entry).value.1.Arr?
    ensures var (r, prepared) := Prepare(sv, entry);
      prepared.None? && r.status == Error && r.title == Some(LoadSteps(sv, entry).value.0)
      && (Elements(LoadSteps(sv, entry).value.1).None? ==> r.errors == [Exception(StepsNotIterable)])
  {
    var pipeline := LoadSteps(sv, entry).value.1;
    match Elements(pipeline)
    case None =>
    case Some(steps) =>
      if steps != [] {
        assert !steps[0].Obj?;
        assert !AllDicts(steps);
      }
  }

  /**
   * Reuse or run: the comparison follows (status still "processing") only
   * after a reused output or a run that ended in "SUCCESS"; reused output
   * is marked with the REUSED_EXISTING_OUTPUT cache id; otherwise the
   * result is "interrupted" or "error".
   */
  lemma {:induction false} ExecuteFacts(sv: Services, r: PipelineResult, title: string, preserve: bool, s: Shutdown, read: nat)
    requires Unrun(r)
    ensures var e := Execute(sv, r, title, preserve, s, read).0;
      e.name == r.name && e.comparison.None? && e.preserveMissingValues.None? && e.totalCellDifferences.None?
      && (e.reusedExisting == Some(true) ==> e.cacheId == Some(Str(ReusedOutput)) && e.executionStatus == Some(Str("SUCCESS")))
      && (e.reusedExisting == Some(true) <==> sv.outputExists(preserve)(TestLocation(title)))
    ensures var (e, read') := Execute(sv, r, title, preserve, s, read);
      read <= read'
      && (e.status == Processing ==> e.executionStatus == Some(Str("SUCCESS")) && e.isBuggy == Missing)
      && (e.status != Processing ==> read < read' && (e.status == Interrupted || e.status == Error) && Reported(e))
  {
    ExecuteStatus(sv, r, title, preserve, s, read);
  }

  lemma {:induction false} ExecuteStatus(sv: Services, r: PipelineResult, title: string, preserve: bool, s: Shutdown, read: nat)
    requires Unrun(r)
    ensures var (e, read') := Execute(sv, r, title, preserve, s, read);
      read <= read' && (e.status == Processing ==> e.executionStatus == Some(Str("SUCCESS")) && e.isBuggy == Missing)
    ensures var (e, read') := Execute(sv, r, title, preserve, s, read);
      e.status != Processing ==> read < read' && (e.status == Interrupted || e.status == Error) && Reported(e)
  {
    if !sv.outputExists(preserve)(TestLocation(title)) && !IsSet(s, read) && Submit(sv.submitReplies(preserve)).Ok? {
      PollOutcome(sv.statusReplies(preserve), s, read + 1, 0, sv.fuel);
      ExecuteStopped(sv, r, title, preserve, s, read);
    }
  }

  /** The submitted branch: a run that stopped before the comparison is reported. */
  lemma {:induction false} ExecuteStopped(sv: Services, r: PipelineResult, title: string, preserve: bool, s: Shutdown, read: nat)
    requires Unrun(r) && !sv.outputExists(preserve)(TestLocation(title)) && !IsSet(s, read)
    requires Submit(sv.submitReplies(preserve)).Ok?
    ensures var (e, read') := Execute(sv, r, title, preserve, s, read);
      e.status != Processing ==> (e.status == Interrupted || e.status == Error) && Reported(e)
  {
  }

  lemma {:induction false} DecideFacts(r: PipelineResult, files: Files, read: nat, preserve: bool, s: Shutdown)
    requires r.status == Processing && r.executionStatus == Some(Str("SUCCESS")) && r.isBuggy == Missing && r.preserveMissingValues.None?
    requires r.reusedExisting == Some(true) ==> r.cacheId == Some(Str(ReusedOutput))
    requires files.error.Some? ==> files.error == Some(InterruptedMessage)
    ensures var o := Decide(r, files, read, preserve, s);
      (o.RerunFrom? ==> preserve && read < o.read && NeedsRerun(files.detailed))
      && (o.Done? ==>
            Reported(o.result) && read <= o.read && o.result.status != Skipped && o.result.name == r.name
            && (o.result.preserveMissingValues.Some? ==> o.result.preserveMissingValues == Some(preserve))
            && (o.result.preserveMissingValues == Some(true) ==>
                  0 < o.read && o.result.comparison.Some? && (!NeedsRerun(o.result.comparison.value.detailed) || IsSet(s, o.read - 1))))
  {
    ClassifyPrecedence(r.(comparison := Some(files), preserveMissingValues := Some(preserve)), files);
  }

  /**
   * One pass: a flag set on entry skips the entry, a rerun is asked for only
   * with preservation on, and every other pass ends reported, with the
   * preservation setting recorded only when the comparison ran.
   */
  lemma {:induction false} PassFacts(sv: Services, entry: Entry, preserve: bool, s: Shutdown, read: nat)
    requires ServicesOk(sv)
    ensures var o := Pass(sv, entry, preserve, s, read);
      read < o.read
      && (IsSet(s, read) ==> o == Done(SkippedAtStart(entry.name), read + 1))
      && (o.RerunFrom? ==> preserve)
    ensures var o := Pass(sv, entry, preserve, s, read);
      o.Done? ==>
        Reported(o.result) && o.result.name == entry.name
        && (o.result.status == Skipped <==> IsSet(s, read))
        && (o.result.preserveMissingValues.Some? ==> o.result.preserveMissingValues == Some(preserve))
        && (o.result.preserveMissingValues == Some(true) ==>
              o.result.comparison.Some? && (!NeedsRerun(o.result.comparison.value.detailed) || IsSet(s, o.read - 1)))
  {
    if !IsSet(s, read) {
      PrepareFacts(sv, entry);
      var (r, prepared) := Prepare(sv, entry);
      if prepared.Some? {
        var title := prepared.value.0;
        ExecuteFacts(sv, r, title, preserve, s, read + 1);
        ExecuteStatus(sv, r, title, preserve, s, read + 1);
        var (executed, read1) := Execute(sv, r, title, preserve, s, read + 1);
        if executed.status == Processing {
          ComparedFacts(sv.store, executed, title, prepared.value.1.originalPrefix, preserve, s, read1);
        }
      }
    }
  }

  lemma {:induction false} ComparedFacts(store: Store, executed: PipelineResult, title: string, originalPrefix: Value, preserve: bool, s: Shutdown, read: nat)
    requires StoreOk(store)
    requires executed.status == Processing && executed.executionStatus == Some(Str("SUCCESS")) && executed.isBuggy == Missing
    requires executed.preserveMissingValues.None?
    requires executed.reusedExisting == Some(true) ==> executed.cacheId == Some(Str(ReusedOutput))
    ensures var o := Compared(store, executed, title, originalPrefix, preserve, s, read);
      read < o.read && (o.RerunFrom? ==> preserve)
      && (o.Done? ==>
            Reported(o.result) && o.result.status != Skipped && o.result.name == executed.name
            && (o.result.preserveMissingValues.Some? ==> o.result.preserveMissingValues == Some(preserve))
            && (o.result.preserveMissingValues == Some(true) ==>
                  o.result.comparison.Some? && (!NeedsRerun(o.result.comparison.value.detailed) || IsSet(s, o.read - 1))))
  {
    CompareFilesOutcome(store, TestLocation(title), PrefixText(originalPrefix), s, read);
    var (files, read') := CompareFiles(store, TestLocation(title), PrefixText(originalPrefix), s, read);
    DecideFacts(executed, files, read', preserve, s);
  }

  /**
   * process_pipeline: the entry is reported with a final status; a flag set
   * on entry skips it; a result records preservation on only when no
   * uninterrupted comparison held a cell the original left empty, or the
   * flag was set when that was decided; otherwise the entry was rerun
   * without preservation.
   */
  lemma {:induction false} ProcessOutcome(sv: Services, entry: Entry, preserve: bool, s: Shutdown, read: nat)
    requires ServicesOk(sv)
    ensures var (r, read') := Process(sv, entry, preserve, s, read);
      read < read' && Reported(r) && r.name == entry.name
      && (IsSet(s, read) ==> r == SkippedAtStart(entry.name))
      && (r.status == Skipped ==> IsSet(s, read' - 1))
    ensures var (r, read') := Process(sv, entry, preserve, s, read);
      (!preserve ==> r.preserveMissingValues != Some(true))
      && (r.preserveMissingValues == Some(true) ==>
            preserve && r.comparison.Some? && (!NeedsRerun(r.comparison.value.detailed) || IsSet(s, read' - 1)))
  {
    PassFacts(sv, entry, preserve, s, read);
    var first := Pass(sv, entry, preserve, s, read);
    if first.RerunFrom? {
      PassFacts(sv, entry, false, s, first.read);
      var second := Pass(sv, entry, false, s, first.read);
      assert second.Done?;
    }
  }
}
