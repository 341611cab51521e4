/**
 * The driver of laminar_floating_point_error/process.py: main hands every
 * entry to a worker, stores each result in the slot of its input index
 * until a flag read sees the shutdown flag set, fills every slot still
 * empty with a "skipped" record, and save_results condenses the records
 * into the summary counts.
 *
 * The worker pool is modelled sequentially: `order` is the order in which
 * the pool hands back the finished entries, and each worker's flag reads
 * are numbered in that order, before main's own read for that entry.
 */
module ProcessMain {
  import opened Wrappers
  import opened Json
  import opened Lists
  import opened Interrupt
  import opened ProcessHttp
  import opened ProcessCompare
  import opened ProcessFiles
  import opened ProcessPipeline

  /** `pipelines[i].get("pipeline_name", "Unknown")` */
  function ListedName(entry: Entry): Value
  {
    if entry.nameKey.Some? then entry.nameKey.value else Str("Unknown")
  }

  /** The record main writes into a slot that no result reached. */
  function Unprocessed(entry: Entry): PipelineResult
  {
    Initial(ListedName(entry)).(status := Skipped, errors := [NotProcessed])
  }

  /** Every finished future names one of the submitted entries. */
  predicate InRange(order: seq<nat>, n: nat)
  {
    forall k :: 0 <= k < |order| ==> order[k] < n
  }

  /** `[None] * len(pipelines)` */
  function NoSlots(n: nat): seq<Option<PipelineResult>>
  {
    seq(n, _ => None)
  }

  /** A worker: process_pipeline_with_index on one entry, from a flag read number on. */
  type Worker = (Entry, nat) -> (PipelineResult, nat)

  /** The worker runs process_pipeline with preservation on, against the services `sv`. */
  ghost predicate Runs(sv: Services, s: Shutdown, run: Worker)
  {
    ServicesOk(sv) && forall e, r {:trigger Process(sv, e, true, s, r)} :: run(e, r) == Process(sv, e, true, s, r)
  }

  /**
   * The completion loop from the `k`-th finished entry on: the worker's
   * result goes to the entry's own slot unless main's flag read, made
   * after the worker finished, sees the flag set, which ends the loop.
   */
  function Collect(run: Worker, entries: seq<Entry>, order: seq<nat>, k: nat,
                   slots: seq<Option<PipelineResult>>, s: Shutdown, read: nat): (r: (seq<Option<PipelineResult>>, nat))
    requires k <= |order| && |slots| == |entries| && InRange(order, |entries|)
    ensures |r.0| == |slots|
    decreases |order| - k
  {
    if k == |order| then (slots, read)
    else
      var (r, read1) := run(entries[order[k]], read);
      if IsSet(s, read1) then (slots, read1 + 1)
      else Collect(run, entries, order, k + 1, slots[order[k] := Some(r)], s, read1 + 1)
  }

  /** The slots after the "skipped" fill-in. */
  function Complete(slots: seq<Option<PipelineResult>>, entries: seq<Entry>): seq<PipelineResult>
    requires |slots| == |entries|
  {
    seq(|slots|, i requires 0 <= i < |slots| => if slots[i].Some? then slots[i].value else Unprocessed(entries[i]))
  }

  /** `[r for r in results if r is not None]` */
  function Present(slots: seq<Option<PipelineResult>>): seq<PipelineResult>
  {
    if slots == [] then []
    else (if slots[0].Some? then [slots[0].value] else []) + Present(slots[1..])
  }

  /** One author's entry in "authors_with_buggy_pipelines". */
  datatype AuthorBugs = AuthorBugs(author: Value, count: nat, orcid: Value, pipelines: seq<Value>)

  /** `pipeline.get("pipeline_title")` */
  function TitleValue(r: PipelineResult): Value
  {
    if r.title.Some? then Str(r.title.value) else Null
  }

  /** The position of an author's entry, if the author has one. */
  function IndexOf(tally: seq<AuthorBugs>, author: Value): (i: Option<nat>)
    ensures i.Some? ==> i.value < |tally| && tally[i.value].author == author
    ensures i.None? ==> forall j :: 0 <= j < |tally| ==> tally[j].author != author
  {
    if tally == [] then None
    else if tally[|tally| - 1].author == author then Some(|tally| - 1)
    else IndexOf(tally[..|tally| - 1], author)
  }

  /** One iteration of the author loop: a pipeline with a truthy author name counts for that author. */
  function AddBug(tally: seq<AuthorBugs>, p: PipelineResult): seq<AuthorBugs>
  {
    if !Truthy(p.authorName) then tally
    else match IndexOf(tally, p.authorName)
      case Some(i) => tally[i := tally[i].(count := tally[i].count + 1, pipelines := tally[i].pipelines + [TitleValue(p)])]
      case None => tally + [AuthorBugs(p.authorName, 1, p.authorOrcid, [TitleValue(p)])]
  }

  /** The author loop over the buggy pipelines, in their order. */
  function Tally(ps: seq<PipelineResult>): seq<AuthorBugs>
  {
    if ps == [] then [] else AddBug(Tally(ps[..|ps| - 1]), ps[|ps| - 1])
  }

  predicate IsBuggyResult(r: PipelineResult) { r.isBuggy == Given(true) }
  predicate IsError(r: PipelineResult) { r.status == Error }
  predicate IsInterrupted(r: PipelineResult) { r.status == Interrupted }
  predicate IsSkipped(r: PipelineResult) { r.status == Skipped }
  predicate IsReused(r: PipelineResult) { r.reusedExisting == Some(true) }
  predicate IsCompleted(r: PipelineResult) { r.status != Interrupted && r.status != Skipped }
  predicate IsNewlyExecuted(r: PipelineResult) { r.reusedExisting == Some(false) && r.status != Skipped && r.status != Error }
  predicate IsSuccessWithError(r: PipelineResult) { r.executionStatus == Some(Str("ERROR_WITH_SUCCESS")) }

  /** Some error message of the record mentions "HTTP/Network error", as `marked` tells of each message. */
  predicate HttpFailure(r: PipelineResult, marked: Message -> bool)
  {
    exists i :: 0 <= i < |r.errors| && marked(r.errors[i])
  }

  /** The comparison, or one of its detailed comparisons, was interrupted. */
  predicate ComparisonInterrupted(r: PipelineResult)
  {
    r.comparison.Some?
    && (r.comparison.value.error == Some(InterruptedMessage)
        || exists i :: 0 <= i < |r.comparison.value.detailed| && WasInterrupted(r.comparison.value.detailed[i]))
  }

  datatype Summary = Summary(
    expected: nat,
    processed: nat,
    completed: nat,
    buggy: nat,
    errors: nat,
    reused: nat,
    newlyExecuted: nat,
    successWithErrors: nat,
    httpErrors: nat,
    interrupted: nat,
    comparisonInterrupted: nat,
    skipped: nat,
    wasInterrupted: bool,
    authors: seq<AuthorBugs>,
    buggyPipelines: seq<PipelineResult>,
    errorPipelines: seq<PipelineResult>,
    interruptedPipelines: seq<PipelineResult>,
    allResults: seq<PipelineResult>)

  /** The summary of save_results, given the author table. */
  function Counts(results: seq<PipelineResult>, expected: nat, marked: Message -> bool, authors: seq<AuthorBugs>): Summary
  {
    var errors := Filter(results, IsError);
    var interrupted := Filter(results, IsInterrupted);
    var comparisonInterrupted := |Filter(results, ComparisonInterrupted)|;
    Summary(
      expected,
      |results|,
      |Filter(results, IsCompleted)|,
      |Filter(results, IsBuggyResult)|,
      |errors|,
      |Filter(results, IsReused)|,
      |Filter(results, IsNewlyExecuted)|,
      |Filter(errors, IsSuccessWithError)|,
      |Filter(errors, r => HttpFailure(r, marked))|,
      |interrupted|,
      comparisonInterrupted,
      |Filter(results, IsSkipped)|,
      expected != |results| || |interrupted| > 0 || comparisonInterrupted > 0,
      authors,
      Filter(results, IsBuggyResult),
      errors,
      interrupted,
      results)
  }

  /** save_results, without the timestamp and the file write. */
  function Summarize(results: seq<PipelineResult>, expected: nat, marked: Message -> bool): Summary
  {
    Counts(results, expected, marked, Tally(Filter(results, IsBuggyResult)))
  }

  /** The author loop of save_results. */
  method CollectAuthors(buggy: seq<PipelineResult>) returns (tally: seq<AuthorBugs>)
    ensures tally == Tally(buggy)
  {
    tally := [];
    for i := 0 to |buggy|
      invariant tally == Tally(buggy[..i])
    {
      assert buggy[..i + 1][..i] == buggy[..i];
      var p := buggy[i];
      var author := p.authorName;
      if Truthy(author) {
        var at := IndexOf(tally, author);
        if at.Some? {
          var j := at.value;
          tally := tally[j := tally[j].(count := tally[j].count + 1, pipelines := tally[j].pipelines + [TitleValue(p)])];
        } else {
          tally := tally + [AuthorBugs(author, 1, p.authorOrcid, [TitleValue(p)])];
        }
      }
    }
    assert buggy[..|buggy|] == buggy;
  }

  /** save_results */
  method SaveResults(results: seq<PipelineResult>, expected: nat, marked: Message -> bool) returns (summary: Summary)
    ensures summary == Summarize(results, expected, marked)
  {
    var authors := CollectAuthors(Filter(results, IsBuggyResult));
    summary := Counts(results, expected, marked, authors);
  }

  /** process_pipeline_with_index, run by worker `thread`. */
  method Work(sv: Services, ghost run: Worker, registry: Registry, thread: nat, entry: Entry, s: Shutdown, read: nat)
    returns (result: PipelineResult, read': nat)
    requires Runs(sv, s, run) && thread !in registry.active
    modifies registry
    ensures (result, read') == run(entry, read)
    ensures registry.active == old(registry.active)
  {
    result, read' := ProcessPipeline.ProcessPipeline(sv, registry, thread, entry, true, s, read);
  }

  /** The submission and completion loops of main. */
  method CollectResults(sv: Services, ghost run: Worker, entries: seq<Entry>, order: seq<nat>, s: Shutdown, read: nat)
    returns (slots: array<Option<PipelineResult>>, read': nat)
    requires Runs(sv, s, run) && InRange(order, |entries|)
    ensures fresh(slots) && slots.Length == |entries|
    ensures (slots[..], read') == Collect(run, entries, order, 0, NoSlots(|entries|), s, read)
  {
    slots := new Option<PipelineResult>[|entries|](_ => None);
    assert slots[..] == NoSlots(|entries|);
    var registry := new Registry();
    read' := read;
    var k := 0;
    while k < |order|
      invariant k <= |order| && slots.Length == |entries|
      invariant registry.active == map[]
      invariant Collect(run, entries, order, 0, NoSlots(|entries|), s, read) == Collect(run, entries, order, k, slots[..], s, read')
      decreases |order| - k
    {
      var index := order[k];
      ghost var before := slots[..];
      var result, read1 := Work(sv, run, registry, index, entries[index], s, read');
      if IsSet(s, read1) {
        read' := read1 + 1;
        return;
      }
      slots[index] := Some(result);
      assert slots[..] == before[index := Some(result)];
      read' := read1 + 1;
      k := k + 1;
    }
  }

  /** The "skipped" fill-in of main. */
  method FillSkipped(slots: array<Option<PipelineResult>>, entries: seq<Entry>)
    requires slots.Length == |entries|
    modifies slots
    ensures forall i :: 0 <= i < slots.Length ==> slots[i] == Some(Complete(old(slots[..]), entries)[i])
  {
    for i := 0 to slots.Length
      invariant forall j :: 0 <= j < i ==> slots[j] == Some(Complete(old(slots[..]), entries)[j])
      invariant forall j :: i <= j < slots.Length ==> slots[j] == old(slots[j])
    {
      if slots[i].None? {
        slots[i] := Some(Unprocessed(entries[i]));
      }
    }
  }

  /** The slots after the fill-in hold every record, in input order. */
  lemma {:induction false} PresentAll(slots: seq<Option<PipelineResult>>)
    requires forall i :: 0 <= i < |slots| ==> slots[i].Some?
    ensures |Present(slots)| == |slots|
    ensures forall i :: 0 <= i < |slots| ==> Present(slots)[i] == slots[i].value
  {
    if slots != [] {
      PresentAll(slots[1..]);
    }
  }

  /** main, after the pipelines are loaded: the summary it saves. */
  method RunMain(sv: Services, ghost run: Worker, entries: seq<Entry>, order: seq<nat>, marked: Message -> bool, s: Shutdown, read: nat)
    returns (summary: Summary, read': nat)
    requires Runs(sv, s, run) && InRange(order, |entries|)
    ensures var (collected, read1) := Collect(run, entries, order, 0, NoSlots(|entries|), s, read);
      summary == Summarize(Complete(collected, entries), |entries|, marked) && read' == read1
  {
    var slots;
    slots, read' := CollectResults(sv, run, entries, order, s, read);
    ghost var collected := slots[..];
    FillSkipped(slots, entries);
    PresentAll(slots[..]);
    var results := Present(slots[..]);
    assert results == Complete(collected, entries);
    summary := SaveResults(results, |entries|, marked);
  }
}

module ProcessMainFacts {
  import opened Wrappers
  import opened Json
  import opened Lists
  import opened Interrupt
  import opened ProcessPipeline
  import opened ProcessPipelineFacts
  import opened ProcessMain

  /** The titles of the pipelines by one author, in order: the reference for the author table. */
  function AuthorTitles(ps: seq<PipelineResult>, a: Value): seq<Value>
  {
    if ps == [] then []
    else AuthorTitles(ps[..|ps| - 1], a) + (if ps[|ps| - 1].authorName == a then [TitleValue(ps[|ps| - 1])] else [])
  }

  /** The orcid of the first pipeline by an author. */
  function FirstOrcid(ps: seq<PipelineResult>, a: Value): Value
  {
    if ps == [] then Null
    else if AuthorTitles(ps[..|ps| - 1], a) != [] then FirstOrcid(ps[..|ps| - 1], a)
    else if ps[|ps| - 1].authorName == a then ps[|ps| - 1].authorOrcid
    else Null
  }

  /** Each author has at most one entry. */
  predicate TallyDistinct(t: seq<AuthorBugs>)
  {
    forall i, j :: 0 <= i < j < |t| ==> t[i].author != t[j].author
  }

  /** Each entry is a truthy author with that author's titles, count and first orcid. */
  predicate TallyEntries(ps: seq<PipelineResult>, t: seq<AuthorBugs>)
  {
    forall i :: 0 <= i < |t| ==>
      Truthy(t[i].author) && t[i].pipelines == AuthorTitles(ps, t[i].author) && t[i].pipelines != []
      && t[i].count == |t[i].pipelines| && t[i].orcid == FirstOrcid(ps, t[i].author)
  }

  /** Every pipeline with a truthy author name has its author's entry. */
  predicate TallyCovers(ps: seq<PipelineResult>, t: seq<AuthorBugs>)
  {
    forall k :: 0 <= k < |ps| && Truthy(ps[k].authorName) ==> exists i :: 0 <= i < |t| && t[i].author == ps[k].authorName
  }

  predicate TallyOk(ps: seq<PipelineResult>, t: seq<AuthorBugs>)
  {
    TallyDistinct(t) && TallyEntries(ps, t) && TallyCovers(ps, t)
  }

  lemma {:induction false} AuthorTitlesSnoc(init: seq<PipelineResult>, p: PipelineResult, a: Value)
    ensures AuthorTitles(init + [p], a) == AuthorTitles(init, a) + (if p.authorName == a then [TitleValue(p)] else [])
    ensures FirstOrcid(init + [p], a) ==
      if AuthorTitles(init, a) != [] then FirstOrcid(init, a) else if p.authorName == a then p.authorOrcid else Null
  {
    assert (init + [p])[..|init|] == init;
  }

  lemma {:induction false} AuthorTitlesWitness(ps: seq<PipelineResult>, a: Value)
    requires AuthorTitles(ps, a) != []
    ensures exists k :: 0 <= k < |ps| && ps[k].authorName == a
  {
    var n := |ps| - 1;
    if ps[n].authorName != a {
      AuthorTitlesWitness(ps[..n], a);
      var k :| 0 <= k < n && ps[..n][k].authorName == a;
      assert ps[k] == ps[..n][k];
    }
  }

  /**
   * The author table has one entry per author with a truthy name, each
   * author once, counting that author's buggy pipelines, listing their
   * titles in order, with the orcid of the author's first pipeline.
   */
  lemma {:induction false} TallyFacts(ps: seq<PipelineResult>)
    ensures TallyOk(ps, Tally(ps))
  {
    if ps != [] {
      var n := |ps| - 1;
      var init := ps[..n];
      TallyFacts(init);
      assert ps == init + [ps[n]];
      AddBugFacts(init, ps[n], Tally(init));
    }
  }

  lemma {:induction false} AddBugFacts(init: seq<PipelineResult>, p: PipelineResult, t: seq<AuthorBugs>)
    requires TallyOk(init, t)
    ensures TallyOk(init + [p], AddBug(t, p))
  {
    if Truthy(p.authorName) && IndexOf(t, p.authorName).None? && AuthorTitles(init, p.authorName) != [] {
      AuthorTitlesWitness(init, p.authorName);
      assert false;
    }
    AddBugEntries(init, p, t);
    AddBugCovers(init, p, t);
  }

  lemma {:induction false} AddBugEntries(init: seq<PipelineResult>, p: PipelineResult, t: seq<AuthorBugs>)
    requires TallyDistinct(t) && TallyEntries(init, t)
    requires Truthy(p.authorName) && IndexOf(t, p.authorName).None? ==> AuthorTitles(init, p.authorName) == []
    ensures TallyDistinct(AddBug(t, p)) && TallyEntries(init + [p], AddBug(t, p))
  {
    forall a {
      AuthorTitlesSnoc(init, p, a);
    }
  }

  lemma {:induction false} AddBugCovers(init: seq<PipelineResult>, p: PipelineResult, t: seq<AuthorBugs>)
    requires TallyCovers(init, t)
    ensures TallyCovers(init + [p], AddBug(t, p))
  {
    var ps := init + [p];
    var t' := AddBug(t, p);
    forall k | 0 <= k < |ps| && Truthy(ps[k].authorName)
      ensures exists i :: 0 <= i < |t'| && t'[i].author == ps[k].authorName
    {
      if k < |init| {
        assert ps[k] == init[k];
        var i :| 0 <= i < |t| && t[i].author == ps[k].authorName;
        assert t'[i].author == ps[k].authorName;
      } else if IndexOf(t, p.authorName).Some? {
        assert t'[IndexOf(t, p.authorName).value].author == p.authorName;
      } else {
        assert t'[|t|].author == p.authorName;
      }
    }
  }

  /** The comparison itself, not one of its detailed comparisons, was interrupted. */
  predicate ComparisonStopped(r: PipelineResult)
  {
    r.comparison.Some? && r.comparison.value.error == Some(InterruptedMessage)
  }

  predicate IsBuggyStatus(r: PipelineResult) { r.status == Buggy }

  /**
   * The summary counts of reported results: completed, interrupted and
   * skipped records split the processed ones; buggy records are exactly
   * the "buggy" ones and never errors; reused and newly executed records
   * are distinct; the two error sub-counts stay within the errors; and
   * every interrupted comparison is counted among the interrupted records.
   */
  lemma {:induction false} SummaryFacts(results: seq<PipelineResult>, expected: nat, marked: Message -> bool)
    requires forall i :: 0 <= i < |results| ==> Reported(results[i])
    ensures var m := Summarize(results, expected, marked);
      m.completed + m.interrupted + m.skipped == m.processed == |results|
      && m.buggy == |Filter(results, IsBuggyStatus)| && m.buggy + m.errors <= m.processed
      && m.reused + m.newlyExecuted <= m.processed
      && m.successWithErrors <= m.errors && m.httpErrors <= m.errors
      && |Filter(results, ComparisonStopped)| <= m.interrupted
      && (m.wasInterrupted <==> expected != m.processed || m.interrupted > 0 || m.comparisonInterrupted > 0)
  {
    FilterPartition(results, IsCompleted, IsInterrupted, IsSkipped);
    FilterImplies(results, IsBuggyResult, IsBuggyStatus);
    FilterImplies(results, IsBuggyStatus, IsBuggyResult);
    FilterExclusive(results, IsBuggyResult, IsError);
    FilterExclusive(results, IsReused, IsNewlyExecuted);
    FilterImplies(results, ComparisonStopped, IsInterrupted);
  }

  /** What main relies on of a worker's result. */
  ghost predicate WorkerOk(s: Shutdown, run: Worker)
  {
    forall e, read: nat :: var (r, read') := run(e, read);
      read < read' && Reported(r) && r.name == e.name && (r.status == Skipped ==> IsSet(s, read' - 1))
  }

  /** process_pipeline is such a worker. */
  lemma {:induction false} RunFacts(sv: Services, s: Shutdown, run: Worker)
    requires Runs(sv, s, run)
    ensures WorkerOk(s, run)
  {
    forall e, read: nat
      ensures var (r, read') := run(e, read);
        read < read' && Reported(r) && r.name == e.name && (r.status == Skipped ==> IsSet(s, read' - 1))
    {
      ProcessOutcome(sv, e, true, s, read);
      assert run(e, read) == Process(sv, e, true, s, read);
    }
  }

  /** A slot is empty, or holds a reported result for its own entry, skipped only under a shutdown. */
  predicate SlotOk(slot: Option<PipelineResult>, e: Entry, s: Shutdown)
  {
    slot.Some? ==> Reported(slot.value) && slot.value.name == e.name && (slot.value.status == Skipped ==> s.AfterReads?)
  }

  /**
   * The completion loop fills slots only with results for their own
   * entries and never empties one; without a shutdown it fills the slot
   * of every entry handed back.
   */
  lemma {:induction false} CollectFacts(run: Worker, entries: seq<Entry>, order: seq<nat>, k: nat,
                                        slots: seq<Option<PipelineResult>>, s: Shutdown, read: nat)
    requires WorkerOk(s, run) && k <= |order| && |slots| == |entries| && InRange(order, |entries|)
    requires forall i :: 0 <= i < |slots| ==> SlotOk(slots[i], entries[i], s)
    ensures var (slots', read') := Collect(run, entries, order, k, slots, s, read);
      read <= read'
      && (forall i :: 0 <= i < |slots'| ==> SlotOk(slots'[i], entries[i], s))
      && (forall i :: 0 <= i < |slots| ==> slots[i].Some? ==> slots'[i].Some?)
      && (s == Never ==> forall j :: k <= j < |order| ==> slots'[order[j]].Some?)
    decreases |order| - k
  {
    if k < |order| {
      var e := entries[order[k]];
      var (r, read1) := run(e, read);
      assert read < read1 && Reported(r) && r.name == e.name && (r.status == Skipped ==> IsSet(s, read1 - 1));
      if !IsSet(s, read1) {
        var filled := slots[order[k] := Some(r)];
        assert SlotOk(Some(r), e, s);
        forall i | 0 <= i < |filled| ensures SlotOk(filled[i], entries[i], s) {
          if i != order[k] {
            assert filled[i] == slots[i];
          }
        }
        CollectFacts(run, entries, order, k + 1, filled, s, read1 + 1);
        var (slots', read') := Collect(run, entries, order, k + 1, filled, s, read1 + 1);
        assert Collect(run, entries, order, k, slots, s, read) == (slots', read');
        forall i | 0 <= i < |slots| && slots[i].Some? ensures slots'[i].Some? {
          assert filled[i].Some?;
        }
        if s == Never {
          forall j | k <= j < |order| ensures slots'[order[j]].Some? {
            if j == k {
              assert filled[order[k]].Some?;
            }
          }
        }
      }
    }
  }

  /** Every input index is among the entries handed back. */
  predicate Covers(order: seq<nat>, n: nat)
  {
    forall i :: 0 <= i < n ==> i in order
  }

  /** The fill-in completes the slots with reported records for their own entries. */
  lemma {:induction false} CompleteFacts(slots: seq<Option<PipelineResult>>, entries: seq<Entry>, s: Shutdown)
    requires |slots| == |entries| && forall i :: 0 <= i < |slots| ==> SlotOk(slots[i], entries[i], s)
    ensures var results := Complete(slots, entries);
      forall i :: 0 <= i < |results| ==>
        Reported(results[i]) && (results[i].name == entries[i].name || results[i] == Unprocessed(entries[i]))
        && (results[i].status == Skipped ==> s.AfterReads? || slots[i].None?)
  {
  }

  /**
   * main keeps every entry in its input slot: the summary covers exactly
   * the entries loaded, each record is reported and belongs to its entry
   * (by name, or as the "skipped" record written for it), and the shutdown
   * flag is the only reason main reports an interruption.
   */
  lemma {:induction false} MainFacts(run: Worker, entries: seq<Entry>, order: seq<nat>,
                                     marked: Message -> bool, s: Shutdown, read: nat)
    requires WorkerOk(s, run) && InRange(order, |entries|)
    ensures var m := Summarize(Complete(Collect(run, entries, order, 0, NoSlots(|entries|), s, read).0, entries), |entries|, marked);
      m.processed == m.expected == |entries|
      && (m.wasInterrupted <==> m.interrupted > 0 || m.comparisonInterrupted > 0)
      && (forall i :: 0 <= i < |entries| ==>
            Reported(m.allResults[i]) && (m.allResults[i].name == entries[i].name || m.allResults[i] == Unprocessed(entries[i])))
  {
    var slots := Collect(run, entries, order, 0, NoSlots(|entries|), s, read).0;
    CollectFacts(run, entries, order, 0, NoSlots(|entries|), s, read);
    CompleteFacts(slots, entries, s);
  }

  /** Without a shutdown, and with every entry handed back, main skips nothing. */
  lemma {:induction false} MainNothingSkipped(run: Worker, entries: seq<Entry>, order: seq<nat>,
                                              marked: Message -> bool, read: nat)
    requires WorkerOk(Never, run) && InRange(order, |entries|) && Covers(order, |entries|)
    ensures Summarize(Complete(Collect(run, entries, order, 0, NoSlots(|entries|), Never, read).0, entries), |entries|, marked).skipped == 0
  {
    var slots := Collect(run, entries, order, 0, NoSlots(|entries|), Never, read).0;
    CollectFacts(run, entries, order, 0, NoSlots(|entries|), Never, read);
    var results := Complete(slots, entries);
    CompleteFacts(slots, entries, Never);
    forall i | 0 <= i < |results|
      ensures !IsSkipped(results[i])
    {
      assert i in order;
      var j :| 0 <= j < |order| && order[j] == i;
    }
    FilterNone(results, IsSkipped);
  }
}
