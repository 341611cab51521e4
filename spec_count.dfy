/**
 * The pipeline-spec step counter: every "pipeline-spec.yaml" object in
 * the dump bucket yields one entry with its step count (0 and the error
 * message when it cannot be read or parsed), the entries are ordered by
 * creation date, and the smallest and largest counts are reported over
 * the entries without an error.
 */
module SpecCount {
  import opened Wrappers
  import opened Json
  import opened Text
  import opened Sorting

  /** A listed object: its key and its LastModified time in ISO form. */
  datatype Listed = Listed(key: string, created: string)

  /** Reading and parsing one object: its YAML document, or the exception's message. */
  datatype Parsed = Parsed(doc: Value) | Failed(message: string)

  type Reader = string -> Parsed

  /** One entry of `pipeline_data`. */
  datatype Entry = Entry(path: string, created: string, steps: nat, error: Option<string>)

  predicate IsSpec(key: string) { EndsWith(key, "pipeline-spec.yaml") }

  /** A top-level value that holds the pipeline. */
  predicate HoldsPipeline(v: Value) { v.Obj? && Has(v, "pipeline") }

  /** The step count from the first top-level value holding a pipeline. */
  function FirstPipelineSteps(entries: seq<(string, Value)>): nat
  {
    if entries == [] then 0
    else if HoldsPipeline(entries[0].1) then
      var steps := At(entries[0].1, "pipeline");
      if steps.Arr? then |steps.items| else 0
    else FirstPipelineSteps(entries[1..])
  }

  /** The number of steps: 0 unless the document is a mapping with a pipeline list. */
  function StepCount(doc: Value): nat
  {
    if doc.Obj? then FirstPipelineSteps(doc.entries) else 0
  }

  function EntryOf(obj: Listed, read: Reader): Entry
  {
    match read(obj.key)
    case Parsed(doc) => Entry(obj.key, obj.created, StepCount(doc), None)
    case Failed(message) => Entry(obj.key, obj.created, 0, Some(message))
  }

  /** The entries one page's objects yield, in listing order. */
  function PageEntries(objs: seq<Listed>, read: Reader): seq<Entry>
  {
    if objs == [] then []
    else
      var last := objs[|objs| - 1];
      PageEntries(objs[..|objs| - 1], read) + (if IsSpec(last.key) then [EntryOf(last, read)] else [])
  }

  /** The entries of every page; a page without "Contents" yields none. */
  function Entries(pages: seq<Option<seq<Listed>>>, read: Reader): seq<Entry>
  {
    if pages == [] then []
    else
      var last := pages[|pages| - 1];
      Entries(pages[..|pages| - 1], read) + (if last.Some? then PageEntries(last.value, read) else [])
  }

  /** Ordering by creation date, as the sort's key compares. */
  predicate Earlier(a: Entry, b: Entry) { TextLe(a.created, b.created) }

  /** The loop over the pages: the file counter and the entries, then the sort. */
  method Analyze(pages: seq<Option<seq<Listed>>>, read: Reader) returns (total: nat, data: seq<Entry>)
    ensures total == |Entries(pages, read)|
    ensures data == Sort(Entries(pages, read), Earlier)
  {
    total := 0;
    data := [];
    for i := 0 to |pages|
      invariant data == Entries(pages[..i], read)
      invariant total == |data|
    {
      assert pages[..i + 1][..i] == pages[..i];
      if pages[i].Some? {
        var objs := pages[i].value;
        for j := 0 to |objs|
          invariant data == Entries(pages[..i], read) + PageEntries(objs[..j], read)
          invariant total == |data|
        {
          assert objs[..j + 1][..j] == objs[..j];
          if IsSpec(objs[j].key) {
            total := total + 1;
            data := data + [EntryOf(objs[j], read)];
          }
        }
        assert objs[..|objs|] == objs;
      }
    }
    assert pages[..|pages|] == pages;
    data := Sort(data, Earlier);
  }

  /** The step counts of the entries without an error, in order. */
  function Counted(data: seq<Entry>): seq<nat>
  {
    if data == [] then []
    else
      var last := data[|data| - 1];
      Counted(data[..|data| - 1]) + (if last.error.None? then [last.steps] else [])
  }

  function MinOf(s: seq<nat>): (m: nat)
    requires s != []
    ensures m in s && forall x :: x in s ==> m <= x
  {
    if |s| == 1 then s[0]
    else
      var rest := MinOf(s[..|s| - 1]);
      assert forall x :: x in s ==> x in s[..|s| - 1] || x == s[|s| - 1];
      if s[|s| - 1] < rest then s[|s| - 1] else rest
  }

  function MaxOf(s: seq<nat>): (m: nat)
    requires s != []
    ensures m in s && forall x :: x in s ==> x <= m
  {
    if |s| == 1 then s[0]
    else
      var rest := MaxOf(s[..|s| - 1]);
      assert forall x :: x in s ==> x in s[..|s| - 1] || x == s[|s| - 1];
      if s[|s| - 1] > rest then s[|s| - 1] else rest
  }

  /** The summary line's minimum and maximum, printed only when some entry has no error. */
  function Summary(data: seq<Entry>): Option<(nat, nat)>
  {
    var counts := Counted(data);
    if counts == [] then None else Some((MinOf(counts), MaxOf(counts)))
  }
}

module SpecCountFacts {
  import opened Wrappers
  import opened Json
  import opened Sorting
  import opened SpecCount

  /** The spec objects of every page, in listing order. */
  function SpecObjects(pages: seq<Option<seq<Listed>>>): seq<Listed>
  {
    if pages == [] then []
    else
      var last := pages[|pages| - 1];
      SpecObjects(pages[..|pages| - 1]) + (if last.Some? then PageSpecs(last.value) else [])
  }

  function PageSpecs(objs: seq<Listed>): seq<Listed>
  {
    if objs == [] then []
    else
      var last := objs[|objs| - 1];
      PageSpecs(objs[..|objs| - 1]) + (if IsSpec(last.key) then [last] else [])
  }

  lemma {:induction false} PageEntriesOf(objs: seq<Listed>, read: Reader)
    ensures |PageEntries(objs, read)| == |PageSpecs(objs)|
    ensures forall i :: 0 <= i < |PageSpecs(objs)| ==> PageEntries(objs, read)[i] == EntryOf(PageSpecs(objs)[i], read)
    ensures forall o :: o in PageSpecs(objs) <==> o in objs && IsSpec(o.key)
  {
    if objs != [] {
      PageEntriesOf(objs[..|objs| - 1], read);
      assert objs == objs[..|objs| - 1] + [objs[|objs| - 1]];
    }
  }

  /**
   * Every spec object yields exactly one entry, in listing order, so the
   * entry count is the spec file count; no other object yields one.
   */
  lemma {:induction false} EntriesOf(pages: seq<Option<seq<Listed>>>, read: Reader)
    ensures |Entries(pages, read)| == |SpecObjects(pages)|
    ensures forall i :: 0 <= i < |SpecObjects(pages)| ==> Entries(pages, read)[i] == EntryOf(SpecObjects(pages)[i], read)
    ensures forall o :: o in SpecObjects(pages) ==> IsSpec(o.key)
  {
    if pages != [] {
      EntriesOf(pages[..|pages| - 1], read);
      var last := pages[|pages| - 1];
      if last.Some? {
        PageEntriesOf(last.value, read);
      }
    }
  }

  /** An entry has its object's key and date; a read failure gives 0 steps and the message. */
  lemma EntryOfFacts(obj: Listed, read: Reader)
    ensures EntryOf(obj, read).path == obj.key && EntryOf(obj, read).created == obj.created
    ensures EntryOf(obj, read).error.Some? <==> read(obj.key).Failed?
    ensures read(obj.key).Failed? ==> EntryOf(obj, read).steps == 0 && EntryOf(obj, read).error == Some(read(obj.key).message)
    ensures read(obj.key).Parsed? ==> EntryOf(obj, read).steps == StepCount(read(obj.key).doc)
  {
  }

  /**
   * A positive step count is the length of the pipeline list of the first
   * top-level mapping that holds a pipeline.
   */
  lemma {:induction false} FirstPipelineFacts(entries: seq<(string, Value)>)
    ensures FirstPipelineSteps(entries) > 0 ==>
      exists i :: 0 <= i < |entries| && HoldsPipeline(entries[i].1)
        && (forall j :: 0 <= j < i ==> !HoldsPipeline(entries[j].1))
        && At(entries[i].1, "pipeline").Arr? && FirstPipelineSteps(entries) == |At(entries[i].1, "pipeline").items|
    ensures (forall j :: 0 <= j < |entries| ==> !HoldsPipeline(entries[j].1)) ==> FirstPipelineSteps(entries) == 0
  {
    if entries != [] && !HoldsPipeline(entries[0].1) {
      FirstPipelineFacts(entries[1..]);
      if FirstPipelineSteps(entries) > 0 {
        var i :| 0 <= i < |entries[1..]| && HoldsPipeline(entries[1..][i].1)
          && (forall j :: 0 <= j < i ==> !HoldsPipeline(entries[1..][j].1))
          && At(entries[1..][i].1, "pipeline").Arr? && FirstPipelineSteps(entries[1..]) == |At(entries[1..][i].1, "pipeline").items|;
        assert HoldsPipeline(entries[i + 1].1);
        assert forall j :: 0 <= j < i + 1 ==> !HoldsPipeline(entries[j].1) by {
          forall j | 0 <= j < i + 1 ensures !HoldsPipeline(entries[j].1) {
            if j > 0 {
              assert entries[j] == entries[1..][j - 1];
            }
          }
        }
      }
      if forall j :: 0 <= j < |entries| ==> !HoldsPipeline(entries[j].1) {
        assert forall j :: 0 <= j < |entries[1..]| ==> !HoldsPipeline(entries[1..][j].1) by {
          forall j | 0 <= j < |entries[1..]| ensures !HoldsPipeline(entries[1..][j].1) {
            assert entries[1..][j] == entries[j + 1];
          }
        }
      }
    }
  }

  /** A document that is not a mapping, or whose pipeline is not a list, counts 0 steps. */
  lemma NotMappingCountsZero(doc: Value)
    requires !doc.Obj?
    ensures StepCount(doc) == 0
  {
  }

  lemma EarlierOrders()
    ensures TotalPreorder(Earlier)
  {
    forall a, b
      ensures Earlier(a, b) || Earlier(b, a)
    {
      TextLeTotal(a.created, b.created);
    }
    forall a, b, c | Earlier(a, b) && Earlier(b, c)
      ensures Earlier(a, c)
    {
      TextLeTransitive(a.created, b.created, c.created);
    }
  }

  /** The saved list holds the same entries, ascending by creation date. */
  lemma {:induction false} AnalysisOrdered(pages: seq<Option<seq<Listed>>>, read: Reader)
    ensures multiset(Sort(Entries(pages, read), Earlier)) == multiset(Entries(pages, read))
    ensures Sorted(Sort(Entries(pages, read), Earlier), Earlier)
  {
    SortPermutes(Entries(pages, read), Earlier);
    EarlierOrders();
    SortSorted(Entries(pages, read), Earlier);
  }

  /** The counted step counts are those of the entries without an error. */
  lemma {:induction false} CountedOf(data: seq<Entry>, n: nat)
    ensures n in Counted(data) <==> exists e :: e in data && e.error.None? && e.steps == n
  {
    if data != [] {
      var init := data[..|data| - 1];
      CountedOf(init, n);
      assert data == init + [data[|data| - 1]];
      if exists e :: e in data && e.error.None? && e.steps == n {
        var e :| e in data && e.error.None? && e.steps == n;
        if e != data[|data| - 1] {
          assert e in init;
        }
      }
    }
  }

  /**
   * The summary's minimum and maximum are step counts of error-free
   * entries and bound all of them; there is none when every entry failed.
   */
  lemma SummaryFacts(data: seq<Entry>)
    ensures Summary(data).None? <==> forall e :: e in data ==> e.error.Some?
    ensures Summary(data).Some? ==>
      var (lo, hi) := Summary(data).value;
      (exists e :: e in data && e.error.None? && e.steps == lo)
      && (exists e :: e in data && e.error.None? && e.steps == hi)
      && forall e :: e in data && e.error.None? ==> lo <= e.steps <= hi
  {
    forall n {
      CountedOf(data, n);
    }
    if exists e :: e in data && e.error.None? {
      var e :| e in data && e.error.None?;
      assert e.steps in Counted(data);
    }
    if Summary(data).Some? {
      forall e | e in data && e.error.None? ensures e.steps in Counted(data) {
      }
    }
  }
}
