/**
 * Validation and rewrite of a pipeline's steps before a test run
 * (validate_and_modify_pipeline_steps in
 * laminar_floating_point_error/process.py): the pipeline must have exactly
 * one dump_to_s3 step, as its last step; a copy of the steps is returned
 * with that step's output prefix pointed at the test location, together
 * with the old prefix and the author and submission metadata.
 */
module ProcessSteps {
  import opened Wrappers
  import opened Json

  const DumpRun: string := "bcodmo_pipeline_processors.dump_to_s3"
  const TestPrefix: string := "EXCEL_BUG_TEST"

  /** Why the validation raised. */
  datatype StepsError =
    | NoDumpStep                                    // ValueError: none found
    | MultipleDumpSteps(positions: seq<nat>)        // ValueError: more than one
    | DumpNotLast(position: nat, count: nat)        // ValueError: not the last step
    | NotADict                                      // AttributeError: `.get` on a non-dict
    | MissingParameters                             // KeyError: 'parameters'

  datatype Metadata = Metadata(authorName: Value, authorOrcid: Value, submissionIds: Value)

  datatype Validated = Validated(steps: seq<Value>, originalPrefix: Value, metadata: Metadata)

  predicate IsDump(step: Value) { At(step, "run") == Str(DumpRun) }

  /** The positions of the dump_to_s3 steps, in order. */
  function DumpPositions(steps: seq<Value>): (r: seq<nat>)
    ensures forall k :: 0 <= k < |r| ==> r[k] < |steps| && IsDump(steps[r[k]])
    ensures forall i :: 0 <= i < |steps| && IsDump(steps[i]) ==> i in r
    ensures forall k, l :: 0 <= k < l < |r| ==> r[k] < r[l]
  {
    if steps == [] then []
    else
      var init := DumpPositions(steps[..|steps| - 1]);
      if IsDump(steps[|steps| - 1]) then init + [|steps| - 1] else init
  }

  /** Every step is a dict, so `step.get` does not raise. */
  predicate AllDicts(steps: seq<Value>) { forall i :: 0 <= i < |steps| ==> steps[i].Obj? }

  function TestLocation(title: string): string { TestPrefix + "/" + title }

  /** The result the source computes, or the exception it raises. */
  function Validate(steps: seq<Value>, title: string): (r: Result<Validated, StepsError>)
    ensures !AllDicts(steps) ==> r == Err(NotADict)
    ensures r.Ok? ==>
      DumpPositions(steps) == [|steps| - 1] && |r.value.steps| == |steps|
      && r.value.steps[..|steps| - 1] == steps[..|steps| - 1]
      && IsDump(r.value.steps[|steps| - 1])
  {
    if !AllDicts(steps) then Err(NotADict)
    else
      var dumps := DumpPositions(steps);
      if |dumps| == 0 then Err(NoDumpStep)
      else if |dumps| > 1 then Err(MultipleDumpSteps(dumps))
      else if dumps[0] != |steps| - 1 then Err(DumpNotLast(dumps[0], |steps|))
      else
        var dump := steps[|steps| - 1];
        var parameters := Get(dump, "parameters", Obj([]));
        if !parameters.Obj? then Err(NotADict)
        else
          var dataManager := Get(parameters, "data_manager", Obj([]));
          if Truthy(dataManager) && !dataManager.Obj? then Err(NotADict)
          else if !Has(dump, "parameters") then Err(MissingParameters)
          else
            var ids := Get(parameters, "submission_ids", Arr([]));
            var metadata := Metadata(
              if Truthy(dataManager) then At(dataManager, "name") else Null,
              if Truthy(dataManager) then At(dataManager, "orcid") else Null,
              if Truthy(ids) then ids else Arr([]));
            Ok(Validated(WithPrefix(steps, parameters, Str(TestLocation(title))), Get(parameters, "prefix", Str("")), metadata))
  }

  /** The steps with the last one's parameters.prefix set to `prefix`. */
  function WithPrefix(steps: seq<Value>, parameters: Value, prefix: Value): (r: seq<Value>)
    requires |steps| > 0 && steps[|steps| - 1].Obj? && parameters.Obj?
    ensures |r| == |steps| && r[..|steps| - 1] == steps[..|steps| - 1]
    ensures At(r[|steps| - 1], "run") == At(steps[|steps| - 1], "run")
  {
    var dump := steps[|steps| - 1];
    GetSet(dump, "parameters", Set(parameters, "prefix", prefix), "run", Null);
    steps[..|steps| - 1] + [Set(dump, "parameters", Set(parameters, "prefix", prefix))]
  }

  /**
   * The source's procedure: collect the dump_to_s3 positions with a loop,
   * check them, then read the metadata and rewrite the prefix of the copy.
   */
  method ValidateAndModify(steps: seq<Value>, title: string) returns (r: Result<Validated, StepsError>)
    ensures r == Validate(steps, title)
  {
    var dumpSteps: seq<nat> := [];
    var i := 0;
    while i < |steps|
      invariant 0 <= i <= |steps|
      invariant AllDicts(steps[..i])
      invariant dumpSteps == DumpPositions(steps[..i])
    {
      if !steps[i].Obj? {
        assert !AllDicts(steps);
        return Err(NotADict);
      }
      assert steps[..i + 1][..i] == steps[..i];
      if IsDump(steps[i]) {
        dumpSteps := dumpSteps + [i];
      }
      i := i + 1;
    }
    assert steps[..i] == steps;
    if |dumpSteps| == 0 {
      return Err(NoDumpStep);
    }
    if |dumpSteps| > 1 {
      return Err(MultipleDumpSteps(dumpSteps));
    }
    if dumpSteps[0] != |steps| - 1 {
      return Err(DumpNotLast(dumpSteps[0], |steps|));
    }
    var dumpStep := steps[|steps| - 1];
    var parameters := Get(dumpStep, "parameters", Obj([]));
    if !parameters.Obj? {
      return Err(NotADict);
    }
    var originalPrefix := Get(parameters, "prefix", Str(""));
    var metadata := Metadata(Null, Null, Arr([]));
    var dataManager := Get(parameters, "data_manager", Obj([]));
    if Truthy(dataManager) {
      if !dataManager.Obj? {
        return Err(NotADict);
      }
      metadata := metadata.(authorName := At(dataManager, "name"), authorOrcid := At(dataManager, "orcid"));
    }
    var ids := Get(parameters, "submission_ids", Arr([]));
    if Truthy(ids) {
      metadata := metadata.(submissionIds := ids);
    }
    if !Has(dumpStep, "parameters") {
      return Err(MissingParameters);
    }
    var newDump := Set(dumpStep, "parameters", Set(parameters, "prefix", Str(TestLocation(title))));
    r := Ok(Validated(steps[..|steps| - 1] + [newDump], originalPrefix, metadata));
  }

  /**
   * The validation passes exactly when the steps are dicts, exactly one of
   * them is a dump_to_s3 step and it is the last, and that step's
   * parameters are a dict (with a dict or falsy data_manager).
   */
  lemma {:induction false} ValidateAccepts(steps: seq<Value>, title: string)
    ensures Validate(steps, title).Ok? <==>
      AllDicts(steps) && |steps| > 0
      && (forall i :: 0 <= i < |steps| ==> (IsDump(steps[i]) <==> i == |steps| - 1))
      && Has(steps[|steps| - 1], "parameters")
      && At(steps[|steps| - 1], "parameters").Obj?
      && (Truthy(Get(At(steps[|steps| - 1], "parameters"), "data_manager", Obj([])))
          ==> Get(At(steps[|steps| - 1], "parameters"), "data_manager", Obj([])).Obj?)
  {
    var dumps := DumpPositions(steps);
    if AllDicts(steps) && |steps| > 0 && (forall i :: 0 <= i < |steps| ==> (IsDump(steps[i]) <==> i == |steps| - 1)) {
      NoDumps(steps[..|steps| - 1]);
      assert dumps == [|steps| - 1];
    }
    if Validate(steps, title).Ok? {
      assert |dumps| == 1 && dumps[0] == |steps| - 1;
      forall i | 0 <= i < |steps| ensures IsDump(steps[i]) <==> i == |steps| - 1 {
        if IsDump(steps[i]) {
          assert i in dumps;
        }
      }
    }
    if |steps| > 0 && Has(steps[|steps| - 1], "parameters") {
      assert At(steps[|steps| - 1], "parameters") == Get(steps[|steps| - 1], "parameters", Obj([]));
    }
  }

  lemma {:induction false} NoDumps(steps: seq<Value>)
    requires forall i :: 0 <= i < |steps| ==> !IsDump(steps[i])
    ensures DumpPositions(steps) == []
  {
    if steps != [] {
      NoDumps(steps[..|steps| - 1]);
    }
  }

  /**
   * On success the copy differs from the input only in the last step's
   * parameters.prefix, which is the test location; every other step, every
   * other key of the last step and every other parameter are unchanged.
   * The old prefix is "" when there was none.
   */
  lemma {:induction false} ValidateRewritesOnlyPrefix(steps: seq<Value>, title: string, k: string, p: string)
    requires Validate(steps, title).Ok?
    ensures var v := Validate(steps, title).value;
      var last := |steps| - 1;
      |v.steps| == |steps| && v.steps[..last] == steps[..last]
      && At(At(v.steps[last], "parameters"), "prefix") == Str(TestLocation(title))
      && (k != "parameters" ==> At(v.steps[last], k) == At(steps[last], k))
      && (p != "prefix" ==> At(At(v.steps[last], "parameters"), p) == At(At(steps[last], "parameters"), p))
      && v.originalPrefix == Get(At(steps[last], "parameters"), "prefix", Str(""))
  {
    var last := |steps| - 1;
    var dump := steps[last];
    var parameters := Get(dump, "parameters", Obj([]));
    assert At(dump, "parameters") == parameters;
    var newParameters := Set(parameters, "prefix", Str(TestLocation(title)));
    GetSet(dump, "parameters", newParameters, k, Null);
    GetSet(dump, "parameters", newParameters, "parameters", Null);
    GetSet(parameters, "prefix", Str(TestLocation(title)), p, Null);
    GetSet(parameters, "prefix", Str(TestLocation(title)), "prefix", Null);
  }

  /**
   * The metadata: author name and orcid come from a truthy data_manager
   * (None otherwise); the submission ids are the parameters' own when
   * truthy, an empty list otherwise.
   */
  lemma {:induction false} ValidateMetadata(steps: seq<Value>, title: string)
    requires Validate(steps, title).Ok?
    ensures var m := Validate(steps, title).value.metadata;
      var parameters := At(steps[|steps| - 1], "parameters");
      var dataManager := Get(parameters, "data_manager", Obj([]));
      (Truthy(dataManager) ==> m.authorName == At(dataManager, "name") && m.authorOrcid == At(dataManager, "orcid"))
      && (!Truthy(dataManager) ==> m.authorName == Null && m.authorOrcid == Null)
      && m.submissionIds == (if Truthy(Get(parameters, "submission_ids", Arr([]))) then At(parameters, "submission_ids") else Arr([]))
  {
    var dump := steps[|steps| - 1];
    assert At(dump, "parameters") == Get(dump, "parameters", Obj([]));
  }

  /** Validating the rewritten steps again accepts them and changes nothing more. */
  lemma {:induction false} ValidateIdempotent(steps: seq<Value>, title: string)
    requires Validate(steps, title).Ok?
    ensures var v := Validate(steps, title).value;
      Validate(v.steps, title).Ok? && Validate(v.steps, title).value.steps == v.steps
  {
    var v := Validate(steps, title).value;
    var last := |steps| - 1;
    ValidateAccepts(steps, title);
    ValidateRewritesOnlyPrefix(steps, title, "run", "data_manager");
    ValidateRewritesOnlyPrefix(steps, title, "parameters", "submission_ids");
    forall i | 0 <= i < |v.steps| ensures IsDump(v.steps[i]) <==> i == last {
      if i < last {
        assert v.steps[i] == v.steps[..last][i];
      }
    }
    assert v.steps[last].Obj?;
    forall i | 0 <= i < |v.steps| ensures v.steps[i].Obj? {
      if i < last {
        assert v.steps[i] == v.steps[..last][i];
      }
    }
    var dump := steps[last];
    var parameters := Get(dump, "parameters", Obj([]));
    var newParameters := Set(parameters, "prefix", Str(TestLocation(title)));
    GetSet(dump, "parameters", newParameters, "parameters", Null);
    GetSet(parameters, "prefix", Str(TestLocation(title)), "data_manager", Obj([]));
    ValidateAccepts(v.steps, title);
    var parameters' := At(v.steps[last], "parameters");
    assert parameters' == newParameters;
    GetSet(dump, "parameters", newParameters, "parameters", Obj([]));
    SetTwice(parameters, "prefix", Str(TestLocation(title)));
    SetTwice(dump, "parameters", newParameters);
  }

  /** Setting a key to the value it already has changes nothing. */
  lemma {:induction false} SetTwice(v: Value, k: string, x: Value)
    requires v.Obj?
    ensures Set(Set(v, k, x), k, x) == Set(v, k, x)
  {
    LookupAppend(v.entries, k, k, x);
    if Lookup(v.entries, k).None? {
      LookupNone(v.entries, k);
      assert Lookup(SetEntries(v.entries, k, x), k).Some?;
      ReplaceSame(v.entries + [(k, x)], k, x);
    } else {
      LookupReplace(v.entries, k, k, x);
      ReplaceTwice(v.entries, k, x);
    }
  }

  lemma {:induction false} LookupNone(e: seq<(string, Value)>, k: string)
    requires Lookup(e, k).None?
    ensures forall i :: 0 <= i < |e| ==> e[i].0 != k
  {
    if e != [] {
      LookupNone(e[1..], k);
      assert forall i :: 1 <= i < |e| ==> e[i] == e[1..][i - 1];
    }
  }

  lemma {:induction false} ReplaceTwice(e: seq<(string, Value)>, k: string, x: Value)
    ensures Replace(Replace(e, k, x), k, x) == Replace(e, k, x)
  {
    if e != [] {
      ReplaceTwice(e[1..], k, x);
      assert Replace(e, k, x)[1..] == Replace(e[1..], k, x);
    }
  }

  /** Replacing with what the only entries for k already hold changes nothing. */
  lemma {:induction false} ReplaceSame(e: seq<(string, Value)>, k: string, x: Value)
    requires forall i :: 0 <= i < |e| && e[i].0 == k ==> e[i].1 == x
    ensures Replace(e, k, x) == e
  {
    if e != [] {
      ReplaceSame(e[1..], k, x);
      assert e == [e[0]] + e[1..];
    }
  }
}
