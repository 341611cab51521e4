/**
 * The parameter maps of the buggy laminar pipelines
 * (conrad_scripts/laminar_floating_point_error/parameters/script.py): for
 * each pipeline, the dataset id at the head of its output prefix is looked
 * up, and the dataset's parameters become a map from the name in the file
 * to the BCO-DMO parameter name, stored under the prefix.
 */
module LaminarParameters {
  import opened Wrappers
  import opened Text
  import opened Json

  /**
   * The dataset id of an output prefix: the text before its first "/". The
   * pattern `^([^/]*)` matches every string, so there is no failure case.
   */
  function DatasetId(prefix: string): string
  {
    TakeUntil(prefix, '/')
  }

  /** The dataset API: the JSON reply for a dataset id, None for an HTTP 400. */
  type DatasetApi = string -> Option<Value>

  datatype ParamError =
    | BadInput                   // js["all_results"] is missing or cannot be iterated
    | BadRecord(record: Value)   // a record without "submission_ids" or "original_prefix", or with a prefix that is not a string
    | Malformed(prefix: string)  // a key the loop indexes is missing
    | Conflict(prefix: string, name: string)  // one name with two parameter types: the script exits

  /** A parameter's name in the file and its BCO-DMO parameter name; None where indexing raises. */
  function NameAndType(parameter: Value): Option<(string, Value)>
  {
    if !Has(parameter, "name") || !At(parameter, "name").Str? then None
    else if !Has(parameter, "type") || !Has(At(parameter, "type"), "name") then None
    else Some((At(parameter, "name").s, At(At(parameter, "type"), "name")))
  }

  /** The loop that fills `parameters_dict`, starting from `acc`. */
  function ParameterMap(parameters: seq<Value>, acc: Value, prefix: string): Result<Value, ParamError>
    requires acc.Obj?
  {
    if parameters == [] then Ok(acc)
    else match NameAndType(parameters[0])
      case None => Err(Malformed(prefix))
      case Some((name, kind)) =>
        if Has(acc, name) && At(acc, name) != kind then Err(Conflict(prefix, name))
        else ParameterMap(parameters[1..], Set(acc, name, kind), prefix)
  }

  /** The parameter map of one pipeline, or None when its dataset is not found. */
  function Parameters(prefix: string, api: DatasetApi): Result<Option<Value>, ParamError>
  {
    var reply := api(DatasetId(prefix));
    if reply.None? || reply.value == Null then Ok(None)
    else if !Has(reply.value, "parameters") then Err(Malformed(prefix))
    else match Elements(At(reply.value, "parameters"))
      case None => Err(Malformed(prefix))
      case Some(parameters) =>
        match ParameterMap(parameters, Obj([]), prefix)
        case Err(e) => Err(e)
        case Ok(m) => Ok(Some(m))
  }

  /**
   * The prefix of one record of "all_results". Indexing "submission_ids" or
   * "original_prefix" raises KeyError when the key is missing (the error and
   * skipped records of the regression run have no "original_prefix"), and
   * TypeError on a record that is not a dict; re.search raises TypeError on
   * a prefix that is not a string.
   */
  function RecordPrefix(record: Value): (r: Option<string>)
    ensures r.Some? <==> Has(record, "submission_ids") && Has(record, "original_prefix") && At(record, "original_prefix").Str?
    ensures r.Some? ==> At(record, "original_prefix") == Str(r.value)
  {
    if !Has(record, "submission_ids") || !Has(record, "original_prefix") then None
    else match At(record, "original_prefix")
      case Str(prefix) => Some(prefix)
      case _ => None
  }

  /** The loop over the records that fills `results`, keyed by prefix. */
  function Collect(records: seq<Value>, results: Value, api: DatasetApi): Result<Value, ParamError>
    requires results.Obj?
  {
    if records == [] then Ok(results)
    else match RecordPrefix(records[0])
      case None => Err(BadRecord(records[0]))
      case Some(prefix) =>
        match Parameters(prefix, api)
        case Err(e) => Err(e)
        case Ok(None) => Collect(records[1..], results, api)
        case Ok(Some(m)) => Collect(records[1..], Set(results, prefix, m), api)
  }

  /** The script after the bug list is loaded as `js`: the content of parameters.json. */
  function ParametersJson(js: Value, api: DatasetApi): Result<Value, ParamError>
  {
    if !Has(js, "all_results") then Err(BadInput)
    else match Elements(At(js, "all_results"))
      case None => Err(BadInput)
      case Some(records) => Collect(records, Obj([]), api)
  }

  method BuildParameterMap(parameters: seq<Value>, prefix: string) returns (r: Result<Value, ParamError>)
    ensures r == ParameterMap(parameters, Obj([]), prefix)
  {
    var parametersDict := Obj([]);
    var k := 0;
    while k < |parameters|
      invariant k <= |parameters| && parametersDict.Obj?
      invariant ParameterMap(parameters, Obj([]), prefix) == ParameterMap(parameters[k..], parametersDict, prefix)
    {
      assert parameters[k..][1..] == parameters[k + 1..];
      var entry := NameAndType(parameters[k]);
      if entry.None? {
        return Err(Malformed(prefix));
      }
      var (name, kind) := entry.value;
      if Has(parametersDict, name) && At(parametersDict, name) != kind {
        return Err(Conflict(prefix, name));
      }
      parametersDict := Set(parametersDict, name, kind);
      k := k + 1;
    }
    return Ok(parametersDict);
  }

  /** The whole script after the bug list is loaded: the content of parameters.json. */
  method CollectParameters(js: Value, api: DatasetApi) returns (r: Result<Value, ParamError>)
    ensures r == ParametersJson(js, api)
  {
    if !Has(js, "all_results") {
      return Err(BadInput);
    }
    var all := Elements(At(js, "all_results"));
    if all.None? {
      return Err(BadInput);
    }
    var records := all.value;
    var results := Obj([]);
    var k := 0;
    while k < |records|
      invariant k <= |records| && results.Obj?
      invariant Collect(records, Obj([]), api) == Collect(records[k..], results, api)
    {
      assert records[k..][1..] == records[k + 1..];
      var pipeline := records[k];
      if !Has(pipeline, "submission_ids") || !Has(pipeline, "original_prefix") || !At(pipeline, "original_prefix").Str? {
        return Err(BadRecord(pipeline));
      }
      var prefix := At(pipeline, "original_prefix").s;
      var datasetId := DatasetId(prefix);
      var dataset := api(datasetId);
      if dataset.None? || dataset.value == Null {
        k := k + 1;
        continue;
      }
      if !Has(dataset.value, "parameters") {
        return Err(Malformed(prefix));
      }
      var parameters := Elements(At(dataset.value, "parameters"));
      if parameters.None? {
        return Err(Malformed(prefix));
      }
      var parametersDict := BuildParameterMap(parameters.value, prefix);
      if parametersDict.Err? {
        return Err(parametersDict.error);
      }
      results := Set(results, prefix, parametersDict.value);
      k := k + 1;
    }
    return Ok(results);
  }
}

/** What the parameter maps promise, proved about their specification. */
module LaminarParametersFacts {
  import opened Wrappers
  import opened Text
  import opened Json
  import opened LaminarParameters

  /** The dataset id is the first path segment of the prefix, whatever follows it. */
  lemma DatasetIdOf(id: string, rest: string)
    requires '/' !in id && (rest == [] || rest[0] == '/')
    ensures DatasetId(id + rest) == id
  {
    TakeUntilOf(id, rest, '/');
  }

  /** A pipeline whose dataset is not found adds nothing. */
  lemma MissingDatasetSkipped(records: seq<Value>, results: Value, api: DatasetApi)
    requires results.Obj? && records != [] && RecordPrefix(records[0]).Some?
    requires var id := DatasetId(RecordPrefix(records[0]).value); api(id).None? || api(id) == Some(Null)
    ensures Collect(records, results, api) == Collect(records[1..], results, api)
  {
  }

  /** Running the loop over two runs of records is running it over the first, then the second. */
  lemma {:induction false} CollectAppend(a: seq<Value>, b: seq<Value>, results: Value, api: DatasetApi)
    requires results.Obj?
    ensures Collect(a + b, results, api) ==
      match Collect(a, results, api)
      case Err(e) => Err(e)
      case Ok(r) => if r.Obj? then Collect(b, r, api) else Err(BadInput)
  {
    if a == [] {
      assert a + b == b;
    } else {
      assert (a + b)[1..] == a[1..] + b;
      match RecordPrefix(a[0])
      case None =>
      case Some(prefix) =>
        match Parameters(prefix, api)
        case Err(e) =>
        case Ok(None) => CollectAppend(a[1..], b, results, api);
        case Ok(Some(m)) => CollectAppend(a[1..], b, Set(results, prefix, m), api);
    }
  }

  /** The loop keeps `results` a dict. */
  lemma {:induction false} CollectObj(records: seq<Value>, results: Value, api: DatasetApi)
    requires results.Obj? && Collect(records, results, api).Ok?
    ensures Collect(records, results, api).value.Obj?
  {
    if records != [] {
      var prefix := RecordPrefix(records[0]).value;
      match Parameters(prefix, api)
      case Ok(None) => CollectObj(records[1..], results, api);
      case Ok(Some(m)) => CollectObj(records[1..], Set(results, prefix, m), api);
    }
  }

  /**
   * The first record without "submission_ids" or "original_prefix", or with
   * a prefix that is not a string, ends the script with its error once the
   * records before it went through.
   */
  lemma FirstBadRecord(records: seq<Value>, i: nat, results: Value, api: DatasetApi)
    requires results.Obj? && i < |records| && Collect(records[..i], results, api).Ok?
    requires RecordPrefix(records[i]).None?
    ensures Collect(records, results, api) == Err(BadRecord(records[i]))
  {
    assert records == records[..i] + records[i..];
    CollectAppend(records[..i], records[i..], results, api);
    CollectObj(records[..i], results, api);
  }

  /** Every parameter has a name and a type name. */
  predicate WellFormed(parameters: seq<Value>)
  {
    forall i :: 0 <= i < |parameters| ==> NameAndType(parameters[i]).Some?
  }

  function Name(parameter: Value): string
    requires NameAndType(parameter).Some?
  {
    NameAndType(parameter).value.0
  }

  function Kind(parameter: Value): Value
    requires NameAndType(parameter).Some?
  {
    NameAndType(parameter).value.1
  }

  /**
   * No name is bound to two parameter types, neither among the parameters
   * nor against the map already built.
   */
  predicate Consistent(acc: Value, parameters: seq<Value>)
    requires WellFormed(parameters)
  {
    (forall i :: 0 <= i < |parameters| && Has(acc, Name(parameters[i])) ==> At(acc, Name(parameters[i])) == Kind(parameters[i]))
    && (forall i, j :: 0 <= i < j < |parameters| && Name(parameters[i]) == Name(parameters[j]) ==>
      Kind(parameters[i]) == Kind(parameters[j]))
  }

  lemma WellFormedRest(parameters: seq<Value>)
    requires WellFormed(parameters) && parameters != []
    ensures WellFormed(parameters[1..])
  {
    forall i | 0 <= i < |parameters| - 1 ensures NameAndType(parameters[1..][i]).Some? {
      assert parameters[1..][i] == parameters[i + 1];
    }
  }

  /** `v[k] = x` seen key by key. */
  lemma SetFacts(acc: Value, name: string, kind: Value)
    requires acc.Obj?
    ensures forall k :: At(Set(acc, name, kind), k) == (if k == name then kind else At(acc, k))
    ensures forall k :: Has(Set(acc, name, kind), k) == (k == name || Has(acc, k))
  {
    forall k ensures At(Set(acc, name, kind), k) == (if k == name then kind else At(acc, k))
      && Has(Set(acc, name, kind), k) == (k == name || Has(acc, k))
    {
      GetSet(acc, name, kind, k, Null);
    }
  }

  /**
   * The loop stops iff some name comes with two different types; the same
   * name with the same type is accepted.
   */
  lemma {:induction false} ParameterMapOk(parameters: seq<Value>, acc: Value, prefix: string)
    requires acc.Obj? && WellFormed(parameters)
    ensures ParameterMap(parameters, acc, prefix).Ok? <==> Consistent(acc, parameters)
  {
    if parameters != [] {
      var p := parameters[0];
      WellFormedRest(parameters);
      if !(Has(acc, Name(p)) && At(acc, Name(p)) != Kind(p)) {
        var acc' := Set(acc, Name(p), Kind(p));
        SetFacts(acc, Name(p), Kind(p));
        ParameterMapOk(parameters[1..], acc', prefix);
        ConsistentStep(acc, parameters, acc');
      }
    }
  }

  /** A finished map holds exactly the keys it started with and the parameters' names. */
  lemma {:induction false} ParameterMapKeys(parameters: seq<Value>, acc: Value, prefix: string)
    requires acc.Obj? && WellFormed(parameters) && ParameterMap(parameters, acc, prefix).Ok?
    ensures var m := ParameterMap(parameters, acc, prefix).value;
      forall k :: Has(m, k) <==> Has(acc, k) || exists i :: 0 <= i < |parameters| && Name(parameters[i]) == k
  {
    if parameters != [] {
      var p := parameters[0];
      var rest := parameters[1..];
      WellFormedRest(parameters);
      var acc' := Set(acc, Name(p), Kind(p));
      SetFacts(acc, Name(p), Kind(p));
      ParameterMapKeys(rest, acc', prefix);
      var m := ParameterMap(parameters, acc, prefix).value;
      forall k ensures Has(m, k) <==> Has(acc, k) || exists i :: 0 <= i < |parameters| && Name(parameters[i]) == k {
        if k == Name(p) {
          assert Name(parameters[0]) == k;
        }
        if exists i :: 0 <= i < |rest| && Name(rest[i]) == k {
          var i :| 0 <= i < |rest| && Name(rest[i]) == k;
          assert parameters[i + 1] == rest[i];
        }
        if exists i :: 0 <= i < |parameters| && Name(parameters[i]) == k {
          var i :| 0 <= i < |parameters| && Name(parameters[i]) == k;
          if i > 0 {
            assert parameters[i] == rest[i - 1];
          }
        }
      }
    }
  }

  /** A finished map sends every name to its type and leaves every other key alone. */
  lemma {:induction false} ParameterMapContents(parameters: seq<Value>, acc: Value, prefix: string)
    requires acc.Obj? && WellFormed(parameters) && ParameterMap(parameters, acc, prefix).Ok?
    ensures var m := ParameterMap(parameters, acc, prefix).value;
      (forall i :: 0 <= i < |parameters| ==> Has(m, Name(parameters[i])) && At(m, Name(parameters[i])) == Kind(parameters[i]))
      && (forall k :: !(exists i :: 0 <= i < |parameters| && Name(parameters[i]) == k) ==> At(m, k) == At(acc, k))
  {
    if parameters != [] {
      var p := parameters[0];
      var rest := parameters[1..];
      WellFormedRest(parameters);
      var acc' := Set(acc, Name(p), Kind(p));
      SetFacts(acc, Name(p), Kind(p));
      ParameterMapContents(rest, acc', prefix);
      ParameterMapKeys(rest, acc', prefix);
      var m := ParameterMap(parameters, acc, prefix).value;
      forall i | 0 <= i < |parameters| ensures Has(m, Name(parameters[i])) && At(m, Name(parameters[i])) == Kind(parameters[i]) {
        if i > 0 {
          assert parameters[i] == rest[i - 1];
        } else if exists j :: 0 <= j < |rest| && Name(rest[j]) == Name(p) {
          var j :| 0 <= j < |rest| && Name(rest[j]) == Name(p);
          assert parameters[j + 1] == rest[j];
          ParameterMapOk(parameters, acc, prefix);
          assert Kind(parameters[0]) == Kind(parameters[j + 1]);
        }
      }
      forall k | !(exists i :: 0 <= i < |parameters| && Name(parameters[i]) == k) ensures At(m, k) == At(acc, k) {
        assert Name(parameters[0]) != k;
      }
    }
  }

  /** Binding the first parameter keeps the rest consistent exactly when the whole list was. */
  lemma ConsistentStep(acc: Value, parameters: seq<Value>, acc': Value)
    requires acc.Obj? && WellFormed(parameters) && parameters != [] && WellFormed(parameters[1..])
    requires var p := parameters[0]; !(Has(acc, Name(p)) && At(acc, Name(p)) != Kind(p))
    requires forall k :: At(acc', k) == (if k == Name(parameters[0]) then Kind(parameters[0]) else At(acc, k))
    requires forall k :: Has(acc', k) == (k == Name(parameters[0]) || Has(acc, k))
    ensures Consistent(acc', parameters[1..]) <==> Consistent(acc, parameters)
  {
    var p := parameters[0];
    var rest := parameters[1..];
    forall i | 0 <= i < |rest| ensures rest[i] == parameters[i + 1] { }
    if Consistent(acc', rest) {
      forall i | 0 <= i < |parameters| && Has(acc, Name(parameters[i]))
        ensures At(acc, Name(parameters[i])) == Kind(parameters[i])
      {
        if i > 0 {
          assert Has(acc', Name(rest[i - 1]));
        }
      }
      forall i, j | 0 <= i < j < |parameters| && Name(parameters[i]) == Name(parameters[j])
        ensures Kind(parameters[i]) == Kind(parameters[j])
      {
        if i == 0 {
          assert Has(acc', Name(rest[j - 1]));
        } else {
          assert Name(rest[i - 1]) == Name(rest[j - 1]);
        }
      }
    }
    if Consistent(acc, parameters) {
      forall i | 0 <= i < |rest| && Has(acc', Name(rest[i]))
        ensures At(acc', Name(rest[i])) == Kind(rest[i])
      {
        assert Name(parameters[i + 1]) == Name(rest[i]);
        if Name(rest[i]) == Name(p) {
          assert Kind(parameters[0]) == Kind(parameters[i + 1]);
        }
      }
      forall i, j | 0 <= i < j < |rest| && Name(rest[i]) == Name(rest[j])
        ensures Kind(rest[i]) == Kind(rest[j])
      {
        assert Name(parameters[i + 1]) == Name(parameters[j + 1]);
      }
    }
  }

  /** The pipeline's map under a found dataset. */
  predicate Found(prefix: string, api: DatasetApi)
  {
    Parameters(prefix, api).Ok? && Parameters(prefix, api).value.Some?
  }

  /** Record i names prefix k, and k's dataset was found. */
  predicate FoundAt(records: seq<Value>, i: int, k: string, api: DatasetApi)
    requires 0 <= i < |records|
  {
    RecordPrefix(records[i]) == Some(k) && Found(k, api)
  }

  /** Some record names prefix k, and k's dataset was found. */
  predicate Named(records: seq<Value>, k: string, api: DatasetApi)
  {
    exists i :: 0 <= i < |records| && FoundAt(records, i, k, api)
  }

  lemma NamedStep(records: seq<Value>, k: string, api: DatasetApi)
    requires records != [] && RecordPrefix(records[0]).Some?
    ensures Named(records, k, api) <==> (RecordPrefix(records[0]) == Some(k) && Found(k, api)) || Named(records[1..], k, api)
  {
    var rest := records[1..];
    if Named(records, k, api) {
      var i :| 0 <= i < |records| && FoundAt(records, i, k, api);
      if i > 0 {
        assert FoundAt(rest, i - 1, k, api);
      }
    }
    if Named(rest, k, api) {
      var i :| 0 <= i < |rest| && FoundAt(rest, i, k, api);
      assert FoundAt(records, i + 1, k, api);
    }
    if RecordPrefix(records[0]) == Some(k) && Found(k, api) {
      assert FoundAt(records, 0, k, api);
    }
  }

  /** A finished run read a prefix from every record. */
  lemma {:induction false} CollectReadable(records: seq<Value>, results: Value, api: DatasetApi)
    requires results.Obj? && Collect(records, results, api).Ok?
    ensures forall i :: 0 <= i < |records| ==> RecordPrefix(records[i]).Some?
  {
    if records != [] {
      var rest := records[1..];
      var p := RecordPrefix(records[0]).value;
      var next := if Found(p, api) then Set(results, p, Parameters(p, api).value.value) else results;
      assert Collect(records, results, api) == Collect(rest, next, api);
      CollectReadable(rest, next, api);
      forall i | 0 <= i < |records| ensures RecordPrefix(records[i]).Some? {
        if i > 0 {
          assert records[i] == rest[i - 1];
        }
      }
    }
  }

  /**
   * A finished run read a prefix from every record, and `results` holds
   * exactly the prefixes whose dataset was found, each with its parameter
   * map; a repeated prefix is overwritten in place.
   */
  lemma {:induction false} CollectFacts(records: seq<Value>, results: Value, api: DatasetApi)
    requires results.Obj? && Collect(records, results, api).Ok?
    ensures forall i :: 0 <= i < |records| ==> RecordPrefix(records[i]).Some?
    ensures var r := Collect(records, results, api).value;
      (forall k :: Has(r, k) <==> Has(results, k) || Named(records, k, api))
      && (forall k :: Named(records, k, api) ==> At(r, k) == Parameters(k, api).value.value)
      && (forall k :: !Named(records, k, api) ==> At(r, k) == At(results, k))
  {
    CollectReadable(records, results, api);
    if records != [] {
      var rest := records[1..];
      var p := RecordPrefix(records[0]).value;
      var next := if Found(p, api) then Set(results, p, Parameters(p, api).value.value) else results;
      assert Collect(records, results, api) == Collect(rest, next, api);
      CollectFacts(rest, next, api);
      var r := Collect(records, results, api).value;
      forall k
        ensures Has(r, k) <==> Has(results, k) || Named(records, k, api)
        ensures Named(records, k, api) ==> At(r, k) == Parameters(k, api).value.value
        ensures !Named(records, k, api) ==> At(r, k) == At(results, k)
      {
        NamedStep(records, k, api);
        if Found(p, api) {
          GetSet(results, p, Parameters(p, api).value.value, k, Null);
        }
      }
    }
  }
}
