/**
 * Moving a dataset's existing pipeline to S3: its datapackage gets the
 * species lists, the latitude/longitude columns, the dataset's id and
 * version and the data file's hash, and goes up with the pipeline spec;
 * the data file follows only when it matches its dumped copy on S3, and
 * otherwise both are kept under "_preserved_" names.
 */
module GenerateMove {
  import opened Wrappers
  import opened Json
  import opened Text
  import opened GeneratePipeline

  /** One field after the species list of `s` is attached where its name is `s`. */
  function PatchOne(field: Value, s: string, u: Value): Option<Value>
  {
    if !Has(field, "name") then None
    else if At(field, "name") != Str(s) then Some(field)
    else
      var meta := Get(field, "bcodmo:", Obj([]));
      if meta.Obj? then Some(Set(field, "bcodmo:", Set(meta, "unique", u))) else None
  }

  /** A field after the species loop; None where the script raises on it. */
  function PatchedField(field: Value, species: seq<string>, unique: seq<Value>): Option<Value>
    requires |unique| >= |species|
  {
    if species == [] then Some(field)
    else
      var n := |species| - 1;
      match PatchedField(field, species[..n], unique)
      case None => None
      case Some(f) => PatchOne(f, species[n], unique[n])
  }

  /** Every field after the species loop, or None. */
  function PatchedFields(fields: seq<Value>, species: seq<string>, unique: seq<Value>): Option<seq<Value>>
    requires |unique| >= |species|
  {
    if forall k :: 0 <= k < |fields| ==> PatchedField(fields[k], species, unique).Some?
    then Some(seq(|fields|, k requires 0 <= k < |fields| => PatchedField(fields[k], species, unique).value))
    else None
  }

  lemma {:induction false} PatchedFieldStops(field: Value, species: seq<string>, unique: seq<Value>, i: nat)
    requires |unique| >= |species| && i <= |species|
    requires PatchedField(field, species[..i], unique).None?
    ensures PatchedField(field, species, unique).None?
    decreases |species| - i
  {
    if i < |species| {
      assert species[..i + 1][..i] == species[..i];
      PatchedFieldStops(field, species, unique, i + 1);
    } else {
      assert species[..i] == species;
    }
  }

  /** The nested loop over the species and the schema's fields. */
  method PatchFields(fields: seq<Value>, species: seq<string>, unique: seq<Value>) returns (r: Option<seq<Value>>)
    requires |unique| >= |species|
    ensures r == PatchedFields(fields, species, unique)
  {
    var current := fields;
    for i := 0 to |species|
      invariant |current| == |fields|
      invariant forall k :: 0 <= k < |fields| ==> PatchedField(fields[k], species[..i], unique) == Some(current[k])
    {
      for k := 0 to |current|
        invariant |current| == |fields|
        invariant forall j :: 0 <= j < k ==> PatchedField(fields[j], species[..i + 1], unique) == Some(current[j])
        invariant forall j :: k <= j < |fields| ==> PatchedField(fields[j], species[..i], unique) == Some(current[j])
      {
        assert species[..i + 1][..i] == species[..i];
        var patched := PatchOne(current[k], species[i], unique[i]);
        if patched.None? {
          PatchedFieldStops(fields[k], species, unique, i + 1);
          return None;
        }
        current := current[k := patched.value];
      }
    }
    assert species[..|species|] == species;
    assert current == seq(|fields|, k requires 0 <= k < |fields| => PatchedField(fields[k], species, unique).value);
    return Some(current);
  }

  /** What comparing the local data file with its dumped copy on S3 gave. */
  datatype Comparison = CompareFailed | Compared(hash: string, same: bool)

  /** What the move sends to the bucket. */
  datatype Transfer = PutDatapackage(key: string, dp: Value) | UploadFile(source: string, key: string)

  /** The function's return value and what it sent up. */
  datatype Moved = Moved(success: bool, transfers: seq<Transfer>)

  /** A KeyError, TypeError or AttributeError on a datapackage of another shape. */
  datatype Malformed = Malformed

  /** What the move is given: the spec's path and text, its datapackage (None: it cannot be opened). */
  datatype Existing = Existing(path: string, dp: Option<Value>, pipelineText: string, compare: Comparison,
                               datasetId: string, datasetVersion: string, species: seq<string>, unique: seq<Value>,
                               lat: Option<string>, lon: Option<string>, datasetsPrefix: string)

  /** The spec says the data was dumped by dump_to_s3 with a dataset id. */
  predicate Dumped(text: string)
  {
    Contains(text, "bcodmo_pipeline_processors.dump_to_s3") && !Contains(text, "datasetId: ''")
  }

  /** `move_data`: the data was dumped and the copies agree. */
  predicate MoveData(e: Existing)
  {
    Dumped(e.pipelineText) && e.compare.Compared? && e.compare.same
  }

  /** The hash of the local data file, when the comparison got that far. */
  function FileHash(e: Existing): Option<string>
  {
    if Dumped(e.pipelineText) && e.compare.Compared? then Some(e.compare.hash) else None
  }

  /** `path.replace("pipeline-spec.yaml", name)`. */
  function Beside(path: string, name: string): string
  {
    ReplaceAll(path, "pipeline-spec.yaml", name)
  }

  /** `<datasets prefix>/<id>/<version>/<name>`. */
  function ObjectKey(e: Existing, name: string): string
  {
    e.datasetsPrefix + "/" + e.datasetId + "/" + e.datasetVersion + "/" + name
  }

  /** The resource after the species loop and the latitude/longitude columns. */
  function PatchResource(e: Existing, res: Value): (r: Result<Value, Malformed>)
    requires |e.unique| >= |e.species|
    requires res.Obj?
    ensures r.Ok? ==> r.value.Obj?
  {
    var withSpecies :=
      if e.species == [] then Ok(res)
      else
        var schema := At(res, "schema");
        var fields := At(schema, "fields");
        match Elements(fields)
        case None => Err(Malformed)
        case Some(visited) =>
          match PatchedFields(visited, e.species, e.unique)
          case None => Err(Malformed)
          case Some(patched) =>
            if schema.Obj? && fields.Arr? then Ok(Set(res, "schema", Set(schema, "fields", Arr(patched))))
            else Ok(res);
    match withSpecies
    case Err(m) => Err(m)
    case Ok(r) =>
      if !(Present(e.lat) && Present(e.lon)) then Ok(r)
      else
        var meta := Get(r, "bcodmo:", Obj([]));
        if !meta.Obj? then Err(Malformed)
        else Ok(Set(r, "bcodmo:", Set(Set(meta, "lat_column", Str(e.lat.value)), "lon_column", Str(e.lon.value))))
  }

  /** A value Python finds equal to False. */
  predicate FalseLike(v: Value) { v == Bool(false) || v == Num(0) }

  /** A `submissionId` equal to False becomes None. */
  function ClearFalseSubmission(dp: Value): Result<Value, Malformed>
    requires dp.Obj?
  {
    if !Has(dp, "bcodmo:") then Ok(dp)
    else
      var meta := At(dp, "bcodmo:");
      if !meta.Obj? then Err(Malformed)
      else if FalseLike(At(meta, "submissionId")) then Ok(Set(dp, "bcodmo:", Set(meta, "submissionId", Null)))
      else Ok(dp)
  }

  /** The datapackage with its one resource replaced. */
  function WithResource(dp: Value, res: Value): Value
    requires dp.Obj?
  {
    Set(dp, "resources", Arr([res]))
  }

  /**
   * The datapackage that goes up: its one resource patched and hashed,
   * its id and version set, and a False submission id cleared when the
   * data moves too.
   */
  function Package(e: Existing, dp: Value, patched: Value): Result<Value, Malformed>
    requires dp.Obj? && patched.Obj?
  {
    var stamped := Set(Set(WithResource(dp, patched), "version", Str(e.datasetVersion)), "id", Str(e.datasetId));
    var hashed := match FileHash(e)
      case None => patched
      case Some(h) => Set(patched, "hash", Str(h));
    var withHash := Set(stamped, "resources", Arr([hashed]));
    if MoveData(e) then ClearFalseSubmission(withHash) else Ok(withHash)
  }

  /**
   * move_already_existing_pipeline. An unreadable datapackage or one
   * without exactly one resource is not moved; otherwise the patched
   * datapackage and the spec go up, under "_preserved_" names unless the
   * data moves too.
   */
  function MoveExisting(e: Existing): Result<Moved, Malformed>
    requires |e.unique| >= |e.species|
  {
    if e.dp.None? then Ok(Moved(false, []))
    else
      var dp := e.dp.value;
      var resources := At(dp, "resources");
      if !Has(dp, "resources") || Elements(resources).None? then Err(Malformed)
      else if |Elements(resources).value| != 1 then Ok(Moved(false, []))
      else if !resources.Arr? then Err(Malformed)
      else
        var res := At(dp, "resources").items[0];
        if !(Has(res, "name") && At(res, "name").Str?) then Err(Malformed)
        else
          var resFilename := At(res, "name").s + ".csv";
          match PatchResource(e, res)
          case Err(m) => Err(m)
          case Ok(patched) =>
            match Package(e, dp, patched)
            case Err(m) => Err(m)
            case Ok(out) =>
              var dpName := if MoveData(e) then "datapackage.json" else "_preserved_datapackage.json";
              var specName := if MoveData(e) then "pipeline-spec.yaml" else "_preserved_pipeline-spec.yaml";
              var sent := [PutDatapackage(ObjectKey(e, dpName), out), UploadFile(e.path, ObjectKey(e, specName))];
              if MoveData(e)
              then Ok(Moved(true, sent + [UploadFile(Beside(e.path, resFilename), ObjectKey(e, resFilename))]))
              else Ok(Moved(false, sent))
  }
}

module GenerateMoveFacts {
  import opened Wrappers
  import opened Json
  import opened GeneratePipeline
  import opened GenerateMove

  /**
   * The move reports success only when the data was dumped and matches
   * its copy; it then sends the datapackage, the spec and the data file.
   */
  lemma SuccessNeedsMatch(e: Existing)
    requires |e.unique| >= |e.species|
    ensures MoveExisting(e).Ok? && MoveExisting(e).value.success ==> MoveData(e) && |MoveExisting(e).value.transfers| == 3
    ensures MoveExisting(e).Ok? && !MoveExisting(e).value.success ==> |MoveExisting(e).value.transfers| <= 2
  {
  }

  /** A datapackage without exactly one resource is not moved and nothing is sent. */
  lemma OneResourceOnly(e: Existing)
    requires |e.unique| >= |e.species|
    requires e.dp.Some? && Has(e.dp.value, "resources")
    requires Elements(At(e.dp.value, "resources")).Some? && |Elements(At(e.dp.value, "resources")).value| != 1
    ensures MoveExisting(e) == Ok(Moved(false, []))
  {
  }

  /** The datapackage that goes up carries the dataset's id and version. */
  lemma PackageStamped(e: Existing, dp: Value, patched: Value)
    requires dp.Obj? && patched.Obj?
    requires Package(e, dp, patched).Ok?
    ensures At(Package(e, dp, patched).value, "id") == Str(e.datasetId)
    ensures At(Package(e, dp, patched).value, "version") == Str(e.datasetVersion)
  {
    var withRes := WithResource(dp, patched);
    var versioned := Set(withRes, "version", Str(e.datasetVersion));
    var stamped := Set(versioned, "id", Str(e.datasetId));
    GetSet(withRes, "version", Str(e.datasetVersion), "version", Null);
    GetSet(versioned, "id", Str(e.datasetId), "version", Null);
    GetSet(versioned, "id", Str(e.datasetId), "id", Null);
    var hashed := match FileHash(e) case None => patched case Some(h) => Set(patched, "hash", Str(h));
    var withHash := Set(stamped, "resources", Arr([hashed]));
    GetSet(stamped, "resources", Arr([hashed]), "id", Null);
    GetSet(stamped, "resources", Arr([hashed]), "version", Null);
    if MoveData(e) && Has(withHash, "bcodmo:") {
      var meta := At(withHash, "bcodmo:");
      if meta.Obj? && FalseLike(At(meta, "submissionId")) {
        GetSet(withHash, "bcodmo:", Set(meta, "submissionId", Null), "id", Null);
        GetSet(withHash, "bcodmo:", Set(meta, "submissionId", Null), "version", Null);
      }
    }
  }

  /** Whatever datapackage is sent carries the dataset's id and version. */
  lemma SentStamped(e: Existing)
    requires |e.unique| >= |e.species|
    requires MoveExisting(e).Ok? && MoveExisting(e).value.transfers != []
    ensures var t := MoveExisting(e).value.transfers[0];
      t.PutDatapackage? && At(t.dp, "id") == Str(e.datasetId) && At(t.dp, "version") == Str(e.datasetVersion)
  {
    var dp := e.dp.value;
    var res := At(dp, "resources").items[0];
    PackageStamped(e, dp, PatchResource(e, res).value);
  }

  /** The field's name survives the species loop. */
  lemma {:induction false} PatchedFieldName(field: Value, species: seq<string>, unique: seq<Value>)
    requires |unique| >= |species|
    requires PatchedField(field, species, unique).Some?
    ensures At(PatchedField(field, species, unique).value, "name") == At(field, "name")
    ensures species != [] ==> Has(field, "name")
  {
    if species != [] {
      var n := |species| - 1;
      PatchedFieldName(field, species[..n], unique);
      var f := PatchedField(field, species[..n], unique).value;
      if At(f, "name") == Str(species[n]) {
        GetSet(f, "bcodmo:", Set(Get(f, "bcodmo:", Obj([])), "unique", unique[n]), "name", Null);
      }
      if n > 0 {
        PatchedFieldName(field, species[..n], unique);
      }
    }
  }

  /**
   * A field named by no species is untouched; one named by a species
   * carries the list of the last species naming it.
   */
  lemma {:induction false} PatchedFieldUnique(field: Value, species: seq<string>, unique: seq<Value>, i: nat)
    requires |unique| >= |species|
    requires PatchedField(field, species, unique).Some?
    requires i < |species| && At(field, "name") == Str(species[i])
    requires forall k :: i < k < |species| ==> species[k] != species[i]
    ensures At(At(PatchedField(field, species, unique).value, "bcodmo:"), "unique") == unique[i]
  {
    var n := |species| - 1;
    var f := PatchedField(field, species[..n], unique).value;
    PatchedFieldName(field, species[..n], unique);
    if i == n {
      var meta := Get(f, "bcodmo:", Obj([]));
      GetSet(f, "bcodmo:", Set(meta, "unique", unique[n]), "bcodmo:", Null);
      GetSet(meta, "unique", unique[n], "unique", Null);
    } else {
      assert species[..n][i] == species[i];
      PatchedFieldUnique(field, species[..n], unique, i);
      if At(f, "name") == Str(species[n]) {
        assert false;
      }
    }
  }

  lemma {:induction false} PatchedFieldUntouched(field: Value, species: seq<string>, unique: seq<Value>)
    requires |unique| >= |species|
    requires Has(field, "name")
    requires forall k :: 0 <= k < |species| ==> At(field, "name") != Str(species[k])
    ensures PatchedField(field, species, unique) == Some(field)
  {
    if species != [] {
      PatchedFieldUntouched(field, species[..|species| - 1], unique);
    }
  }
}
