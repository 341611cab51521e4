/**
 * The dataset "resources" to "supplementalFiles" migration: each dataset
 * of a submission's datapackage loses its "resources" list and gets
 * "supplementalFiles", the resource ids that are not primary data files.
 * As written, the flag that guards the upload is never raised, so nothing
 * is written back; the sweep with the flag raised is modelled beside it.
 */
module DatasetResources {
  import opened Wrappers
  import opened Json
  import opened Text
  import opened SubmissionBucket

  /** A `None` list read as an empty one. */
  function OrEmpty(v: Value): Value { if v == Null then Arr([]) else v }

  /** The resource ids that are not primary data files, in order, duplicates kept. */
  function Supplemental(resources: seq<Value>, primary: seq<Value>): seq<Value>
  {
    if resources == [] then []
    else
      var last := resources[|resources| - 1];
      Supplemental(resources[..|resources| - 1], primary) + (if last in primary then [] else [last])
  }

  /**
   * `resourceId in primaryDataFiles`: membership in a list, a substring of
   * a string, a key of a dict; None where Python raises (a non-string in a
   * string, an unhashable id in a dict, a container that is not iterable).
   */
  function IsPrimary(id: Value, primary: Value): Option<bool>
  {
    match primary
    case Arr(items) => Some(id in items)
    case Str(s) => if id.Str? then Some(Contains(s, id.s)) else None
    case Obj(entries) => if id.Arr? || id.Obj? then None else Some(id.Str? && Lookup(entries, id.s).Some?)
    case _ => None
  }

  /** The resource ids `resourceId not in primaryDataFiles` keeps, in order; None where the test raises. */
  function Kept(resources: seq<Value>, primary: Value): Option<seq<Value>>
  {
    if resources == [] then Some([])
    else
      var last := resources[|resources| - 1];
      match Kept(resources[..|resources| - 1], primary)
      case None => None
      case Some(files) =>
        match IsPrimary(last, primary)
        case None => None
        case Some(isPrimary) => Some(files + (if isPrimary then [] else [last]))
  }

  lemma {:induction false} KeptStops(resources: seq<Value>, primary: Value, i: nat)
    requires i <= |resources| && Kept(resources[..i], primary).None?
    ensures Kept(resources, primary).None?
    decreases |resources| - i
  {
    if i < |resources| {
      assert resources[..i + 1][..i] == resources[..i];
      KeptStops(resources, primary, i + 1);
    } else {
      assert resources[..i] == resources;
    }
  }

  /** The loop that builds `supplementalFiles`. */
  method SupplementalFiles(resources: seq<Value>, primary: Value) returns (files: Option<seq<Value>>)
    ensures files == Kept(resources, primary)
  {
    var kept := [];
    for i := 0 to |resources|
      invariant Kept(resources[..i], primary) == Some(kept)
    {
      assert resources[..i + 1][..i] == resources[..i];
      var isPrimary := IsPrimary(resources[i], primary);
      if isPrimary.None? {
        KeptStops(resources, primary, i + 1);
        return None;
      }
      if !isPrimary.value {
        kept := kept + [resources[i]];
      } else {
        assert kept + [] == kept;
      }
    }
    assert resources[..|resources|] == resources;
    return Some(kept);
  }

  /** One dataset after the migration; None where the script raises on it. */
  function MigrateDataset(dataset: Value): Option<Value>
  {
    if !dataset.Obj? then None
    else
      var resources := OrEmpty(Get(dataset, "resources", Arr([])));
      var primary := OrEmpty(Get(dataset, "primaryDataFiles", Arr([])));
      match Elements(resources)
      case None => None
      case Some(ids) =>
        match Kept(ids, primary)
        case None => None
        case Some(files) =>
          var dropped := if Has(dataset, "resources") then Delete(dataset, "resources") else dataset;
          Some(Set(dropped, "supplementalFiles", Arr(files)))
  }

  /** Every dataset after the migration, or None. */
  function MigrateAll(datasets: seq<Value>): Option<seq<Value>>
  {
    if datasets == [] then Some([])
    else
      match MigrateAll(datasets[..|datasets| - 1])
      case None => None
      case Some(done) =>
        match MigrateDataset(datasets[|datasets| - 1])
        case None => None
        case Some(d) => Some(done + [d])
  }

  lemma {:induction false} MigrateAllStops(datasets: seq<Value>, i: nat)
    requires i <= |datasets| && MigrateAll(datasets[..i]).None?
    ensures MigrateAll(datasets).None?
    decreases |datasets| - i
  {
    if i < |datasets| {
      assert datasets[..i + 1][..i] == datasets[..i];
      MigrateAllStops(datasets, i + 1);
    } else {
      assert datasets[..i] == datasets;
    }
  }

  /** The loop over a datapackage's datasets. */
  method MigrateDatasets(datasets: seq<Value>) returns (r: Option<seq<Value>>)
    ensures r == MigrateAll(datasets)
  {
    var done := [];
    for i := 0 to |datasets|
      invariant MigrateAll(datasets[..i]) == Some(done)
    {
      assert datasets[..i + 1][..i] == datasets[..i];
      var d := MigrateDataset(datasets[i]);
      if d.None? {
        MigrateAllStops(datasets, i + 1);
        return None;
      }
      done := done + [d.value];
    }
    assert datasets[..|datasets|] == datasets;
    return Some(done);
  }

  /**
   * A datapackage after the loop, and whether it had datasets (the
   * `updated` flag); None where the script raises.
   */
  function MigrateDp(dp: Value): Option<(Value, bool)>
  {
    if !dp.Obj? then None
    else
      var meta := Get(dp, "bcodmo:", Obj([]));
      if !meta.Obj? then None
      else
        var datasets := Get(meta, "datasets", Arr([]));
        match Elements(datasets)
        case None => None
        case Some(items) =>
          if items == [] then Some((dp, false))
          else
            match MigrateAll(items)
            case None => None
            case Some(migrated) =>
              Some((if datasets.Arr? then Set(dp, "bcodmo:", Set(meta, "datasets", Arr(migrated))) else dp, true))
  }

  /** What one datapackage adds to the uploads: its migrated form when `writeBack` and it had datasets. */
  function Uploads(oid: string, dp: Value, writeBack: bool): Option<seq<(string, Value)>>
  {
    match MigrateDp(dp)
    case None => None
    case Some((out, updated)) => Some(if writeBack && updated then [(DpKey(oid), out)] else [])
  }

  /** The script as written: the upload is guarded by a flag that stays False. */
  function Sweep(keys: seq<string>, fetch: Fetcher): Result<seq<(string, Value)>, string>
  {
    Collect(Visited(keys), fetch, (oid, dp) => Uploads(oid, dp, false))
  }

  /** The script as intended: every datapackage with datasets is written back migrated. */
  function IntendedSweep(keys: seq<string>, fetch: Fetcher): Result<seq<(string, Value)>, string>
  {
    Collect(Visited(keys), fetch, (oid, dp) => Uploads(oid, dp, true))
  }
}

module DatasetResourcesFacts {
  import opened Wrappers
  import opened Json
  import opened Text
  import opened SubmissionBucket
  import opened SubmissionBucketFacts
  import opened DatasetResources

  /**
   * An id is kept as often as it occurs among the resources, unless it is
   * a primary data file, when it is dropped entirely.
   */
  lemma {:induction false} SupplementalCounts(resources: seq<Value>, primary: seq<Value>, x: Value)
    ensures multiset(Supplemental(resources, primary))[x] == if x in primary then 0 else multiset(resources)[x]
  {
    if resources != [] {
      var init := resources[..|resources| - 1];
      var last := resources[|resources| - 1];
      var kept := if last in primary then [] else [last];
      SupplementalCounts(init, primary, x);
      CountLast(resources, x);
      CountAppend(Supplemental(init, primary), kept, x);
    }
  }

  lemma CountLast<T>(s: seq<T>, x: T)
    requires s != []
    ensures multiset(s)[x] == multiset(s[..|s| - 1])[x] + multiset([s[|s| - 1]])[x]
  {
    assert s == s[..|s| - 1] + [s[|s| - 1]];
  }

  lemma CountAppend<T>(a: seq<T>, b: seq<T>, x: T)
    ensures multiset(a + b)[x] == multiset(a)[x] + multiset(b)[x]
  {
  }

  /** Against a list of primary data files the test never raises and keeps the non-primary ids. */
  lemma {:induction false} KeptList(resources: seq<Value>, primary: seq<Value>)
    ensures Kept(resources, Arr(primary)) == Some(Supplemental(resources, primary))
  {
    if resources != [] {
      KeptList(resources[..|resources| - 1], primary);
    }
  }

  /**
   * The test raises on some resource id exactly when one of them cannot be
   * tested, and otherwise keeps each id that is not primary, in order.
   */
  lemma {:induction false} KeptFacts(resources: seq<Value>, primary: Value)
    ensures Kept(resources, primary).Some? <==> forall i :: 0 <= i < |resources| ==> IsPrimary(resources[i], primary).Some?
    ensures Kept(resources, primary).Some? ==>
      forall x :: x in Kept(resources, primary).value <==> x in resources && IsPrimary(x, primary) == Some(false)
  {
    if resources != [] {
      var init := resources[..|resources| - 1];
      var last := resources[|resources| - 1];
      KeptFacts(init, primary);
      assert resources == init + [last];
      if Kept(init, primary).Some? && Kept(resources, primary).None? {
        assert IsPrimary(resources[|resources| - 1], primary).None?;
      }
    }
  }

  /** A string of primary data files is searched for substrings: a resource id inside another is dropped. */
  lemma SubstringDropped()
    ensures Kept([Str("ab")], Str("xaby")) == Some([])
    ensures Kept([Str("ab")], Arr([Str("xaby")])) == Some([Str("ab")])
  {
    assert Contains("xaby", "ab") by {
      assert "ab" <= "xaby"[1..];
    }
    assert [Str("ab")][..0] == [];
    assert IsPrimary(Str("ab"), Str("xaby")) == Some(true);
    assert Kept([Str("ab")][..0], Str("xaby")) == Some([]);
    var none: seq<Value> := [];
    assert none + [] == none;
    KeptList([Str("ab")], [Str("xaby")]);
    assert Supplemental([Str("ab")], [Str("xaby")]) == [Str("ab")] by {
      assert Str("ab") != Str("xaby");
    }
  }

  /** With no primary data files every resource id is supplemental, in order. */
  lemma {:induction false} NoPrimaryKeepsAll(resources: seq<Value>)
    ensures Supplemental(resources, []) == resources
  {
    if resources != [] {
      NoPrimaryKeepsAll(resources[..|resources| - 1]);
      assert resources == resources[..|resources| - 1] + [resources[|resources| - 1]];
    }
  }

  /**
   * A migrated dataset has no "resources", has "supplementalFiles" from
   * its resources and primary files (None read as empty), and keeps every
   * other key.
   */
  lemma MigrateDatasetFacts(dataset: Value)
    requires MigrateDataset(dataset).Some?
    ensures var out := MigrateDataset(dataset).value;
      var ids := Elements(OrEmpty(Get(dataset, "resources", Arr([])))).value;
      var primary := OrEmpty(Get(dataset, "primaryDataFiles", Arr([])));
      !Has(out, "resources")
      && Kept(ids, primary).Some? && At(out, "supplementalFiles") == Arr(Kept(ids, primary).value)
      && forall k, d :: k != "resources" && k != "supplementalFiles" ==> Get(out, k, d) == Get(dataset, k, d)
  {
    var dropped := if Has(dataset, "resources") then Delete(dataset, "resources") else dataset;
    var ids := Elements(OrEmpty(Get(dataset, "resources", Arr([])))).value;
    var primary := OrEmpty(Get(dataset, "primaryDataFiles", Arr([])));
    var files := Arr(Kept(ids, primary).value);
    forall k, d ensures Get(Set(dropped, "supplementalFiles", files), k, d) == (if k == "supplementalFiles" then files else Get(dropped, k, d))
      && Has(Set(dropped, "supplementalFiles", files), k) == (k == "supplementalFiles" || Has(dropped, k))
    {
      GetSet(dropped, "supplementalFiles", files, k, d);
    }
    forall k, d ensures Get(dropped, k, d) == (if k == "resources" then d else Get(dataset, k, d)) && (Has(dropped, k) == (k != "resources" && Has(dataset, k)))
    {
      if Has(dataset, "resources") {
        GetDelete(dataset, "resources", k, d);
      }
    }
  }

  /**
   * Migrating a dataset twice empties its supplemental files: the first
   * pass removed the resources they are computed from.
   */
  lemma RerunEmpties(dataset: Value)
    requires MigrateDataset(dataset).Some?
    ensures var once := MigrateDataset(dataset).value;
      MigrateDataset(once) == Some(Set(once, "supplementalFiles", Arr([])))
  {
    MigrateDatasetFacts(dataset);
    var once := MigrateDataset(dataset).value;
    assert Get(once, "resources", Arr([])) == Arr([]);
  }

  /**
   * A datapackage without datasets is left as it is; one with datasets has
   * each of them migrated, in place.
   */
  lemma MigrateDpFacts(dp: Value)
    requires MigrateDp(dp).Some?
    ensures var (out, updated) := MigrateDp(dp).value;
      var datasets := Get(Get(dp, "bcodmo:", Obj([])), "datasets", Arr([]));
      (updated <==> Elements(datasets).value != [])
      && (!updated ==> out == dp)
      && (updated ==>
            datasets.Arr? && MigrateAll(datasets.items).Some?
            && At(At(out, "bcodmo:"), "datasets") == Arr(MigrateAll(datasets.items).value))
  {
    var meta := Get(dp, "bcodmo:", Obj([]));
    var datasets := Get(meta, "datasets", Arr([]));
    var items := Elements(datasets).value;
    if items != [] {
      if !datasets.Arr? {
        var first := items[0];
        assert first.Str?;
        assert MigrateAll(items[..1]) == None by {
          assert items[..1][..0] == [];
        }
        MigrateAllStops(items, 1);
      } else {
        var migrated := MigrateAll(items).value;
        GetSet(dp, "bcodmo:", Set(meta, "datasets", Arr(migrated)), "bcodmo:", Null);
        GetSet(meta, "datasets", Arr(migrated), "datasets", Null);
      }
    }
  }

  /** Finding, as written: the sweep never writes anything back. */
  lemma NothingWritten(keys: seq<string>, fetch: Fetcher)
    requires Sweep(keys, fetch).Ok?
    ensures Sweep(keys, fetch).value == []
  {
    NothingWrittenFrom(Visited(keys), fetch);
  }

  lemma {:induction false} NothingWrittenFrom(oids: seq<string>, fetch: Fetcher)
    requires Collect(oids, fetch, (oid, dp) => Uploads(oid, dp, false)).Ok?
    ensures Collect(oids, fetch, (oid, dp) => Uploads(oid, dp, false)).value == []
  {
    if oids != [] {
      NothingWrittenFrom(oids[..|oids| - 1], fetch);
    }
  }

  /**
   * As intended: every upload is a visited submission's datapackage,
   * migrated, under its own key, and only datapackages with datasets are
   * written.
   */
  lemma IntendedWrites(keys: seq<string>, fetch: Fetcher, put: (string, Value))
    requires IntendedSweep(keys, fetch).Ok?
    ensures put in IntendedSweep(keys, fetch).value <==>
      exists oid :: oid in Visited(keys) && fetch(DpKey(oid)).Some?
        && MigrateDp(fetch(DpKey(oid)).value).Some? && MigrateDp(fetch(DpKey(oid)).value).value.1
        && put == (DpKey(oid), MigrateDp(fetch(DpKey(oid)).value).value.0)
  {
    var each := (oid, dp) => Uploads(oid, dp, true);
    CollectFacts(Visited(keys), fetch, each);
  }

  /** The correction changes what is written and nothing else: both sweeps stop on the same datapackages. */
  lemma SameFailures(keys: seq<string>, fetch: Fetcher)
    ensures Sweep(keys, fetch).Err? <==> IntendedSweep(keys, fetch).Err?
  {
    CollectFacts(Visited(keys), fetch, (oid, dp) => Uploads(oid, dp, false));
    CollectFacts(Visited(keys), fetch, (oid, dp) => Uploads(oid, dp, true));
  }
}
