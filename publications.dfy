/**
 * The publications migration: in a submission's metadata, the three parts
 * of "related_publications" that are still plain strings become lists of
 * one migrated citation record each, an empty string removes its part, and
 * a "related_publications" left with no used part is removed altogether.
 * Every migrated datapackage is written back under its own key.
 */
module Publications {
  import opened Wrappers
  import opened Json
  import opened SubmissionBucket
  import RelatedPublications

  /** The nested key and its three parts, as in the related-publications repair. */
  const Nested := RelatedPublications.Nested
  const Parts := RelatedPublications.Parts

  /** `"bcodmo:" in dp and "submissionId" in dp["bcodmo:"]`. */
  predicate IsSubmission(dp: Value)
  {
    Has(dp, "bcodmo:") && Has(At(dp, "bcodmo:"), "submissionId")
  }

  /** The citation record a non-empty string becomes. */
  function Record(description: string): Value
  {
    Obj([("_migrated", Bool(true)), ("_found_citation", Str("")), ("identifier", Str("")),
         ("identifier_type", Str("none")), ("description", Str(description))])
  }

  /** Some part is still a string: the datapackage is migrated. */
  predicate AnyText(pubs: Value)
  {
    exists i :: 0 <= i < |Parts| && At(pubs, Parts[i]).Str?
  }

  /** Every part is a string, as the migration asserts. */
  predicate AllText(pubs: Value)
  {
    forall i :: 0 <= i < |Parts| ==> At(pubs, Parts[i]).Str?
  }

  /** The (key, string) pairs the migration loop walks, in order. */
  function Texts(pubs: Value): (r: seq<(string, string)>)
    requires AllText(pubs)
    ensures |r| == |Parts|
    ensures forall i :: 0 <= i < |Parts| ==> r[i] == (Parts[i], At(pubs, Parts[i]).s)
  {
    seq(|Parts|, i requires 0 <= i < |Parts| => (Parts[i], At(pubs, Parts[i]).s))
  }

  /** `publications` after the loop has handled `fields`: "" deletes, any other string becomes a record list. */
  function Migrated(pubs: Value, fields: seq<(string, string)>): (r: Value)
    requires pubs.Obj?
    ensures r.Obj?
  {
    if fields == [] then pubs
    else
      var (k, v) := fields[|fields| - 1];
      var prev := Migrated(pubs, fields[..|fields| - 1]);
      if v == "" then Delete(prev, k) else Set(prev, k, Arr([Record(v)]))
  }

  /** Some field had a non-empty string. */
  predicate Used(fields: seq<(string, string)>)
  {
    exists i :: 0 <= i < |fields| && fields[i].1 != ""
  }

  /** The migration loop, with its `used` flag. */
  method MigrateFields(pubs: Value, fields: seq<(string, string)>) returns (out: Value, used: bool)
    requires pubs.Obj?
    ensures out == Migrated(pubs, fields)
    ensures used <==> Used(fields)
  {
    out := pubs;
    used := false;
    for i := 0 to |fields|
      invariant out == Migrated(pubs, fields[..i])
      invariant used <==> Used(fields[..i])
    {
      assert fields[..i + 1][..i] == fields[..i];
      var (k, v) := fields[i];
      if v == "" {
        out := Delete(out, k);
      } else {
        used := true;
        out := Set(out, k, Arr([Record(v)]));
      }
      assert Used(fields[..i + 1]) <==> Used(fields[..i]) || v != "" by {
        if Used(fields[..i + 1]) && v == "" {
          var j :| 0 <= j < i + 1 && fields[..i + 1][j].1 != "";
          assert fields[..i][j].1 != "";
        }
        if Used(fields[..i]) {
          var j :| 0 <= j < i && fields[..i][j].1 != "";
          assert fields[..i + 1][j].1 != "";
        }
        if v != "" {
          assert fields[..i + 1][i].1 != "";
        }
      }
    }
    assert fields[..|fields|] == fields;
  }

  /**
   * One datapackage: None where the script raises on it, Some(None) where
   * it is left alone, else the datapackage written back.
   */
  function Publish(dp: Value): (r: Option<Option<Value>>)
    ensures r.None? ==> IsSubmission(dp)
    ensures r.Some? && r.value.Some? ==>
      var pubs := Get(Get(At(dp, "bcodmo:"), "metadata", Obj([])), Nested, Null);
      IsSubmission(dp) && pubs.Obj? && AnyText(pubs) && AllText(pubs)
  {
    if !IsSubmission(dp) then Some(None)
    else
      var meta := At(dp, "bcodmo:");
      var metadata := Get(meta, "metadata", Obj([]));
      if !metadata.Obj? then None
      else
        var pubs := Get(metadata, Nested, Null);
        if pubs == Null then Some(None)
        else if !pubs.Obj? then None
        else if !AnyText(pubs) then Some(None)
        else if !AllText(pubs) then None
        else
          var fields := Texts(pubs);
          var out := Migrated(pubs, fields);
          var newMetadata := if Used(fields) then Set(metadata, Nested, out) else Delete(metadata, Nested);
          Some(Some(Set(dp, "bcodmo:", Set(meta, "metadata", newMetadata))))
  }

  function Rewrite(oid: string, dp: Value): Option<seq<(string, Value)>>
  {
    match Publish(dp)
    case None => None
    case Some(None) => Some([])
    case Some(Some(out)) => Some([(DpKey(oid), out)])
  }

  /** The uploads, in listing order. */
  function Sweep(keys: seq<string>, fetch: Fetcher): Result<seq<(string, Value)>, string>
  {
    Collect(Visited(keys), fetch, Rewrite)
  }
}

module PublicationsFacts {
  import opened Wrappers
  import opened Json
  import opened SubmissionBucket
  import opened SubmissionBucketFacts
  import opened Publications

  /** No two fields share a key. */
  predicate DistinctKeys(fields: seq<(string, string)>)
  {
    forall i, j :: 0 <= i < j < |fields| ==> fields[i].0 != fields[j].0
  }

  /**
   * With distinct keys, each field's key ends up deleted ("") or holding
   * its record list, and every other key is as before.
   */
  lemma {:induction false} MigratedFacts(pubs: Value, fields: seq<(string, string)>, k: string, d: Value)
    requires pubs.Obj? && DistinctKeys(fields)
    ensures forall i :: 0 <= i < |fields| && fields[i].0 == k ==>
      (fields[i].1 == "" ==> !Has(Migrated(pubs, fields), k))
      && (fields[i].1 != "" ==> Has(Migrated(pubs, fields), k) && Get(Migrated(pubs, fields), k, d) == Arr([Record(fields[i].1)]))
    ensures (forall i :: 0 <= i < |fields| ==> fields[i].0 != k) ==>
      Get(Migrated(pubs, fields), k, d) == Get(pubs, k, d) && Has(Migrated(pubs, fields), k) == Has(pubs, k)
  {
    if fields != [] {
      var n := |fields| - 1;
      var init := fields[..n];
      var (j, v) := fields[n];
      var prev := Migrated(pubs, init);
      MigratedFacts(pubs, init, k, d);
      if v == "" {
        GetDelete(prev, j, k, d);
      } else {
        GetSet(prev, j, Arr([Record(v)]), k, d);
      }
      forall i | 0 <= i < n
        ensures init[i] == fields[i]
      {
      }
    }
  }

  lemma PartsDistinct()
    ensures forall i, j :: 0 <= i < j < |Parts| ==> Parts[i] != Parts[j]
  {
  }

  /** Migration happens exactly when some part is a string, and raises unless all three are. */
  lemma MigratesIff(dp: Value)
    requires IsSubmission(dp)
    requires Get(At(dp, "bcodmo:"), "metadata", Obj([])).Obj?
    ensures var pubs := Get(Get(At(dp, "bcodmo:"), "metadata", Obj([])), Nested, Null);
      (Publish(dp).Some? && Publish(dp).value.Some? <==> pubs.Obj? && AnyText(pubs) && AllText(pubs))
      && (pubs.Obj? && AnyText(pubs) && !AllText(pubs) ==> Publish(dp).None?)
      && (pubs == Null ==> Publish(dp) == Some(None))
  {
  }

  /** `dp["bcodmo:"]["metadata"]`. */
  function MetadataOf(dp: Value): Value { At(At(dp, "bcodmo:"), "metadata") }

  /** The metadata a migrated datapackage is written back with. */
  lemma Unwrapped(dp: Value)
    requires Publish(dp).Some? && Publish(dp).value.Some?
    ensures var pubs := At(MetadataOf(dp), Nested);
      var out := Publish(dp).value.value;
      MetadataOf(dp).Obj? && pubs.Obj? && AllText(pubs) && IsSubmission(out)
      && MetadataOf(out) == if Used(Texts(pubs)) then Set(MetadataOf(dp), Nested, Migrated(pubs, Texts(pubs)))
                            else Delete(MetadataOf(dp), Nested)
  {
    var meta := At(dp, "bcodmo:");
    var metadata := Get(meta, "metadata", Obj([]));
    var pubs := Get(metadata, Nested, Null);
    var fields := Texts(pubs);
    var newMetadata := if Used(fields) then Set(metadata, Nested, Migrated(pubs, fields)) else Delete(metadata, Nested);
    var newMeta := Set(meta, "metadata", newMetadata);
    GetSet(dp, "bcodmo:", newMeta, "bcodmo:", Null);
    GetSet(meta, "metadata", newMetadata, "metadata", Null);
    GetSet(meta, "metadata", newMetadata, "submissionId", Null);
  }

  /** A part is used exactly when not every part is "". */
  lemma UsedIff(pubs: Value)
    requires AllText(pubs)
    ensures Used(Texts(pubs)) <==> !(forall i :: 0 <= i < |Parts| ==> At(pubs, Parts[i]) == Str(""))
  {
    var fields := Texts(pubs);
    if Used(fields) {
      var i :| 0 <= i < |fields| && fields[i].1 != "";
      assert At(pubs, Parts[i]) != Str("");
    }
    if !(forall i :: 0 <= i < |Parts| ==> At(pubs, Parts[i]) == Str("")) {
      var i :| 0 <= i < |Parts| && At(pubs, Parts[i]) != Str("");
      assert fields[i].1 != "";
    }
  }

  /**
   * A migrated datapackage is still a submission, keeps every other
   * metadata key, and loses "related_publications" exactly when all three
   * parts were "".
   */
  lemma PublishedMetadata(dp: Value, k: string, d: Value)
    requires Publish(dp).Some? && Publish(dp).value.Some?
    ensures var out := Publish(dp).value.value;
      IsSubmission(out) && MetadataOf(out).Obj?
      && (k != Nested ==> Get(MetadataOf(out), k, d) == Get(MetadataOf(dp), k, d))
      && ((forall i :: 0 <= i < |Parts| ==> At(At(MetadataOf(dp), Nested), Parts[i]) == Str("")) <==> !Has(MetadataOf(out), Nested))
  {
    Unwrapped(dp);
    var metadata := MetadataOf(dp);
    var pubs := At(metadata, Nested);
    var out := Migrated(pubs, Texts(pubs));
    UsedIff(pubs);
    if Used(Texts(pubs)) {
      GetSet(metadata, Nested, out, k, d);
      GetSet(metadata, Nested, out, Nested, Null);
    } else {
      GetDelete(metadata, Nested, k, d);
      GetDelete(metadata, Nested, Nested, Null);
    }
  }

  /**
   * Where "related_publications" remains: each part given as "" is gone,
   * each other part holds its one record, and other keys are kept.
   */
  lemma PublishedParts(dp: Value, k: string, d: Value)
    requires Publish(dp).Some? && Publish(dp).value.Some?
    requires Has(MetadataOf(Publish(dp).value.value), Nested)
    ensures var pubs := At(MetadataOf(dp), Nested);
      var newPubs := At(MetadataOf(Publish(dp).value.value), Nested);
      newPubs.Obj?
      && (forall i :: 0 <= i < |Parts| && At(pubs, Parts[i]) == Str("") ==> !Has(newPubs, Parts[i]))
      && (forall i :: 0 <= i < |Parts| && At(pubs, Parts[i]) != Str("") ==>
            At(newPubs, Parts[i]) == Arr([Record(At(pubs, Parts[i]).s)]))
      && (k !in Parts ==> Get(newPubs, k, d) == Get(pubs, k, d))
  {
    Unwrapped(dp);
    var metadata := MetadataOf(dp);
    var pubs := At(metadata, Nested);
    var fields := Texts(pubs);
    var out := Migrated(pubs, fields);
    if !Used(fields) {
      GetDelete(metadata, Nested, Nested, Null);
    } else {
      GetSet(metadata, Nested, out, Nested, Null);
      PartsDistinct();
      forall i | 0 <= i < |Parts|
        ensures At(pubs, Parts[i]) == Str("") ==> !Has(out, Parts[i])
        ensures At(pubs, Parts[i]) != Str("") ==> At(out, Parts[i]) == Arr([Record(At(pubs, Parts[i]).s)])
      {
        MigratedFacts(pubs, fields, Parts[i], Null);
        assert fields[i].0 == Parts[i];
      }
      MigratedFacts(pubs, fields, k, d);
    }
  }

  /** A second run leaves every datapackage alone: no part is a string any more. */
  lemma RerunUnchanged(dp: Value)
    requires Publish(dp).Some? && Publish(dp).value.Some?
    ensures Publish(Publish(dp).value.value) == Some(None)
  {
    var out := Publish(dp).value.value;
    PublishedMetadata(dp, Nested, Null);
    assert Get(At(out, "bcodmo:"), "metadata", Obj([])) == MetadataOf(out);
    if Has(MetadataOf(out), Nested) {
      PublishedParts(dp, Nested, Null);
      Unwrapped(dp);
    }
  }

  /** Datapackages that are not submissions are never written. */
  lemma OnlySubmissions(dp: Value)
    requires !IsSubmission(dp)
    ensures Publish(dp) == Some(None)
  {
  }

  /**
   * The sweep writes back exactly the visited datapackages that are
   * migrated, each migrated, under its own key.
   */
  lemma SweepWrites(keys: seq<string>, fetch: Fetcher, put: (string, Value))
    requires Sweep(keys, fetch).Ok?
    ensures put in Sweep(keys, fetch).value <==>
      exists oid :: oid in Visited(keys) && fetch(DpKey(oid)).Some?
        && Publish(fetch(DpKey(oid)).value).Some? && Publish(fetch(DpKey(oid)).value).value.Some?
        && put == (DpKey(oid), Publish(fetch(DpKey(oid)).value).value.value)
  {
    CollectFacts(Visited(keys), fetch, Rewrite);
  }
}
