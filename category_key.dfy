/**
 * The default-category fill: every resource of a submission's datapackage
 * that has a "bcodmo:" object without a truthy "category" gets the category
 * "submitter"; a datapackage with at least one such resource is written
 * back. The listing is read page by page while pages have keys and a next
 * token.
 */
module CategoryKey {
  import opened Wrappers
  import opened Json
  import opened S3Listing
  import opened SubmissionBucket
  import opened ResourceSweep
  import SubmissionIndex

  /**
   * The keys of the pages the loop reads, starting with a request carrying
   * `request`, over at most `fuel` requests. A page without keys has no
   * "Contents" entry, so reading its length raises; a page whose next
   * token is missing or empty is the last.
   */
  function Scan(list: Lister, request: Option<string>, fuel: nat): (r: (seq<string>, Ending))
    ensures fuel > 0 && list(request).keys == [] ==> r == ([], Raised)
    decreases fuel
  {
    if fuel == 0 then ([], Cut)
    else
      var response := list(request);
      if response.keys == [] then ([], Raised)
      else
        var next := Request(NextToken(response));
        if next.None? then (response.keys, Listed)
        else
          var rest := Scan(list, next, fuel - 1);
          (response.keys + rest.0, rest.1)
  }

  /** The listing loop, cut after `fuel` requests. */
  method ScanAll(list: Lister, fuel: nat) returns (keys: seq<string>, ending: Ending)
    ensures (keys, ending) == Scan(list, None, fuel)
  {
    var request: Option<string> := None;
    keys := [];
    var n := 0;
    assert [] + Scan(list, None, fuel).0 == Scan(list, None, fuel).0;
    while n < fuel
      invariant n <= fuel
      invariant var rest := Scan(list, request, fuel - n);
        Scan(list, None, fuel) == (keys + rest.0, rest.1)
      decreases fuel - n
    {
      var response := list(request);
      if response.keys == [] {
        assert keys + [] == keys;
        return keys, Raised;
      }
      var next := Request(NextToken(response));
      if next.None? {
        return keys + response.keys, Listed;
      }
      assert keys + response.keys + Scan(list, next, fuel - n - 1).0
        == keys + (response.keys + Scan(list, next, fuel - n - 1).0);
      keys := keys + response.keys;
      request := next;
      n := n + 1;
    }
    assert keys + [] == keys;
    ending := Cut;
  }

  /**
   * `re.match("([A-za-z0-9]+)/datapackage.json", key)`: a non-empty run of
   * the class followed by the tail. The tail starts with "/", which is not
   * in the class, so the group can only end where the run ends.
   */
  function ObjectId(key: string): (r: Option<string>)
    ensures r.Some? ==>
      (|r.value| >= 1 && TailAt(key, |r.value|) && r.value == key[..|r.value|]
       && forall t :: 0 <= t < |r.value| ==> SubmissionIndex.InClass(key[t]))
    ensures forall j: nat :: 1 <= j <= |key| && TailAt(key, j) && (forall t :: 0 <= t < j ==> SubmissionIndex.InClass(key[t])) ==>
      r == Some(key[..j])
  {
    var n := SubmissionIndex.ClassRun(key);
    assert forall j: nat :: 1 <= j <= |key| && TailAt(key, j) && (forall t :: 0 <= t < j ==> SubmissionIndex.InClass(key[t])) ==> j == n by {
      forall j: nat | 1 <= j <= |key| && TailAt(key, j) && (forall t :: 0 <= t < j ==> SubmissionIndex.InClass(key[t]))
        ensures j == n
      {
        assert key[j + 0] == DpTail[0];
      }
    }
    if n >= 1 && TailAt(key, n) then Some(key[..n]) else None
  }

  /** The object ids of the matching keys, in listing order. */
  function Matched(keys: seq<string>): seq<string>
  {
    if keys == [] then []
    else
      var last := ObjectId(keys[|keys| - 1]);
      Matched(keys[..|keys| - 1]) + (if last.Some? then [last.value] else [])
  }

  const NoResources := "_bcodmo_no_resources"
  const Submitter := "submitter"

  /**
   * One resource after the fill and whether it changed; None where the
   * script raises on it (a resource or a "bcodmo:" that is not an object).
   */
  function FillResource(resource: Value): (r: Option<(Value, bool)>)
    ensures r.None? <==>
      !resource.Obj? || (At(resource, "name") != Str(NoResources) && !Get(resource, "bcodmo:", Obj([])).Obj?)
    ensures r.Some? && !r.value.1 ==> r.value.0 == resource
    ensures r.Some? && r.value.1 ==>
      Has(resource, "bcodmo:") && !Truthy(At(Get(resource, "bcodmo:", Obj([])), "category"))
  {
    if !resource.Obj? then None
    else if At(resource, "name") == Str(NoResources) then Some((resource, false))
    else
      var meta := Get(resource, "bcodmo:", Obj([]));
      if !meta.Obj? then None
      else if Truthy(At(meta, "category")) then Some((resource, false))
      else if !Has(resource, "bcodmo:") then Some((resource, false))
      else Some((Set(resource, "bcodmo:", Set(meta, "category", Str(Submitter))), true))
  }

  /** The visits of the listed keys, in order; Err with the id the script raised on. */
  function Sweep(keys: seq<string>, fetch: Fetcher): Result<seq<Visit>, string>
  {
    Collect(Matched(keys), fetch, Visiting(FillResource))
  }

  /** The printed totals. */
  datatype Report = Report(updatedOids: seq<string>, updated: nat, alreadyUpdated: nat, noCategory: nat,
                           resources: nat, files: nat)

  function Tally(visits: seq<Visit>): Report
  {
    if visits == [] then Report([], 0, 0, 0, 0, 0)
    else
      var t := Tally(visits[..|visits| - 1]);
      var v := visits[|visits| - 1];
      Report(t.updatedOids + (if v.changed > 0 then [v.oid] else []), t.updated + (if v.changed > 0 then 1 else 0),
             t.alreadyUpdated, t.noCategory + v.changed, t.resources + v.seen, 0)
  }

  /** The totals of a finished run over `keys`. */
  function Totals(keys: seq<string>, visits: seq<Visit>): Report
  {
    Tally(visits).(files := |keys|)
  }
}

module CategoryKeyFacts {
  import opened Wrappers
  import opened Json
  import opened S3Listing
  import opened S3ListingFacts
  import opened SubmissionBucket
  import opened SubmissionBucketFacts
  import opened ResourceSweep
  import opened ResourceSweepFacts
  import opened CategoryKey
  import SubmissionIndex

  /** The resource gets the default category: not the placeholder, a "bcodmo:" object, no truthy category. */
  predicate Fills(resource: Value)
  {
    resource.Obj? && At(resource, "name") != Str(NoResources) && Has(resource, "bcodmo:")
    && At(resource, "bcodmo:").Obj? && !Truthy(At(At(resource, "bcodmo:"), "category"))
  }

  /**
   * A resource changes exactly when it is not the placeholder and has a
   * "bcodmo:" object without a truthy category; it then gets the category
   * "submitter" and nothing else changes.
   */
  lemma FillResourceFacts(resource: Value, k: string, d: Value)
    requires FillResource(resource).Some?
    ensures var (out, changed) := FillResource(resource).value;
      (changed <==> Fills(resource))
      && (!changed ==> out == resource)
      && (changed ==>
            At(At(out, "bcodmo:"), "category") == Str(Submitter)
            && (k != "bcodmo:" ==> Get(out, k, d) == Get(resource, k, d))
            && (k != "category" ==> Get(At(out, "bcodmo:"), k, d) == Get(At(resource, "bcodmo:"), k, d)))
  {
    if Fills(resource) {
      var meta := At(resource, "bcodmo:");
      var newMeta := Set(meta, "category", Str(Submitter));
      GetSet(resource, "bcodmo:", newMeta, "bcodmo:", Null);
      GetSet(resource, "bcodmo:", newMeta, k, d);
      GetSet(meta, "category", Str(Submitter), "category", Null);
      GetSet(meta, "category", Str(Submitter), k, d);
    }
  }

  /**
   * The fill raises on anything but an object, and a filled resource is
   * not filled again: a second run over a datapackage changes nothing and
   * writes nothing.
   */
  lemma FillSettles()
    ensures ObjectsOnly(FillResource) && Settles(FillResource)
  {
    forall resource | FillResource(resource).Some?
      ensures var out := FillResource(resource).value.0; FillResource(out) == Some((out, false))
    {
      FillResourceFacts(resource, "name", Null);
      FillResourceFacts(resource, "bcodmo:", Null);
      var out := FillResource(resource).value.0;
      if FillResource(resource).value.1 {
        var meta := At(resource, "bcodmo:");
        GetSet(resource, "bcodmo:", Set(meta, "category", Str(Submitter)), "bcodmo:", Null);
        assert Get(out, "bcodmo:", Obj([])) == At(out, "bcodmo:");
      }
    }
  }

  /** The written datapackages and the updated ids go together, one per visit with a change. */
  lemma {:induction false} TallyFacts(visits: seq<Visit>)
    ensures var t := Tally(visits);
      t.alreadyUpdated == 0 && t.updated == |t.updatedOids| == |Writes(visits)|
      && t.noCategory >= t.updated
      && forall i :: 0 <= i < |Writes(visits)| ==> Writes(visits)[i].0 == DpKey(t.updatedOids[i])
  {
    if visits != [] {
      TallyFacts(visits[..|visits| - 1]);
    }
  }

  /**
   * The listing loop reads every page of a bucket whose pages all have
   * keys and whose last page names no next token.
   */
  lemma {:induction false} ScanFrom(list: Lister, pages: seq<ListResponse>, i: nat, request: Option<string>, fuel: nat)
    requires Serves(list, pages) && i < |pages| && list(request) == pages[i]
    requires Request(pages[|pages| - 1].nextContinuationToken).None?
    requires fuel >= |pages| - i
    ensures Scan(list, request, fuel) == (AllKeys(pages[i..]), Listed)
    decreases |pages| - i
  {
    assert pages[i..][1..] == pages[i + 1..];
    if i < |pages| - 1 {
      ScanFrom(list, pages, i + 1, pages[i].nextContinuationToken, fuel - 1);
    } else {
      assert pages[i + 1..] == [];
      assert pages[i].keys + [] == pages[i].keys;
    }
  }

  lemma ScanListsAll(list: Lister, pages: seq<ListResponse>, fuel: nat)
    requires Serves(list, pages) && fuel >= |pages|
    requires Request(pages[|pages| - 1].nextContinuationToken).None?
    ensures Scan(list, None, fuel) == (AllKeys(pages), Listed)
  {
    ScanFrom(list, pages, 0, None, fuel);
    assert pages[0..] == pages;
  }

  /**
   * The sweep visits exactly the matched datapackages it can read, and
   * writes back those where a resource changed.
   */
  lemma SweepWrites(keys: seq<string>, fetch: Fetcher, w: (string, Value))
    requires Sweep(keys, fetch).Ok?
    ensures w in Writes(Sweep(keys, fetch).value) <==>
      exists oid :: oid in Matched(keys) && fetch(DpKey(oid)).Some?
        && FixDp(oid, fetch(DpKey(oid)).value, FillResource).Some?
        && FixDp(oid, fetch(DpKey(oid)).value, FillResource).value.changed > 0
        && w == (DpKey(oid), FixDp(oid, fetch(DpKey(oid)).value, FillResource).value.out)
  {
    WritesFrom(Matched(keys), fetch, FillResource, w);
  }

  /** An id is matched only with the datapackage key it was read from: the key it fetches. */
  lemma MatchedKeyRoundTrip(oid: string)
    requires oid != [] && forall t :: 0 <= t < |oid| ==> SubmissionIndex.InClass(oid[t])
    ensures ObjectId(DpKey(oid)) == Some(oid)
  {
    TailFollows(oid, []);
    assert DpKey(oid) + [] == DpKey(oid);
    assert DpKey(oid)[..|oid|] == oid;
  }
}
