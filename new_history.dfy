/**
 * The rebuild of the object-history table from S3 alone: every version of
 * each submission's datapackage.json becomes a row, oldest first, chained
 * by VersionIdBefore/VersionIdAfter. Times are milliseconds since the epoch.
 */
module NewHistory {
  import opened Wrappers
  import opened UpdatedKeys
  import SubmissionBucket

  const Unknown := "unknown"
  predicate Alnum(c: char)
  {
    'a' <= c <= 'z' || 'A' <= c <= 'Z' || '0' <= c <= '9'
  }

  /** `([a-zA-Z0-9]*)/datapackage.json` matches at the start of `key` with the group ending at `j`. */
  predicate MatchesAt(key: string, j: nat)
  {
    j <= |key| && (forall t :: 0 <= t < j ==> Alnum(key[t])) && SubmissionBucket.TailAt(key, j)
  }

  /** The length of the run of letters and digits `key` starts with. */
  function AlnumRun(key: string): (r: nat)
    ensures r <= |key|
    ensures forall t :: 0 <= t < r ==> Alnum(key[t])
    ensures r < |key| ==> !Alnum(key[r])
  {
    if key == [] || !Alnum(key[0]) then 0 else 1 + AlnumRun(key[1..])
  }

  /**
   * `re.match(...).groups()[0]`: the object id of a key the loop handles, None
   * for the keys it skips. The group cannot end anywhere but at the end of
   * the leading run, as the `/` after it is not a letter or digit.
   */
  function ObjectIdOf(key: string): (r: Option<string>)
    ensures r.Some? ==> MatchesAt(key, |r.value|) && r.value == key[..|r.value|]
    ensures r.None? ==> forall j: nat :: !MatchesAt(key, j)
    ensures forall j: nat :: MatchesAt(key, j) ==> r.Some? && j == |r.value|
  {
    var n := AlnumRun(key);
    assert forall j: nat :: MatchesAt(key, j) ==> j == n by {
      forall j: nat | MatchesAt(key, j) ensures j == n {
        assert SubmissionBucket.DpTail[0] == '/';
        assert key[j + 0] == '/';
      }
    }
    if SubmissionBucket.TailAt(key, n) then Some(key[..n]) else None
  }

  /** An entry of "Versions". */
  datatype ObjectVersion = ObjectVersion(versionId: string, lastModified: int)

  /** A list_object_versions response: its "Versions", None where absent, and whether it has a NextVersionIdMarker. */
  datatype VersionsPage = VersionsPage(versions: Option<seq<ObjectVersion>>, hasMarker: bool)

  function Prepend(vs: seq<ObjectVersion>, rest: Option<seq<ObjectVersion>>): Option<seq<ObjectVersion>>
  {
    if rest.None? then None else Some(vs + rest.value)
  }

  lemma PrependTwice(a: seq<ObjectVersion>, b: seq<ObjectVersion>, rest: Option<seq<ObjectVersion>>)
    ensures Prepend(a, Prepend(b, rest)) == Prepend(a + b, rest)
  {
    if rest.Some? {
      assert a + (b + rest.value) == (a + b) + rest.value;
    }
  }

  /**
   * The versions gathered from the responses, the first one being the initial
   * request; None where a response lacks "Versions", where the script fails,
   * or the responses end while a marker still asks for more.
   */
  function Collect(responses: seq<VersionsPage>): Option<seq<ObjectVersion>>
  {
    if responses == [] || responses[0].versions.None? then None
    else if !responses[0].hasMarker then Some(responses[0].versions.value)
    else Prepend(responses[0].versions.value, Collect(responses[1..]))
  }

  /** The `while True` loop that accumulates versions across pages. */
  method CollectVersions(responses: seq<VersionsPage>) returns (r: Option<seq<ObjectVersion>>)
    ensures r == Collect(responses)
  {
    var versions: seq<ObjectVersion> := [];
    var i := 0;
    assert responses[0..] == responses;
    assert Collect(responses).Some? ==> [] + Collect(responses).value == Collect(responses).value;
    while i < |responses|
      invariant i <= |responses|
      invariant Collect(responses) == Prepend(versions, Collect(responses[i..]))
      decreases |responses| - i
    {
      var res := responses[i];
      if res.versions.None? {
        return None;
      }
      assert responses[i..][1..] == responses[i + 1..];
      PrependTwice(versions, res.versions.value, Collect(responses[i + 1..]));
      versions := versions + res.versions.value;
      if !res.hasMarker {
        return Some(versions);
      }
      i := i + 1;
    }
    return None;
  }

  /** The versions oldest first: `reversed(versions)` of the newest-first listing. */
  function Oldest(versions: seq<ObjectVersion>): (r: seq<ObjectVersion>)
    ensures |r| == |versions|
  {
    seq(|versions|, i requires 0 <= i < |versions| => versions[|versions| - 1 - i])
  }

  function Times(versions: seq<ObjectVersion>): (r: seq<int>)
    ensures |r| == |versions|
  {
    seq(|versions|, i requires 0 <= i < |versions| => versions[i].lastModified)
  }

  /** The Updated keys of an object's rows. */
  function UpdatedOf(versions: seq<ObjectVersion>): (r: seq<int>)
    ensures |r| == |versions|
  {
    Keys(Times(Oldest(versions)))
  }

  /** A row of the object-history table. */
  datatype HistoryRow = HistoryRow(objectId: string, updated: int, orcid: string,
                                   versionIdAfter: string, versionIdBefore: string)

  /** The row of the `i`-th oldest version. */
  function RowAt(objectId: string, versions: seq<ObjectVersion>, i: nat): HistoryRow
    requires i < |versions|
  {
    var oldest := Oldest(versions);
    HistoryRow(objectId, UpdatedOf(versions)[i], Unknown, oldest[i].versionId,
               if i == 0 then "" else oldest[i - 1].versionId)
  }

  /** The rows of one object when every key passes the check. */
  function ObjectRows(objectId: string, versions: seq<ObjectVersion>): (r: seq<HistoryRow>)
    ensures |r| == |versions|
  {
    seq(|versions|, i requires 0 <= i < |versions| => RowAt(objectId, versions, i))
  }

  lemma RowsExtend(objectId: string, versions: seq<ObjectVersion>, rows: seq<HistoryRow>, i: nat)
    requires i < |versions| && rows == ObjectRows(objectId, versions)[..i]
    ensures rows + [RowAt(objectId, versions, i)] == ObjectRows(objectId, versions)[..i + 1]
  {
  }

  /**
   * The batch write of one object: rows up to the first failing key, whether
   * none failed, and what rows_added grows by (the failing row included).
   */
  method WriteRows(objectId: string, versions: seq<ObjectVersion>) returns (rows: seq<HistoryRow>, ok: bool, added: nat)
    ensures ok <==> Accepted(UpdatedOf(versions))
    ensures |rows| == Admitted(UpdatedOf(versions))
    ensures rows == ObjectRows(objectId, versions)[..|rows|]
    ensures added == if ok then |rows| else |rows| + 1
  {
    var oldest := Oldest(versions);
    var keys;
    keys, ok := AssignKeys(Times(oldest));
    rows := [];
    var previous := "";
    assert keys == UpdatedOf(versions)[..|keys|];
    for i := 0 to |keys|
      invariant rows == ObjectRows(objectId, versions)[..i]
      invariant previous == if i == 0 then "" else oldest[i - 1].versionId
    {
      assert HistoryRow(objectId, keys[i], Unknown, oldest[i].versionId, previous) == RowAt(objectId, versions, i);
      RowsExtend(objectId, versions, rows, i);
      rows := rows + [HistoryRow(objectId, keys[i], Unknown, oldest[i].versionId, previous)];
      previous := oldest[i].versionId;
    }
    added := if ok then |rows| else |rows| + 1;
  }

  /**
   * A list_objects_v2 response: its "Contents" keys, None for a response
   * without "Contents", and whether it has a NextContinuationToken.
   */
  datatype ListingPage = ListingPage(contents: Option<seq<string>>, hasToken: bool)

  /**
   * The keys the listing loop visits, and whether it raises on a response
   * without "Contents": it stops at an empty page or one without a token.
   */
  function Listed(pages: seq<ListingPage>): (seq<string>, bool)
  {
    if pages == [] then ([], false)
    else if pages[0].contents.None? then ([], true)
    else if pages[0].contents.value == [] then ([], false)
    else if !pages[0].hasToken then (pages[0].contents.value, false)
    else
      var rest := Listed(pages[1..]);
      (pages[0].contents.value + rest.0, rest.1)
  }

  method ListKeys(pages: seq<ListingPage>) returns (keys: seq<string>, raised: bool)
    ensures (keys, raised) == Listed(pages)
  {
    keys := [];
    var i := 0;
    assert pages[0..] == pages;
    assert [] + Listed(pages).0 == Listed(pages).0;
    while i < |pages|
      invariant i <= |pages|
      invariant Listed(pages).0 == keys + Listed(pages[i..]).0
      invariant Listed(pages).1 == Listed(pages[i..]).1
      decreases |pages| - i
    {
      assert pages[i..][1..] == pages[i + 1..];
      assert keys + [] == keys;
      var contents := pages[i].contents;
      if contents.None? {
        return keys, true;
      }
      if contents.value == [] {
        return keys, false;
      }
      keys := keys + contents.value;
      if !pages[i].hasToken {
        return keys, false;
      }
      i := i + 1;
    }
    assert pages[i..] == [];
    assert keys + [] == keys;
    return keys, false;
  }

  /** The responses of list_object_versions for each prefix. */
  type VersionListing = string -> seq<VersionsPage>

  /** The run's tallies; `failed` once the script has stopped. */
  datatype Summary = Summary(rows: seq<HistoryRow>, counter: nat, updated: nat, added: nat, failed: bool)

  /** The effect of a datapackage key with object id `oid`. */
  function ObjectStep(s: Summary, oid: string, listing: VersionListing): Summary
  {
    match Collect(listing(oid + SubmissionBucket.DpTail))
    case None => s.(failed := true)
    case Some(versions) =>
      var n := Admitted(UpdatedOf(versions));
      var rows := s.rows + ObjectRows(oid, versions)[..n];
      if n == |versions| then s.(rows := rows, added := s.added + n, updated := s.updated + 1)
      else s.(rows := rows, added := s.added + n + 1, failed := true)
  }

  /** The effect of one listed key. */
  function Step(s: Summary, key: string, listing: VersionListing): Summary
  {
    if s.failed then s
    else
      var s := s.(counter := s.counter + 1);
      match ObjectIdOf(key)
      case None => s
      case Some(oid) => ObjectStep(s, oid, listing)
  }

  /** The versions of one object and its rows. */
  method HandleObject(s: Summary, oid: string, listing: VersionListing) returns (s': Summary)
    ensures s' == ObjectStep(s, oid, listing)
  {
    s' := s;
    var versions := CollectVersions(listing(oid + SubmissionBucket.DpTail));
    if versions.None? {
      s' := s'.(failed := true);
    } else {
      var rows, ok, added := WriteRows(oid, versions.value);
      s' := s'.(rows := s'.rows + rows, added := s'.added + added);
      if ok {
        s' := s'.(updated := s'.updated + 1);
      } else {
        s' := s'.(failed := true);
      }
    }
  }

  /** The run over the listed keys. */
  function Run(keys: seq<string>, listing: VersionListing): Summary
  {
    if keys == [] then Summary([], 0, 0, 0, false)
    else Step(Run(keys[..|keys| - 1], listing), keys[|keys| - 1], listing)
  }

  /** The body of the key loop. */
  method HandleKey(s: Summary, key: string, listing: VersionListing) returns (s': Summary)
    ensures s' == Step(s, key, listing)
  {
    if s.failed {
      return s;
    }
    s' := s.(counter := s.counter + 1);
    var z := ObjectIdOf(key);
    if z.Some? {
      s' := HandleObject(s', z.value, listing);
    }
  }

  /**
   * The script's top level: the run over the listed keys, stopped if the
   * listing raised after them.
   */
  method Migrate(pages: seq<ListingPage>, listing: VersionListing) returns (s: Summary)
    ensures var (keys, raised) := Listed(pages);
      s == if raised then Run(keys, listing).(failed := true) else Run(keys, listing)
  {
    var keys, raised := ListKeys(pages);
    s := Summary([], 0, 0, 0, false);
    for k := 0 to |keys|
      invariant s == Run(keys[..k], listing)
    {
      assert keys[..k + 1][..k] == keys[..k];
      s := HandleKey(s, keys[k], listing);
    }
    assert keys[..|keys|] == keys;
    if raised {
      s := s.(failed := true);
    }
  }
}

module NewHistoryFacts {
  import opened Wrappers
  import opened UpdatedKeys
  import opened UpdatedKeysFacts
  import opened NewHistory
  import SubmissionBucketFacts

  function VersionsOf(page: VersionsPage): seq<ObjectVersion>
  {
    if page.versions.Some? then page.versions.value else []
  }

  /** The versions of the responses, in order. */
  function AllVersions(responses: seq<VersionsPage>): seq<ObjectVersion>
  {
    if responses == [] then [] else VersionsOf(responses[0]) + AllVersions(responses[1..])
  }

  /**
   * With the first response lacking a marker at `k`, the versions are those of
   * the responses up to and including `k`, and later ones are never read.
   */
  lemma {:induction false} CollectUpTo(responses: seq<VersionsPage>, k: nat)
    requires k < |responses| && !responses[k].hasMarker
    requires forall j :: 0 <= j < k ==> responses[j].hasMarker
    ensures Collect(responses) == Collect(responses[..k + 1])
    ensures (forall j :: 0 <= j <= k ==> responses[j].versions.Some?) ==>
      Collect(responses) == Some(AllVersions(responses[..k + 1]))
    ensures (exists j :: 0 <= j <= k && responses[j].versions.None?) ==> Collect(responses) == None
  {
    var prefix := responses[..k + 1];
    assert AllVersions(prefix) == VersionsOf(responses[0]) + AllVersions(prefix[1..]);
    if k > 0 {
      assert responses[1..][..k] == prefix[1..];
      CollectUpTo(responses[1..], k - 1);
      assert forall j :: 1 <= j <= k ==> responses[1..][j - 1] == responses[j];
    } else {
      assert AllVersions(prefix[1..]) == [];
      assert VersionsOf(responses[0]) + [] == VersionsOf(responses[0]);
    }
  }

  /**
   * Rows come oldest first (the listing reversed), all with orcid "unknown";
   * the first has an empty VersionIdBefore and every later one the previous
   * row's VersionIdAfter.
   */
  lemma ObjectRowsChain(objectId: string, versions: seq<ObjectVersion>)
    ensures var rows := ObjectRows(objectId, versions);
      (forall i :: 0 <= i < |rows| ==>
        (rows[i].objectId == objectId && rows[i].orcid == Unknown
         && rows[i].versionIdAfter == versions[|versions| - 1 - i].versionId))
      && (|rows| > 0 ==> rows[0].versionIdBefore == "")
      && forall i :: 0 < i < |rows| ==> rows[i].versionIdBefore == rows[i - 1].versionIdAfter
  {
  }

  /**
   * A newest-first listing in whole seconds with fewer than a thousand
   * versions per second gets strictly increasing keys: every row is put.
   */
  lemma ObjectKeysIncrease(versions: seq<ObjectVersion>)
    requires forall i, j :: 0 <= i < j < |versions| ==> versions[i].lastModified >= versions[j].lastModified
    requires forall i :: 0 <= i < |versions| ==> versions[i].lastModified % 1000 == 0
    requires forall i :: 0 <= i < |versions| ==> RunIndex(Times(Oldest(versions)), i) < 1000
    ensures Accepted(UpdatedOf(versions)) && Admitted(UpdatedOf(versions)) == |versions|
    ensures var keys := UpdatedOf(versions); forall i, j :: 0 <= i < j < |keys| ==> keys[i] < keys[j]
  {
    var times := Times(Oldest(versions));
    assert forall i :: 0 <= i < |times| ==> times[i] == versions[|versions| - 1 - i].lastModified;
    assert Chronological(times);
    KeysIncrease(times);
  }

  /** How many listed keys name an object the loop handles. */
  function Handled(keys: seq<string>): nat
  {
    if keys == [] then 0
    else Handled(keys[..|keys| - 1]) + (if ObjectIdOf(keys[|keys| - 1]).Some? then 1 else 0)
  }

  /**
   * A run that completes visits every key, counts every handled object as
   * updated, and adds exactly the rows it puts; a stopped run has counted at
   * most one row it did not put.
   */
  lemma {:induction false} RunTallies(keys: seq<string>, listing: VersionListing)
    ensures var s := Run(keys, listing); |s.rows| <= s.added <= |s.rows| + 1
    ensures var s := Run(keys, listing);
      !s.failed ==> s.counter == |keys| && s.updated == Handled(keys) && s.added == |s.rows|
  {
    if keys != [] {
      RunTallies(keys[..|keys| - 1], listing);
    }
  }

  /** With no end anchor, a key that only starts like a datapackage key is handled under the same id. */
  lemma NoEndAnchor()
    ensures ObjectIdOf("ab/datapackage.json.bak") == Some("ab")
  {
    var key := "ab/datapackage.json.bak";
    SubmissionBucketFacts.BakTail();
    assert MatchesAt(key, 2);
    assert key[..2] == "ab";
  }
}
