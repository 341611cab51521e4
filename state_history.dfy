/**
 * The state history of one submission: the versions of its datapackage.json
 * inside a date window plus the last one before it, the `bcodmo:.state` of
 * each, and a change row wherever the state differs from the version before.
 * Times are milliseconds since the epoch.
 */
module StateHistory {
  import opened Wrappers
  import opened Json
  import opened Sorting
  import opened Lists
  import opened UpdatedKeys

  const Unknown := "unknown"
  const ObjectType := "submission"

  /** One entry of a list_object_versions page. */
  datatype Version = Version(key: string, versionId: string, lastModified: int, isLatest: bool)

  /** The record the script keeps for a version. */
  datatype Entry = Entry(versionId: string, lastModified: int, isLatest: bool)

  /** A page of the listing; None where the page has no "Versions". */
  type Page = Option<seq<Version>>

  function EntryOf(v: Version): Entry
  {
    Entry(v.versionId, v.lastModified, v.isLatest)
  }

  /** The entries one page contributes: its versions whose key is exactly the object's key. */
  function PageEntries(vs: seq<Version>, key: string): seq<Entry>
  {
    if vs == [] then []
    else PageEntries(vs[..|vs| - 1], key) + (if vs[|vs| - 1].key == key then [EntryOf(vs[|vs| - 1])] else [])
  }

  /** The entries a page contributes; none where it has no "Versions". */
  function Contributed(page: Page, key: string): seq<Entry>
  {
    if page.Some? then PageEntries(page.value, key) else []
  }

  /** The entries of all pages, in listing order. */
  function Gathered(pages: seq<Page>, key: string): seq<Entry>
  {
    if pages == [] then [] else Gathered(pages[..|pages| - 1], key) + Contributed(pages[|pages| - 1], key)
  }

  method GatherVersions(pages: seq<Page>, key: string) returns (versions: seq<Entry>)
    ensures versions == Gathered(pages, key)
  {
    versions := [];
    for i := 0 to |pages|
      invariant versions == Gathered(pages[..i], key)
    {
      assert pages[..i + 1][..i] == pages[..i];
      if pages[i].Some? {
        var vs := pages[i].value;
        ghost var before := versions;
        for j := 0 to |vs|
          invariant versions == before + PageEntries(vs[..j], key)
        {
          assert vs[..j + 1][..j] == vs[..j];
          if vs[j].key == key {
            versions := versions + [EntryOf(vs[j])];
          }
        }
        assert vs[..|vs|] == vs;
      }
    }
    assert pages[..|pages|] == pages;
  }

  /** The order of `sort(key=LastModified, reverse=True)`. */
  predicate Newer(a: Entry, b: Entry) { a.lastModified >= b.lastModified }

  /** The order of `sort(key=LastModified)`. */
  predicate Older(a: Entry, b: Entry) { a.lastModified <= b.lastModified }

  /** The first entry strictly before `start`. */
  function FirstBefore(versions: seq<Entry>, start: int): (r: Option<Entry>)
    ensures r.Some? ==> r.value in versions && r.value.lastModified < start
    ensures r.None? <==> forall v :: v in versions ==> v.lastModified >= start
  {
    if versions == [] then None
    else if versions[0].lastModified < start then Some(versions[0])
    else FirstBefore(versions[1..], start)
  }

  method FindBaseline(versions: seq<Entry>, start: int) returns (r: Option<Entry>)
    ensures r == FirstBefore(versions, start)
  {
    r := None;
    var i := 0;
    while i < |versions|
      invariant i <= |versions|
      invariant FirstBefore(versions, start) == FirstBefore(versions[i..], start)
    {
      if versions[i].lastModified < start {
        r := Some(versions[i]);
        break;
      }
      assert versions[i..][1..] == versions[i + 1..];
      i := i + 1;
    }
  }

  function InWindow(start: int, end: int): Entry -> bool
  {
    (v: Entry) => start <= v.lastModified <= end
  }

  /** The versions newest first, as the script sorts them. */
  function NewestFirst(versions: seq<Entry>): seq<Entry>
  {
    Sort(versions, Newer)
  }

  /** `most_recent_before_start`. */
  function Baseline(versions: seq<Entry>, start: int): Option<Entry>
  {
    FirstBefore(NewestFirst(versions), start)
  }

  /** The window's versions plus the baseline, oldest first. */
  function Selected(versions: seq<Entry>, start: int, end: int): seq<Entry>
  {
    var window := Filter(NewestFirst(versions), InWindow(start, end));
    var baseline := Baseline(versions, start);
    Sort(window + (if baseline.Some? then [baseline.value] else []), Older)
  }

  /** The listing and selection part of get_s3_object_version_changes. */
  method SelectVersions(pages: seq<Page>, key: string, start: int, end: int)
    returns (filtered: seq<Entry>, baseline: Option<Entry>)
    ensures baseline == Baseline(Gathered(pages, key), start)
    ensures filtered == Selected(Gathered(pages, key), start, end)
  {
    var versions := GatherVersions(pages, key);
    var newest := Sort(versions, Newer);
    baseline := FindBaseline(newest, start);
    filtered := Filter(newest, InWindow(start, end));
    if baseline.Some? {
      filtered := filtered + [baseline.value];
    } else {
      assert filtered + [] == filtered;
    }
    filtered := Sort(filtered, Older);
  }

  /**
   * `content.get("bcodmo:", {}).get("state", "")` of a downloaded
   * datapackage; None where a `.get` meets something other than a dict and
   * the worker raises.
   */
  function StateOf(doc: Value): Option<Value>
  {
    var meta := Get(doc, "bcodmo:", Obj([]));
    if doc.Obj? && meta.Obj? then Some(Get(meta, "state", Str(""))) else None
  }

  /**
   * The download pool. `fetch` gives the datapackage stored under a version id
   * and `order` is the order in which the downloads complete; each result
   * goes into the slot of its version, and a worker that raised raises again
   * when its result is read.
   */
  method FetchStates(filtered: seq<Entry>, fetch: string -> Value, order: seq<nat>) returns (states: Option<seq<Value>>)
    requires forall k :: 0 <= k < |order| ==> order[k] < |filtered|
    requires forall i :: 0 <= i < |filtered| ==> i in order
    ensures states == StatesOf(filtered, fetch)
  {
    var results := new Value[|filtered|](_ => Null);
    for k := 0 to |order|
      invariant forall i :: 0 <= i < results.Length && i in order[..k] ==>
        StateOf(fetch(filtered[i].versionId)) == Some(results[i])
    {
      var state := StateOf(fetch(filtered[order[k]].versionId));
      if state.None? {
        return None;
      }
      results[order[k]] := state.value;
    }
    assert order[..|order|] == order;
    assert forall i :: 0 <= i < |filtered| ==> StateOf(fetch(filtered[i].versionId)) == Some(results[i]);
    assert StatesOf(filtered, fetch).Some?;
    assert results[..] == StatesOf(filtered, fetch).value;
    return Some(results[..]);
  }

  /**
   * The state of each version, or None when some download raises: exactly
   * when every version's datapackage is readable there is one state per
   * version, in order.
   */
  function StatesOf(versions: seq<Entry>, fetch: string -> Value): (r: Option<seq<Value>>)
    ensures r.Some? <==> forall i :: 0 <= i < |versions| ==> StateOf(fetch(versions[i].versionId)).Some?
    ensures r.Some? ==>
      |r.value| == |versions| && forall i :: 0 <= i < |versions| ==> StateOf(fetch(versions[i].versionId)) == Some(r.value[i])
  {
    if forall i :: 0 <= i < |versions| ==> StateOf(fetch(versions[i].versionId)).Some? then
      Some(seq(|versions|, i requires 0 <= i < |versions| => StateOf(fetch(versions[i].versionId)).value))
    else None
  }

  /** An item of the object-history table: its VersionIdAfter and Orcid. */
  datatype HistoryItem = HistoryItem(versionIdAfter: string, orcid: string)

  /** The items of all query pages, in order. */
  function Items(pages: seq<seq<HistoryItem>>): seq<HistoryItem>
  {
    if pages == [] then [] else Items(pages[..|pages| - 1]) + pages[|pages| - 1]
  }

  /** The dictionary the items build, a later item overwriting an earlier one. */
  function OrcidMap(items: seq<HistoryItem>): map<string, string>
  {
    if items == [] then map[]
    else OrcidMap(items[..|items| - 1])[items[|items| - 1].versionIdAfter := items[|items| - 1].orcid]
  }

  /** get_version_id_to_orcid_dict. */
  method VersionOrcids(pages: seq<seq<HistoryItem>>) returns (results: map<string, string>)
    ensures results == OrcidMap(Items(pages))
  {
    results := map[];
    for i := 0 to |pages|
      invariant results == OrcidMap(Items(pages[..i]))
    {
      assert pages[..i + 1][..i] == pages[..i];
      var page := pages[i];
      ghost var before := Items(pages[..i]);
      assert before + page[..0] == before;
      for j := 0 to |page|
        invariant results == OrcidMap(before + page[..j])
      {
        assert (before + page[..j + 1])[..|before| + j] == before + page[..j];
        results := results[page[j].versionIdAfter := page[j].orcid];
      }
      assert page[..|page|] == page;
    }
    assert pages[..|pages|] == pages;
  }

  /** The orcid of a change: the history table's, else "unknown". */
  function OrcidOf(orcids: map<string, string>, versionId: string): string
  {
    if versionId in orcids then orcids[versionId] else Unknown
  }

  /** A state change; `date` is LastModified. */
  datatype Change = Change(date: int, state: Value, versionId: string, orcid: string)

  /** previous_value after a version with this state: JSON null reads as Python's None. */
  function AsPrevious(state: Value): Option<Value>
  {
    if state == Null then None else Some(state)
  }

  /** The changes so far and previous_value. */
  datatype Tracking = Tracking(changes: seq<Change>, previous: Option<Value>)

  /** The change a version would record. */
  function ChangeAt(versions: seq<Entry>, states: seq<Value>, orcids: map<string, string>, i: nat): Change
    requires i < |versions| == |states|
  {
    Change(versions[i].lastModified, states[i], versions[i].versionId, OrcidOf(orcids, versions[i].versionId))
  }

  /** The change loop over the first `n` versions, as written. */
  function Track(versions: seq<Entry>, states: seq<Value>, baseline: Option<Entry>,
                 orcids: map<string, string>, n: nat): (r: Tracking)
    requires n <= |versions| == |states|
    ensures |r.changes| <= n
    ensures r.previous == if n == 0 then None else AsPrevious(states[n - 1])
  {
    if n == 0 then Tracking([], None)
    else
      var t := Track(versions, states, baseline, orcids, n - 1);
      var change := ChangeAt(versions, states, orcids, n - 1);
      if t.previous.None? then
        if Some(versions[n - 1]) == baseline then Tracking(t.changes, AsPrevious(states[n - 1]))
        else Tracking(t.changes + [change], AsPrevious(states[n - 1]))
      else if states[n - 1] != t.previous.value then Tracking(t.changes + [change], AsPrevious(states[n - 1]))
      else t
  }

  /** The change-tracking loop of get_s3_object_version_changes. */
  method TrackChanges(versions: seq<Entry>, states: seq<Value>, baseline: Option<Entry>,
                      orcids: map<string, string>) returns (changes: seq<Change>)
    requires |versions| == |states|
    ensures changes == Track(versions, states, baseline, orcids, |versions|).changes
  {
    changes := [];
    var previous: Option<Value> := None;
    for i := 0 to |versions|
      invariant Tracking(changes, previous) == Track(versions, states, baseline, orcids, i)
    {
      var version := versions[i];
      var current := states[i];
      var orcid := OrcidOf(orcids, version.versionId);
      if previous.None? {
        if Some(version) == baseline {
          previous := AsPrevious(current);
        } else {
          changes := changes + [Change(version.lastModified, current, version.versionId, orcid)];
          previous := AsPrevious(current);
        }
      } else if current != previous.value {
        changes := changes + [Change(version.lastModified, current, version.versionId, orcid)];
        previous := AsPrevious(current);
      }
    }
  }

  /**
   * Whether version `i` records a change, read off the states alone: the
   * first version unless it is the baseline, any later one whose state
   * differs from the one before.
   */
  predicate Emits(versions: seq<Entry>, states: seq<Value>, baseline: Option<Entry>, i: nat)
    requires i < |versions| == |states|
  {
    if i == 0 then Some(versions[0]) != baseline else states[i] != states[i - 1]
  }

  /** The changes the loop is meant to record over the first `n` versions. */
  function Expected(versions: seq<Entry>, states: seq<Value>, baseline: Option<Entry>,
                    orcids: map<string, string>, n: nat): seq<Change>
    requires n <= |versions| == |states|
  {
    if n == 0 then []
    else (Expected(versions, states, baseline, orcids, n - 1)
      + (if Emits(versions, states, baseline, n - 1) then [ChangeAt(versions, states, orcids, n - 1)] else []))
  }

  /** A row of the state-history table. */
  datatype StateRow = StateRow(objectId: string, state: Value, updated: int, objectType: string,
                               versionId: string, orcid: string)

  function Dates(changes: seq<Change>): (r: seq<int>)
    ensures |r| == |changes|
  {
    seq(|changes|, i requires 0 <= i < |changes| => changes[i].date)
  }

  function RowOf(objectId: string, c: Change, updated: int): StateRow
  {
    StateRow(objectId, c.state, updated, ObjectType, c.versionId, c.orcid)
  }

  /**
   * The batch write of one object's changes: a row per change up to the
   * first whose Updated key fails the check, where the script stops.
   */
  method PutChanges(objectId: string, changes: seq<Change>) returns (rows: seq<StateRow>, ok: bool)
    ensures ok <==> Accepted(Keys(Dates(changes)))
    ensures |rows| == Admitted(Keys(Dates(changes)))
    ensures forall i :: 0 <= i < |rows| ==> rows[i] == RowOf(objectId, changes[i], Keys(Dates(changes))[i])
  {
    var keys;
    keys, ok := AssignKeys(Dates(changes));
    rows := seq(|keys|, i requires 0 <= i < |keys| => RowOf(objectId, changes[i], keys[i]));
  }

  /** get_s3_object_version_changes, with the downloads and the history query as inputs. */
  method ObjectChanges(pages: seq<Page>, key: string, start: int, end: int,
                       fetch: string -> Value, order: seq<nat>, history: seq<seq<HistoryItem>>)
    returns (changes: Option<seq<Change>>)
    requires var n := |Selected(Gathered(pages, key), start, end)|;
      (forall k :: 0 <= k < |order| ==> order[k] < n) && forall i :: 0 <= i < n ==> i in order
    ensures var versions := Selected(Gathered(pages, key), start, end);
      var states := StatesOf(versions, fetch);
      changes == if states.None? then None
        else Some(Track(versions, states.value, Baseline(Gathered(pages, key), start),
                        OrcidMap(Items(history)), |versions|).changes)
  {
    var filtered, baseline := SelectVersions(pages, key, start, end);
    var states := FetchStates(filtered, fetch, order);
    if states.None? {
      return None;
    }
    var orcids := VersionOrcids(history);
    var tracked := TrackChanges(filtered, states.value, baseline, orcids);
    return Some(tracked);
  }
}

module StateHistoryFacts {
  import opened Wrappers
  import opened Json
  import opened Sorting
  import opened Lists
  import opened UpdatedKeys
  import opened UpdatedKeysFacts
  import opened StateHistory

  /** A page contributes exactly its versions whose key is the object's key. */
  lemma {:induction false} PageEntriesFacts(vs: seq<Version>, key: string, e: Entry)
    ensures e in PageEntries(vs, key) <==> exists v :: v in vs && v.key == key && EntryOf(v) == e
  {
    if vs != [] {
      var init := vs[..|vs| - 1];
      PageEntriesFacts(init, key, e);
      assert vs == init + [vs[|vs| - 1]];
    }
  }

  /** Entry `e` comes from page `i`. */
  predicate OnPage(pages: seq<Page>, key: string, i: int, e: Entry)
  {
    0 <= i < |pages| && e in Contributed(pages[i], key)
  }

  /** The gathered entries are those the pages that have versions contribute. */
  lemma {:induction false} GatheredFacts(pages: seq<Page>, key: string, e: Entry)
    ensures e in Gathered(pages, key) <==> exists i :: OnPage(pages, key, i, e)
  {
    if pages != [] {
      var n := |pages| - 1;
      var init := pages[..n];
      GatheredFacts(init, key, e);
      if e in Gathered(pages, key) {
        if e in Gathered(init, key) {
          var i :| OnPage(init, key, i, e);
          assert OnPage(pages, key, i, e);
        } else {
          assert OnPage(pages, key, n, e);
        }
      }
      if i :| OnPage(pages, key, i, e) {
        if i < n {
          assert OnPage(init, key, i, e);
        }
      }
    }
  }

  /** On a newest-first list the first entry before `start` is the newest one before it. */
  lemma {:induction false} FirstBeforeNewest(s: seq<Entry>, start: int, v: Entry)
    requires Sorted(s, Newer)
    requires FirstBefore(s, start).Some?
    requires v in s && v.lastModified < start
    ensures v.lastModified <= FirstBefore(s, start).value.lastModified
  {
    var j :| 0 <= j < |s| && s[j] == v;
    if s[0].lastModified < start {
      if j > 0 {
        assert Newer(s[0], s[j]);
      }
    } else {
      assert Sorted(s[1..], Newer) by {
        forall a, b | 0 <= a < b < |s[1..]| ensures Newer(s[1..][a], s[1..][b]) {
          assert Newer(s[a + 1], s[b + 1]);
        }
      }
      assert s[1..][j - 1] == v;
      FirstBeforeNewest(s[1..], start, v);
    }
  }

  /** The sort is a permutation, so it keeps membership. */
  lemma NewestFirstMembers(versions: seq<Entry>, v: Entry)
    ensures v in NewestFirst(versions) <==> v in versions
  {
    SortPermutes(versions, Newer);
    assert v in NewestFirst(versions) <==> v in multiset(NewestFirst(versions));
  }

  /**
   * The baseline is the newest version strictly before the start; there is
   * none exactly when every version is at or after the start.
   */
  lemma BaselineFacts(versions: seq<Entry>, start: int)
    ensures Baseline(versions, start).Some? ==>
      var b := Baseline(versions, start).value;
      b in versions && b.lastModified < start
      && forall v :: v in versions && v.lastModified < start ==> v.lastModified <= b.lastModified
    ensures Baseline(versions, start).None? <==> forall v :: v in versions ==> v.lastModified >= start
  {
    var newest := NewestFirst(versions);
    assert TotalPreorder(Newer);
    SortSorted(versions, Newer);
    forall v ensures v in newest <==> v in versions {
      NewestFirstMembers(versions, v);
    }
    if Baseline(versions, start).Some? {
      forall v | v in versions && v.lastModified < start
        ensures v.lastModified <= Baseline(versions, start).value.lastModified
      {
        FirstBeforeNewest(newest, start, v);
      }
    }
  }

  /** The selection comes out oldest first. */
  lemma SelectedSorted(versions: seq<Entry>, start: int, end: int)
    ensures Sorted(Selected(versions, start, end), Older)
  {
    var window := Filter(NewestFirst(versions), InWindow(start, end));
    var baseline := Baseline(versions, start);
    assert TotalPreorder(Older);
    SortSorted(window + (if baseline.Some? then [baseline.value] else []), Older);
  }

  /** The selection holds the versions inside the window, bounds included, and the baseline. */
  lemma SelectedMembers(versions: seq<Entry>, start: int, end: int, e: Entry)
    ensures e in Selected(versions, start, end) <==>
      (e in versions && start <= e.lastModified <= end) || Baseline(versions, start) == Some(e)
  {
    var window := Filter(NewestFirst(versions), InWindow(start, end));
    var baseline := Baseline(versions, start);
    var all := window + (if baseline.Some? then [baseline.value] else []);
    SortPermutes(all, Older);
    assert e in Selected(versions, start, end) <==> e in multiset(all);
    NewestFirstMembers(versions, e);
    if e in versions && start <= e.lastModified <= end {
      FilterKeeps(NewestFirst(versions), InWindow(start, end), e);
    }
    if e in window {
      var k :| 0 <= k < |window| && window[k] == e;
      assert InWindow(start, end)(window[k]);
    }
  }

  /** The baseline, when there is one, comes first: it is older than every windowed version. */
  lemma SelectedBaselineFirst(versions: seq<Entry>, start: int, end: int)
    requires Baseline(versions, start).Some?
    ensures var selected := Selected(versions, start, end);
      |selected| > 0 && selected[0] == Baseline(versions, start).value
  {
    var selected := Selected(versions, start, end);
    var b := Baseline(versions, start).value;
    BaselineFacts(versions, start);
    SelectedMembers(versions, start, end, b);
    SelectedSorted(versions, start, end);
    var j :| 0 <= j < |selected| && selected[j] == b;
    if j > 0 {
      assert Older(selected[0], selected[j]);
    }
    SelectedMembers(versions, start, end, selected[0]);
  }

  /**
   * A version id is in the orcid dictionary iff some item carries it, and
   * its orcid is that of the last such item.
   */
  lemma {:induction false} OrcidMapFacts(items: seq<HistoryItem>, k: string)
    ensures k in OrcidMap(items) <==> exists i :: 0 <= i < |items| && items[i].versionIdAfter == k
    ensures k in OrcidMap(items) ==>
      exists i :: 0 <= i < |items| && items[i].versionIdAfter == k && OrcidMap(items)[k] == items[i].orcid
        && forall j :: i < j < |items| ==> items[j].versionIdAfter != k
  {
    if items != [] {
      var n := |items| - 1;
      var init := items[..n];
      OrcidMapFacts(init, k);
      assert forall i :: 0 <= i < n ==> init[i] == items[i];
      if items[n].versionIdAfter != k && k in OrcidMap(items) {
        var i :| 0 <= i < n && init[i].versionIdAfter == k && OrcidMap(init)[k] == init[i].orcid
          && forall j :: i < j < n ==> init[j].versionIdAfter != k;
        assert forall j :: i < j < |items| ==> items[j].versionIdAfter != k;
      }
    }
  }

  /** With no JSON null among the states, the loop records exactly the reference changes. */
  lemma {:induction false} TrackMatches(versions: seq<Entry>, states: seq<Value>, baseline: Option<Entry>,
                                        orcids: map<string, string>, n: nat)
    requires n <= |versions| == |states|
    requires forall i :: 0 <= i < |states| ==> states[i] != Null
    ensures Track(versions, states, baseline, orcids, n).changes == Expected(versions, states, baseline, orcids, n)
    ensures Track(versions, states, baseline, orcids, n).previous == if n == 0 then None else Some(states[n - 1])
  {
    if n > 0 {
      TrackMatches(versions, states, baseline, orcids, n - 1);
    }
  }

  /** Version `i` yields a change exactly when it emits one, and each change is that of its version. */
  lemma {:induction false} ExpectedMembers(versions: seq<Entry>, states: seq<Value>, baseline: Option<Entry>,
                                           orcids: map<string, string>, n: nat, c: Change)
    requires n <= |versions| == |states|
    ensures c in Expected(versions, states, baseline, orcids, n) <==>
      exists i :: 0 <= i < n && Emits(versions, states, baseline, i) && c == ChangeAt(versions, states, orcids, i)
  {
    if n > 0 {
      ExpectedMembers(versions, states, baseline, orcids, n - 1, c);
    }
  }

  /** The last change so far carries the state of the last version looked at. */
  lemma {:induction false} ExpectedLast(versions: seq<Entry>, states: seq<Value>, baseline: Option<Entry>,
                                        orcids: map<string, string>, n: nat)
    requires n <= |versions| == |states|
    requires Expected(versions, states, baseline, orcids, n) != []
    ensures n > 0
    ensures var e := Expected(versions, states, baseline, orcids, n); e[|e| - 1].state == states[n - 1]
  {
    if !Emits(versions, states, baseline, n - 1) {
      ExpectedLast(versions, states, baseline, orcids, n - 1);
    }
  }

  /** Consecutive changes have different states. */
  lemma {:induction false} ExpectedDiffer(versions: seq<Entry>, states: seq<Value>, baseline: Option<Entry>,
                                          orcids: map<string, string>, n: nat)
    requires n <= |versions| == |states|
    ensures var e := Expected(versions, states, baseline, orcids, n);
      forall k :: 0 < k < |e| ==> e[k - 1].state != e[k].state
  {
    if n > 0 {
      ExpectedDiffer(versions, states, baseline, orcids, n - 1);
      var before := Expected(versions, states, baseline, orcids, n - 1);
      if before != [] {
        ExpectedLast(versions, states, baseline, orcids, n - 1);
      }
    }
  }

  predicate InDateOrder(changes: seq<Change>)
  {
    forall a, b :: 0 <= a < b < |changes| ==> changes[a].date <= changes[b].date
  }

  /** On an oldest-first selection the changes come out oldest first. */
  lemma {:induction false} ExpectedDates(versions: seq<Entry>, states: seq<Value>, baseline: Option<Entry>,
                                         orcids: map<string, string>, n: nat)
    requires n <= |versions| == |states|
    requires Sorted(versions, Older)
    ensures InDateOrder(Expected(versions, states, baseline, orcids, n))
  {
    if n > 0 {
      ExpectedDates(versions, states, baseline, orcids, n - 1);
      var before := Expected(versions, states, baseline, orcids, n - 1);
      forall a | 0 <= a < |before| ensures before[a].date <= versions[n - 1].lastModified {
        ExpectedMembers(versions, states, baseline, orcids, n - 1, before[a]);
        var i :| 0 <= i < n - 1 && before[a] == ChangeAt(versions, states, orcids, i);
        assert Older(versions[i], versions[n - 1]);
      }
      var e := Expected(versions, states, baseline, orcids, n);
      if Emits(versions, states, baseline, n - 1) {
        assert e == before + [ChangeAt(versions, states, orcids, n - 1)];
        forall a, b | 0 <= a < b < |e| ensures e[a].date <= e[b].date {
          assert e[a] == before[a];
          if b < |before| {
            assert e[b] == before[b];
            assert before[a].date <= before[b].date;
          } else {
            assert e[b].date == versions[n - 1].lastModified;
          }
        }
      }
    }
  }

  /** Expected over fewer versions is a prefix of Expected over more. */
  lemma {:induction false} ExpectedPrefix(versions: seq<Entry>, states: seq<Value>, baseline: Option<Entry>,
                                          orcids: map<string, string>, m: nat, n: nat)
    requires m <= n <= |versions| == |states|
    ensures var short := Expected(versions, states, baseline, orcids, m);
      var long := Expected(versions, states, baseline, orcids, n);
      |short| <= |long| && long[..|short|] == short
    decreases n
  {
    if m < n {
      ExpectedPrefix(versions, states, baseline, orcids, m, n - 1);
    }
  }

  /** Without a baseline in front, the first version is always the first change. */
  lemma FirstEmitted(versions: seq<Entry>, states: seq<Value>, baseline: Option<Entry>,
                     orcids: map<string, string>, n: nat)
    requires 0 < n <= |versions| == |states|
    requires Some(versions[0]) != baseline
    ensures var e := Expected(versions, states, baseline, orcids, n);
      |e| > 0 && e[0] == ChangeAt(versions, states, orcids, 0)
  {
    ExpectedPrefix(versions, states, baseline, orcids, 1, n);
  }

  /** A baseline whose state never changes in the window yields no change at all. */
  lemma {:induction false} BaselineUnchanged(versions: seq<Entry>, states: seq<Value>, baseline: Option<Entry>,
                                             orcids: map<string, string>, n: nat)
    requires 0 < n <= |versions| == |states|
    requires baseline == Some(versions[0])
    requires forall i :: 0 <= i < n ==> states[i] == states[0]
    ensures Expected(versions, states, baseline, orcids, n) == []
  {
    if n > 1 {
      BaselineUnchanged(versions, states, baseline, orcids, n - 1);
    }
  }

  /**
   * Whole-second, oldest-first versions with fewer than a thousand changes
   * per second get strictly increasing Updated keys, so every row is put.
   */
  lemma ExpectedKeysIncrease(versions: seq<Entry>, states: seq<Value>, baseline: Option<Entry>,
                             orcids: map<string, string>)
    requires |versions| == |states|
    requires Sorted(versions, Older)
    requires forall i :: 0 <= i < |versions| ==> versions[i].lastModified % 1000 == 0
    requires forall i :: 0 <= i < |Expected(versions, states, baseline, orcids, |versions|)| ==>
      RunIndex(Dates(Expected(versions, states, baseline, orcids, |versions|)), i) < 1000
    ensures var keys := Keys(Dates(Expected(versions, states, baseline, orcids, |versions|)));
      Accepted(keys) && forall a, b :: 0 <= a < b < |keys| ==> keys[a] < keys[b]
  {
    var e := Expected(versions, states, baseline, orcids, |versions|);
    ExpectedDates(versions, states, baseline, orcids, |versions|);
    var dates := Dates(e);
    forall a | 0 <= a < |dates| ensures dates[a] % 1000 == 0 {
      assert e[a] in e;
      ExpectedMembers(versions, states, baseline, orcids, |versions|, e[a]);
      var i :| 0 <= i < |versions| && Emits(versions, states, baseline, i) && e[a] == ChangeAt(versions, states, orcids, i);
      assert dates[a] == versions[i].lastModified;
    }
    forall a, b | 0 <= a < b < |dates| ensures dates[a] <= dates[b] {
      assert e[a].date <= e[b].date;
    }
    assert Chronological(dates);
    KeysIncrease(dates);
  }

  /**
   * As written, a JSON null state resets previous_value to None, so the next
   * version takes the first-version path: two null versions in a row both
   * record a change, with equal states.
   */
  lemma NullRepeats()
    ensures var versions := [Entry("a", 1000, false), Entry("b", 2000, true)];
      var changes := Track(versions, [Null, Null], None, map[], 2).changes;
      |changes| == 2 && changes[0].state == changes[1].state
  {
  }
}
