/**
 * The submitter report: every collaborator flagged as submitter in a
 * submission's datapackage is a sighting of the person named
 * "firstName lastName"; the report has a header row, then one row per
 * person in the order first seen, with the orcid of the first sighting
 * and the number of sightings.
 */
module People {
  import opened Wrappers
  import opened Json
  import opened SubmissionBucket

  /** A submitter collaborator as the tally sees it. */
  datatype Sighting = Sighting(name: string, orcid: Value)

  /** One collaborator: None where the script raises, else its sighting if it is a submitter. */
  function SightingOf(person: Value): (r: Option<seq<Sighting>>)
    ensures r.Some? ==> |r.value| <= 1
    ensures r.Some? && |r.value| == 1 ==> Truthy(Get(person, "submitter", Bool(false)))
    ensures r.None? <==>
      !person.Obj? || (Truthy(Get(person, "submitter", Bool(false)))
                       && !(Get(person, "firstName", Str("")).Str? && Get(person, "lastName", Str("")).Str?))
  {
    if !person.Obj? then None
    else if !Truthy(Get(person, "submitter", Bool(false))) then Some([])
    else
      var first := Get(person, "firstName", Str(""));
      var last := Get(person, "lastName", Str(""));
      if !first.Str? || !last.Str? then None
      else Some([Sighting(first.s + " " + last.s, Get(person, "orcid", Str("")))])
  }

  /** The sightings of a collaborator list, in order; None where the script raises. */
  function Submitters(people: seq<Value>): Option<seq<Sighting>>
  {
    if people == [] then Some([])
    else
      match Submitters(people[..|people| - 1])
      case None => None
      case Some(done) =>
        match SightingOf(people[|people| - 1])
        case None => None
        case Some(more) => Some(done + more)
  }

  /**
   * One datapackage's sightings: none unless it is a submission with
   * truthy collaborators; None where the script raises (no "bcodmo:", or
   * one that is not an object, or collaborators that cannot be iterated).
   */
  function SightingsOf(oid: string, dp: Value): Option<seq<Sighting>>
  {
    if !Has(dp, "bcodmo:") || !At(dp, "bcodmo:").Obj? then None
    else
      var meta := At(dp, "bcodmo:");
      var people := Get(meta, "collaborators", Arr([]));
      if !(Has(meta, "submissionId") && Truthy(people)) then Some([])
      else
        match Elements(people)
        case None => None
        case Some(items) => Submitters(items)
  }

  /** Every sighting of the visited datapackages, in order; Err with the id the script raised on. */
  function Sightings(keys: seq<string>, fetch: Fetcher): Result<seq<Sighting>, string>
  {
    Collect(Visited(keys), fetch, SightingsOf)
  }

  /** `peopleDict` after `sightings`: the names in insertion order, and each name's orcid and count. */
  function Tallied(sightings: seq<Sighting>): (r: (seq<string>, map<string, (Value, nat)>))
    ensures forall n :: n in r.0 <==> n in r.1
  {
    if sightings == [] then ([], map[])
    else
      var (order, people) := Tallied(sightings[..|sightings| - 1]);
      var x := sightings[|sightings| - 1];
      if x.name in people then (order, people[x.name := (people[x.name].0, people[x.name].1 + 1)])
      else (order + [x.name], people[x.name := (x.orcid, 1)])
  }

  /** The tally loop over the dictionary. */
  method Tally(sightings: seq<Sighting>) returns (order: seq<string>, people: map<string, (Value, nat)>)
    ensures (order, people) == Tallied(sightings)
  {
    order, people := [], map[];
    for i := 0 to |sightings|
      invariant (order, people) == Tallied(sightings[..i])
    {
      assert sightings[..i + 1][..i] == sightings[..i];
      var x := sightings[i];
      if x.name !in people {
        order := order + [x.name];
        people := people[x.name := (x.orcid, 1)];
      } else {
        people := people[x.name := (people[x.name].0, people[x.name].1 + 1)];
      }
    }
    assert sightings[..|sightings|] == sightings;
  }

  const Header: seq<Value> := [Str("person"), Str("orcid"), Str("num_submissions")]

  /** The report rows after the header, one per name in `order`. */
  function Rows(order: seq<string>, people: map<string, (Value, nat)>): seq<seq<Value>>
    requires forall n :: n in order ==> n in people
  {
    if order == [] then []
    else
      var name := order[|order| - 1];
      Rows(order[..|order| - 1], people) + [[Str(name), people[name].0, Num(people[name].1)]]
  }

  /** The last loop: the header row, then one row per key of the dictionary. */
  method Report(order: seq<string>, people: map<string, (Value, nat)>) returns (results: seq<seq<Value>>)
    requires forall n :: n in order ==> n in people
    ensures results == [Header] + Rows(order, people)
  {
    results := [Header];
    for i := 0 to |order|
      invariant results == [Header] + Rows(order[..i], people)
    {
      assert order[..i + 1][..i] == order[..i];
      var name := order[i];
      results := results + [[Str(name), people[name].0, Num(people[name].1)]];
    }
    assert order[..|order|] == order;
  }

  /** The whole script: the rows it writes, or Err with the id of the datapackage it raised on. */
  method Run(keys: seq<string>, fetch: Fetcher) returns (results: Result<seq<seq<Value>>, string>)
    ensures results.Ok? <==> Sightings(keys, fetch).Ok?
    ensures results.Ok? ==>
      var (order, people) := Tallied(Sightings(keys, fetch).value);
      results.value == [Header] + Rows(order, people)
  {
    var sightings := CollectAll(Visited(keys), fetch, SightingsOf);
    if sightings.Err? {
      return Err(sightings.error);
    }
    var order, people := Tally(sightings.value);
    var rows := Report(order, people);
    results := Ok(rows);
  }
}

module PeopleFacts {
  import opened Wrappers
  import opened Json
  import opened People

  /**
   * A collaborator list that does not raise yields one sighting per
   * submitter, in order: a sighting comes from a collaborator flagged as
   * submitter, and every such collaborator gives one.
   */
  lemma {:induction false} SubmittersIff(people: seq<Value>, x: Sighting)
    requires Submitters(people).Some?
    ensures |Submitters(people).value| <= |people|
    ensures x in Submitters(people).value <==> exists p :: p in people && SightingOf(p) == Some([x])
  {
    if people != [] {
      var init := people[..|people| - 1];
      var last := people[|people| - 1];
      SubmittersIff(init, x);
      assert people == init + [last];
      if SightingOf(last) == Some([x]) {
        assert last in people;
      }
      forall p | p in init ensures p in people { }
    }
  }

  /** Only a submission's datapackage with collaborators yields sightings. */
  lemma SubmissionsOnly(oid: string, dp: Value)
    requires SightingsOf(oid, dp).Some? && SightingsOf(oid, dp).value != []
    ensures Has(At(dp, "bcodmo:"), "submissionId") && Truthy(Get(At(dp, "bcodmo:"), "collaborators", Arr([])))
  {
  }

  /** How often `name` is sighted. */
  function Count(sightings: seq<Sighting>, name: string): nat
  {
    if sightings == [] then 0
    else Count(sightings[..|sightings| - 1], name) + (if sightings[|sightings| - 1].name == name then 1 else 0)
  }

  /** The orcid of the first sighting of `name`. */
  function FirstOrcid(sightings: seq<Sighting>, name: string): Option<Value>
  {
    if sightings == [] then None
    else
      var earlier := FirstOrcid(sightings[..|sightings| - 1], name);
      if earlier.Some? then earlier
      else if sightings[|sightings| - 1].name == name then Some(sightings[|sightings| - 1].orcid)
      else None
  }

  predicate Distinct(order: seq<string>)
  {
    forall i, j :: 0 <= i < j < |order| ==> order[i] != order[j]
  }

  /** The tally holds each sighted name once, and no other name. */
  lemma {:induction false} TalliedNames(sightings: seq<Sighting>)
    ensures Distinct(Tallied(sightings).0)
    ensures forall n :: n in Tallied(sightings).0 <==> Count(sightings, n) > 0
  {
    if sightings != [] {
      TalliedNames(sightings[..|sightings| - 1]);
    }
  }

  /** Each name's entry holds the orcid of its first sighting and its number of sightings. */
  lemma {:induction false} TalliedEntries(sightings: seq<Sighting>)
    ensures forall n :: FirstOrcid(sightings, n).Some? <==> Count(sightings, n) > 0
    ensures var people := Tallied(sightings).1;
      forall n :: n in people ==>
        FirstOrcid(sightings, n).Some? && people[n] == (FirstOrcid(sightings, n).value, Count(sightings, n))
  {
    if sightings != [] {
      TalliedEntries(sightings[..|sightings| - 1]);
      TalliedNames(sightings[..|sightings| - 1]);
    }
  }

  /** Later names in the report were first sighted later. */
  lemma {:induction false} FirstSeenOrder(sightings: seq<Sighting>, i: nat, j: nat)
    requires i < j < |Tallied(sightings).0|
    ensures FirstIndex(sightings, Tallied(sightings).0[i]) < FirstIndex(sightings, Tallied(sightings).0[j])
  {
    var init := sightings[..|sightings| - 1];
    var (order, people) := Tallied(init);
    TalliedNames(init);
    if j < |order| {
      FirstSeenOrder(init, i, j);
      FirstIndexPrefix(sightings, order[i]);
      FirstIndexPrefix(sightings, order[j]);
    } else {
      FirstIndexPrefix(sightings, order[i]);
      FirstIndexBound(init, order[i]);
      FirstIndexLast(sightings);
    }
  }

  /** The position of the first sighting of `name`, or the number of sightings. */
  function FirstIndex(sightings: seq<Sighting>, name: string): nat
  {
    if sightings == [] then 0
    else
      var n := |sightings| - 1;
      var earlier := FirstIndex(sightings[..n], name);
      if earlier < n then earlier else if sightings[n].name == name then n else n + 1
  }

  lemma {:induction false} FirstIndexBound(sightings: seq<Sighting>, name: string)
    ensures FirstIndex(sightings, name) < |sightings| <==> Count(sightings, name) > 0
    ensures FirstIndex(sightings, name) <= |sightings|
  {
    if sightings != [] {
      FirstIndexBound(sightings[..|sightings| - 1], name);
    }
  }

  lemma FirstIndexPrefix(sightings: seq<Sighting>, name: string)
    requires sightings != [] && Count(sightings[..|sightings| - 1], name) > 0
    ensures FirstIndex(sightings, name) == FirstIndex(sightings[..|sightings| - 1], name)
  {
    FirstIndexBound(sightings[..|sightings| - 1], name);
  }

  lemma FirstIndexLast(sightings: seq<Sighting>)
    requires sightings != []
    requires Count(sightings[..|sightings| - 1], sightings[|sightings| - 1].name) == 0
    ensures FirstIndex(sightings, sightings[|sightings| - 1].name) == |sightings| - 1
  {
    FirstIndexBound(sightings[..|sightings| - 1], sightings[|sightings| - 1].name);
  }

  /** The counts of the names in `order`, added up. */
  function Total(order: seq<string>, sightings: seq<Sighting>): nat
  {
    if order == [] then 0 else Total(order[..|order| - 1], sightings) + Count(sightings, order[|order| - 1])
  }

  lemma {:induction false} TotalGrows(order: seq<string>, sightings: seq<Sighting>)
    requires Distinct(order) && sightings != []
    ensures var x := sightings[|sightings| - 1];
      Total(order, sightings) == Total(order, sightings[..|sightings| - 1]) + (if x.name in order then 1 else 0)
  {
    if order != [] {
      var init := order[..|order| - 1];
      TotalGrows(init, sightings);
      var x := sightings[|sightings| - 1];
      assert x.name in order <==> x.name in init || x.name == order[|order| - 1];
    }
  }

  /** The counts add up to the number of sightings. */
  lemma {:induction false} CountsAddUp(sightings: seq<Sighting>)
    ensures Total(Tallied(sightings).0, sightings) == |sightings|
  {
    if sightings != [] {
      var init := sightings[..|sightings| - 1];
      CountsAddUp(init);
      var order := Tallied(init).0;
      TalliedNames(init);
      TotalGrows(order, sightings);
      if sightings[|sightings| - 1].name !in order {
        NewName(sightings, order);
      }
    }
  }

  lemma NewName(sightings: seq<Sighting>, order: seq<string>)
    requires sightings != []
    requires var init := sightings[..|sightings| - 1];
      order == Tallied(init).0 && sightings[|sightings| - 1].name !in order
      && Count(init, sightings[|sightings| - 1].name) == 0
    ensures var name := sightings[|sightings| - 1].name;
      Tallied(sightings).0 == order + [name]
      && Total(order + [name], sightings) == Total(order, sightings) + 1
  {
    var name := sightings[|sightings| - 1].name;
    assert (order + [name])[..|order|] == order;
  }

  /**
   * The report: the header, then per name in the order first seen, the
   * name, its first orcid and its count; the counts add up to the number
   * of submitter sightings.
   */
  lemma ReportFacts(sightings: seq<Sighting>)
    ensures var (order, people) := Tallied(sightings);
      var rows := Rows(order, people);
      |rows| == |order|
      && forall i :: 0 <= i < |order| ==>
           (FirstOrcid(sightings, order[i]).Some?
            && rows[i] == [Str(order[i]), FirstOrcid(sightings, order[i]).value, Num(Count(sightings, order[i]))])
  {
    var (order, people) := Tallied(sightings);
    TalliedEntries(sightings);
    RowsOf(order, people);
  }

  lemma {:induction false} RowsOf(order: seq<string>, people: map<string, (Value, nat)>)
    requires forall n :: n in order ==> n in people
    ensures |Rows(order, people)| == |order|
    ensures forall i :: 0 <= i < |order| ==>
      Rows(order, people)[i] == [Str(order[i]), people[order[i]].0, Num(people[order[i]].1)]
  {
    if order != [] {
      RowsOf(order[..|order| - 1], people);
    }
  }
}
