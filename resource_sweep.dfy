/**
 * The per-resource repair loop that the submission-bucket repair scripts
 * share: `for resource in dp.get("resources", [])` applies one fix to each
 * resource in place, and the datapackage is written back when some
 * resource changed.
 */
module ResourceSweep {
  import opened Wrappers
  import opened Json
  import opened SubmissionBucket

  /** One resource's fix: the resource after it and whether it changed; None where the script raises. */
  type Fix = Value -> Option<(Value, bool)>

  /** The resources after the loop and how many it changed. */
  function Fixed(resources: seq<Value>, fix: Fix): Option<(seq<Value>, nat)>
  {
    if resources == [] then Some(([], 0))
    else
      match Fixed(resources[..|resources| - 1], fix)
      case None => None
      case Some((done, n)) =>
        match fix(resources[|resources| - 1])
        case None => None
        case Some((r, changed)) => Some((done + [r], if changed then n + 1 else n))
  }

  lemma {:induction false} FixedStops(resources: seq<Value>, fix: Fix, i: nat)
    requires i <= |resources| && Fixed(resources[..i], fix).None?
    ensures Fixed(resources, fix).None?
    decreases |resources| - i
  {
    if i < |resources| {
      assert resources[..i + 1][..i] == resources[..i];
      FixedStops(resources, fix, i + 1);
    } else {
      assert resources[..i] == resources;
    }
  }

  /** The loop over a datapackage's resources, counting the changed ones. */
  method FixResources(resources: seq<Value>, fix: Fix) returns (r: Option<(seq<Value>, nat)>)
    ensures r == Fixed(resources, fix)
  {
    var done := [];
    var count := 0;
    for i := 0 to |resources|
      invariant Fixed(resources[..i], fix) == Some((done, count))
    {
      assert resources[..i + 1][..i] == resources[..i];
      var one := fix(resources[i]);
      if one.None? {
        FixedStops(resources, fix, i + 1);
        return None;
      }
      var (resource, changed) := one.value;
      if changed {
        count := count + 1;
      }
      done := done + [resource];
    }
    assert resources[..|resources|] == resources;
    return Some((done, count));
  }

  /** What the script learns from one datapackage: the datapackage after the loop, changed and seen resources. */
  datatype Visit = Visit(oid: string, out: Value, changed: nat, seen: nat)

  /** One datapackage's visit; None where the script raises on it. */
  function FixDp(oid: string, dp: Value, fix: Fix): (r: Option<Visit>)
    ensures r.Some? ==> r.value.oid == oid && (r.value.changed == 0 ==> r.value.out == dp)
  {
    if !dp.Obj? then None
    else
      match Elements(Get(dp, "resources", Arr([])))
      case None => None
      case Some(items) =>
        match Fixed(items, fix)
        case None => None
        case Some((fixed, n)) =>
          Some(Visit(oid, if n > 0 then Set(dp, "resources", Arr(fixed)) else dp, n, |items|))
  }

  function Visiting(fix: Fix): (string, Value) -> Option<seq<Visit>>
  {
    (oid, dp) =>
      match FixDp(oid, dp, fix)
      case None => None
      case Some(v) => Some([v])
  }

  /** The datapackages written back: those with a changed resource, in order. */
  function Writes(visits: seq<Visit>): seq<(string, Value)>
  {
    if visits == [] then []
    else
      var v := visits[|visits| - 1];
      Writes(visits[..|visits| - 1]) + (if v.changed > 0 then [(DpKey(v.oid), v.out)] else [])
  }
}

module ResourceSweepFacts {
  import opened Wrappers
  import opened Json
  import opened SubmissionBucket
  import opened SubmissionBucketFacts
  import opened ResourceSweep

  /** The fix changes this resource. */
  predicate Changes(fix: Fix, resource: Value)
  {
    fix(resource).Some? && fix(resource).value.1
  }

  /** The number of resources the fix changes. */
  function Changed(resources: seq<Value>, fix: Fix): nat
  {
    if resources == [] then 0
    else Changed(resources[..|resources| - 1], fix) + (if Changes(fix, resources[|resources| - 1]) then 1 else 0)
  }

  /**
   * The loop finishes exactly when no resource makes it raise; then it
   * holds each resource's fixed form, in order, and counts the changed ones.
   */
  lemma {:induction false} FixedFacts(resources: seq<Value>, fix: Fix)
    ensures Fixed(resources, fix).Some? <==> forall i :: 0 <= i < |resources| ==> fix(resources[i]).Some?
    ensures Fixed(resources, fix).Some? ==>
      var (fixed, n) := Fixed(resources, fix).value;
      |fixed| == |resources| && n == Changed(resources, fix)
      && forall i :: 0 <= i < |resources| ==> fixed[i] == fix(resources[i]).value.0
  {
    if resources != [] {
      var init := resources[..|resources| - 1];
      FixedFacts(init, fix);
      assert forall i :: 0 <= i < |init| ==> init[i] == resources[i];
      if Fixed(init, fix).None? {
        var i :| 0 <= i < |init| && fix(init[i]).None?;
        assert fix(resources[i]).None?;
      }
    }
  }

  lemma {:induction false} ChangedHasChange(resources: seq<Value>, fix: Fix)
    requires Changed(resources, fix) > 0
    ensures exists i :: 0 <= i < |resources| && Changes(fix, resources[i])
  {
    var last := resources[|resources| - 1];
    if !Changes(fix, last) {
      var init := resources[..|resources| - 1];
      ChangedHasChange(init, fix);
      var i :| 0 <= i < |init| && Changes(fix, init[i]);
      assert resources[i] == init[i];
    }
  }

  /** The fix raises on everything that is not an object, as `resource.get` does. */
  ghost predicate ObjectsOnly(fix: Fix)
  {
    forall r: Value :: !r.Obj? ==> fix(r).None?
  }

  /** A fixed resource is left alone by a second fix. */
  ghost predicate Settles(fix: Fix)
  {
    forall r: Value :: fix(r).Some? ==> fix(fix(r).value.0) == Some((fix(r).value.0, false))
  }

  /** With a settling fix, every resource already fixed: nothing changes. */
  lemma {:induction false} RefixedUnchanged(resources: seq<Value>, fix: Fix)
    requires Settles(fix) && Fixed(resources, fix).Some?
    ensures Fixed(Fixed(resources, fix).value.0, fix) == Some((Fixed(resources, fix).value.0, 0))
  {
    if resources != [] {
      var init := resources[..|resources| - 1];
      RefixedUnchanged(init, fix);
      var fixed := Fixed(resources, fix).value.0;
      assert fixed[..|fixed| - 1] == Fixed(init, fix).value.0;
    }
  }

  /**
   * A datapackage is written exactly when a resource changed, then with
   * its resources replaced by their fixed forms and nothing else changed.
   */
  lemma FixDpFacts(oid: string, dp: Value, fix: Fix, k: string, d: Value)
    requires ObjectsOnly(fix) && FixDp(oid, dp, fix).Some?
    ensures var v := FixDp(oid, dp, fix).value;
      var items := Elements(Get(dp, "resources", Arr([]))).value;
      v.oid == oid && v.seen == |items| && v.changed == Changed(items, fix)
      && (v.changed == 0 ==> v.out == dp)
      && (v.changed > 0 ==>
            (Get(dp, "resources", Arr([])).Arr? && At(v.out, "resources") == Arr(Fixed(items, fix).value.0)
             && (k != "resources" ==> Get(v.out, k, d) == Get(dp, k, d))))
  {
    var items := Elements(Get(dp, "resources", Arr([]))).value;
    FixedFacts(items, fix);
    var (fixed, n) := Fixed(items, fix).value;
    if n > 0 {
      ChangedHasChange(items, fix);
      var i :| 0 <= i < |items| && Changes(fix, items[i]);
      assert items[i].Obj?;
      GetSet(dp, "resources", Arr(fixed), "resources", Null);
      GetSet(dp, "resources", Arr(fixed), k, d);
    }
  }

  /** With a settling fix, a second run over a visited datapackage changes nothing and writes nothing. */
  lemma FixDpSettles(oid: string, dp: Value, fix: Fix)
    requires ObjectsOnly(fix) && Settles(fix) && FixDp(oid, dp, fix).Some?
    ensures var v := FixDp(oid, dp, fix).value;
      FixDp(oid, v.out, fix) == Some(Visit(oid, v.out, 0, v.seen))
  {
    var items := Elements(Get(dp, "resources", Arr([]))).value;
    FixedFacts(items, fix);
    var (fixed, n) := Fixed(items, fix).value;
    if n > 0 {
      var out := Set(dp, "resources", Arr(fixed));
      GetSet(dp, "resources", Arr(fixed), "resources", Arr([]));
      assert Elements(Get(out, "resources", Arr([]))) == Some(fixed);
      RefixedUnchanged(items, fix);
      assert Fixed(fixed, fix) == Some((fixed, 0));
      assert FixDp(oid, out, fix) == Some(Visit(oid, out, 0, |fixed|));
    }
  }

  /** The sweep's visits are exactly those of the ids it reads a datapackage for. */
  lemma VisitsOf(oids: seq<string>, fetch: Fetcher, fix: Fix, v: Visit)
    requires Collect(oids, fetch, Visiting(fix)).Ok?
    ensures v in Collect(oids, fetch, Visiting(fix)).value <==>
      exists oid :: oid in oids && fetch(DpKey(oid)).Some? && FixDp(oid, fetch(DpKey(oid)).value, fix) == Some(v)
  {
    CollectFacts(oids, fetch, Visiting(fix));
    if v in Collect(oids, fetch, Visiting(fix)).value {
      var oid :| oid in oids && !Raises(oid, fetch, Visiting(fix)) && v in Part(oid, fetch, Visiting(fix));
      assert fetch(DpKey(oid)).Some?;
    }
  }

  /** Each write is a visit with a change, under its datapackage key. */
  lemma {:induction false} WritesOf(visits: seq<Visit>, w: (string, Value))
    ensures w in Writes(visits) <==> exists v :: v in visits && v.changed > 0 && w == (DpKey(v.oid), v.out)
  {
    if visits != [] {
      var init := visits[..|visits| - 1];
      WritesOf(init, w);
      assert visits == init + [visits[|visits| - 1]];
      if exists v :: v in visits && v.changed > 0 && w == (DpKey(v.oid), v.out) {
        var v :| v in visits && v.changed > 0 && w == (DpKey(v.oid), v.out);
        if v != visits[|visits| - 1] {
          assert v in init;
        }
      }
    }
  }

  /**
   * The sweep writes back exactly the datapackages it reads where a
   * resource changed, each after the loop, under its own key.
   */
  lemma WritesFrom(oids: seq<string>, fetch: Fetcher, fix: Fix, w: (string, Value))
    requires Collect(oids, fetch, Visiting(fix)).Ok?
    ensures w in Writes(Collect(oids, fetch, Visiting(fix)).value) <==>
      exists oid :: oid in oids && fetch(DpKey(oid)).Some?
        && FixDp(oid, fetch(DpKey(oid)).value, fix).Some?
        && FixDp(oid, fetch(DpKey(oid)).value, fix).value.changed > 0
        && w == (DpKey(oid), FixDp(oid, fetch(DpKey(oid)).value, fix).value.out)
  {
    var visits := Collect(oids, fetch, Visiting(fix)).value;
    WritesOf(visits, w);
    if w in Writes(visits) {
      var v :| v in visits && v.changed > 0 && w == (DpKey(v.oid), v.out);
      VisitsOf(oids, fetch, fix, v);
    }
    if exists oid :: oid in oids && fetch(DpKey(oid)).Some?
        && FixDp(oid, fetch(DpKey(oid)).value, fix).Some?
        && FixDp(oid, fetch(DpKey(oid)).value, fix).value.changed > 0
        && w == (DpKey(oid), FixDp(oid, fetch(DpKey(oid)).value, fix).value.out) {
      var oid :| oid in oids && fetch(DpKey(oid)).Some?
        && FixDp(oid, fetch(DpKey(oid)).value, fix).Some?
        && FixDp(oid, fetch(DpKey(oid)).value, fix).value.changed > 0
        && w == (DpKey(oid), FixDp(oid, fetch(DpKey(oid)).value, fix).value.out);
      VisitsOf(oids, fetch, fix, FixDp(oid, fetch(DpKey(oid)).value, fix).value);
    }
  }
}
