/**
 * The repair of laminar-dump pipeline specs: pick the latest version of each
 * dataset's pipeline-spec.yaml key from a bucket listing, look up the
 * pipeline's history copy, and copy the load step's `from` and the dump
 * step's target back into the steps.
 */
module DumpSpecs {
  import opened Wrappers
  import opened Json
  import opened Text

  /** What follows the version in a spec key; its `.` matches any character but a newline. */
  const SpecTail := "/data/pipeline-spec.yaml"
  /** Collection stops once more keys than this are held. */
  const Cap := 1000
  const LoadStep := "bcodmo_pipeline_processors.load"
  const DumpStep := "bcodmo_pipeline_processors.dump_to_s3"

  /** The tail of the pattern matches `s` from position `j`. */
  predicate TailAt(s: string, j: nat)
  {
    j + |SpecTail| <= |s|
    && forall t :: 0 <= t < |SpecTail| ==>
      if SpecTail[t] == '.' then s[j + t] != '\n' else s[j + t] == SpecTail[t]
  }

  /**
   * `(.+)/(.+)/data/pipeline-spec.yaml` matches at the start of `s` with the
   * first group ending at `i` and the second at `j`; `.` never takes a newline.
   */
  predicate Matches(s: string, i: nat, j: nat)
  {
    1 <= i && i + 2 <= j && TailAt(s, j) && s[i] == '/' && '\n' !in s[..j]
  }

  /** The end of the second group as the greedy `.+` finds it: the largest one up to `j`. */
  function LastTail(s: string, i: nat, j: nat): (r: Option<nat>)
    ensures r.Some? ==> (i + 2 <= r.value <= j && Matches(s, i, r.value)
      && forall j': nat :: r.value < j' <= j ==> !Matches(s, i, j'))
    ensures r.None? ==> forall j': nat :: j' <= j ==> !Matches(s, i, j')
    decreases j
  {
    if j < i + 2 then None
    else if Matches(s, i, j) then Some(j)
    else LastTail(s, i, j - 1)
  }

  /**
   * The group ends a backtracking matcher settles on: the first group as long
   * as possible, then the second.
   */
  function LastSplit(s: string, i: nat): (r: Option<(nat, nat)>)
    ensures r.Some? ==> (1 <= r.value.0 <= i && Matches(s, r.value.0, r.value.1)
      && forall i': nat, j': nat :: Matches(s, i', j') && i' <= i ==>
        i' < r.value.0 || (i' == r.value.0 && j' <= r.value.1))
    ensures r.None? ==> forall i': nat, j': nat :: i' <= i ==> !Matches(s, i', j')
    decreases i
  {
    if i < 1 then None
    else match LastTail(s, i, |s|)
      case Some(j) => Some((i, j))
      case None => LastSplit(s, i - 1)
  }

  /** `re.match(...).groups()`: the dataset id and version texts of a key. */
  function Groups(key: string): Option<(string, string)>
  {
    match LastSplit(key, |key|)
    case None => None
    case Some((i, j)) => Some((key[..i], key[i + 1..j]))
  }

  datatype SpecKey = SpecKey(id: int, version: int)

  /** A key that matches and whose two groups both pass `int()`; None for the keys the loop skips. */
  function Parse(key: string): Option<SpecKey>
  {
    match Groups(key)
    case None => None
    case Some((id, version)) =>
      if ParseInt(id).Some? && ParseInt(version).Some? then
        Some(SpecKey(ParseInt(id).value, ParseInt(version).value))
      else None
  }

  /** The dataset ids of the parsed keys, in order of first appearance. */
  function Ids(keys: seq<string>, parse: string -> Option<SpecKey>): seq<int>
  {
    if keys == [] then []
    else
      var rest := Ids(keys[..|keys| - 1], parse);
      var p := parse(keys[|keys| - 1]);
      if p.None? || p.value.id in rest then rest else rest + [p.value.id]
  }

  /**
   * Where the latest key for `id` sits among `keys`, with its version; a
   * later key replaces it only with a strictly larger version.
   */
  function Best(keys: seq<string>, id: int, parse: string -> Option<SpecKey>): Option<(nat, int)>
  {
    if keys == [] then None
    else
      var prev := Best(keys[..|keys| - 1], id, parse);
      var p := parse(keys[|keys| - 1]);
      if p.Some? && p.value.id == id && (prev.None? || prev.value.1 < p.value.version) then
        Some((|keys| - 1, p.value.version))
      else prev
  }

  /** How many listed objects the loop consumes from position `n` on: it stops once more than Cap keys are held. */
  function Consumed(keys: seq<string>, n: nat, parse: string -> Option<SpecKey>): (r: nat)
    requires n <= |keys|
    ensures n <= r <= |keys|
    decreases |keys| - n
  {
    if n == |keys| || |Ids(keys[..n], parse)| > Cap then n else Consumed(keys, n + 1, parse)
  }

  /** The loop's state after seeing `keys`: the kept key per slot and `versions[id] == (version, slot)`. */
  ghost predicate Holds(keys: seq<string>, specs: seq<string>, versions: map<int, (int, nat)>)
  {
    var ids := Ids(keys, Parse);
    |specs| == |ids|
    && (forall id :: id in versions <==> id in ids)
    && forall s :: 0 <= s < |ids| ==>
      Best(keys, ids[s], Parse).Some? && Best(keys, ids[s], Parse).value.0 < |keys|
      && specs[s] == keys[Best(keys, ids[s], Parse).value.0]
      && ids[s] in versions && versions[ids[s]] == (Best(keys, ids[s], Parse).value.1, s)
  }

  /** A key that does not parse changes nothing. */
  lemma HoldsSkip(seen: seq<string>, key: string, specs: seq<string>, versions: map<int, (int, nat)>)
    requires Holds(seen, specs, versions) && Parse(key).None?
    ensures Holds(seen + [key], specs, versions)
  {
    assert (seen + [key])[..|seen|] == seen;
  }

  /** A version no larger than the one held keeps the held key. */
  lemma HoldsKeep(seen: seq<string>, key: string, specs: seq<string>, versions: map<int, (int, nat)>)
    requires Holds(seen, specs, versions) && Parse(key).Some? && Parse(key).value.id in versions
    requires versions[Parse(key).value.id].0 >= Parse(key).value.version
    ensures Holds(seen + [key], specs, versions)
  {
    var all := seen + [key];
    assert all[..|seen|] == seen;
    forall s | 0 <= s < |Ids(all, Parse)|
      ensures Best(all, Ids(all, Parse)[s], Parse) == Best(seen, Ids(seen, Parse)[s], Parse)
      ensures Best(seen, Ids(seen, Parse)[s], Parse).Some? && specs[s] == all[Best(seen, Ids(seen, Parse)[s], Parse).value.0]
    {
      assert Ids(all, Parse) == Ids(seen, Parse);
    }
  }

  /** A strictly larger version takes over the slot of its id. */
  lemma HoldsReplace(seen: seq<string>, key: string, id: int, version: int, specs: seq<string>, versions: map<int, (int, nat)>)
    requires Holds(seen, specs, versions) && Parse(key) == Some(SpecKey(id, version)) && id in versions
    requires versions[id].0 < version
    ensures versions[id].1 < |specs|
    ensures Holds(seen + [key], specs[versions[id].1 := key], versions[id := (version, versions[id].1)])
  {
    var all := seen + [key];
    assert all[..|seen|] == seen;
    var ids := Ids(seen, Parse);
    assert Ids(all, Parse) == ids;
    var index :| 0 <= index < |ids| && ids[index] == id;
    assert versions[id].1 == index;
    var specs', versions' := specs[index := key], versions[id := (version, index)];
    forall s | 0 <= s < |ids|
      ensures Best(all, ids[s], Parse).Some? && Best(all, ids[s], Parse).value.0 < |all|
      ensures specs'[s] == all[Best(all, ids[s], Parse).value.0]
      ensures ids[s] in versions' && versions'[ids[s]] == (Best(all, ids[s], Parse).value.1, s)
    {
      if s == index {
        BestNew(seen, key, id, version, Parse);
      } else {
        BestOther(seen, key, ids[s], Parse);
      }
    }
  }

  /** A key of another id leaves an id's latest key where it was. */
  lemma BestOther(seen: seq<string>, key: string, x: int, parse: string -> Option<SpecKey>)
    requires parse(key).None? || parse(key).value.id != x
    ensures Best(seen + [key], x, parse) == Best(seen, x, parse)
  {
    assert (seen + [key])[..|seen|] == seen;
  }

  /** A key with a larger version than the latest so far becomes the latest. */
  lemma BestNew(seen: seq<string>, key: string, id: int, version: int, parse: string -> Option<SpecKey>)
    requires parse(key) == Some(SpecKey(id, version))
    requires Best(seen, id, parse).None? || Best(seen, id, parse).value.1 < version
    ensures Best(seen + [key], id, parse) == Some((|seen|, version))
  {
    assert (seen + [key])[..|seen|] == seen;
  }

  /** A new id opens a slot at the end. */
  lemma HoldsAdd(seen: seq<string>, key: string, specs: seq<string>, versions: map<int, (int, nat)>)
    requires Holds(seen, specs, versions) && Parse(key).Some? && Parse(key).value.id !in versions
    ensures Holds(seen + [key], specs + [key],
      versions[Parse(key).value.id := (Parse(key).value.version, |specs|)])
  {
    var all := seen + [key];
    assert all[..|seen|] == seen;
    var id := Parse(key).value.id;
    assert Ids(all, Parse) == Ids(seen, Parse) + [id];
    assert Best(seen, id, Parse).None? by {
      if Best(seen, id, Parse).Some? {
        BestListed(seen, id, Parse);
      }
    }
  }

  lemma Extend(keys: seq<string>, n: nat)
    requires n < |keys|
    ensures keys[..n + 1] == keys[..n] + [keys[n]]
  {
  }

  /** Only ids that were listed have a latest key. */
  lemma {:induction false} BestListed(keys: seq<string>, id: int, parse: string -> Option<SpecKey>)
    requires Best(keys, id, parse).Some?
    ensures id in Ids(keys, parse)
  {
    var init := keys[..|keys| - 1];
    if Best(init, id, parse).Some? {
      BestListed(init, id, parse);
    }
  }

  /**
   * The listing loop: keeps, per dataset id, the key with the largest
   * version in the slot where the id first appeared.
   */
  method CollectLatest(keys: seq<string>) returns (specs: seq<string>, versions: map<int, (int, nat)>, counter: nat)
    ensures counter == Consumed(keys, 0, Parse)
    ensures Holds(keys[..counter], specs, versions)
  {
    specs, versions, counter := [], map[], 0;
    while counter < |keys| && |specs| <= Cap
      invariant counter <= |keys|
      invariant Holds(keys[..counter], specs, versions)
      invariant Consumed(keys, 0, Parse) == Consumed(keys, counter, Parse)
    {
      var key := keys[counter];
      ghost var seen := keys[..counter];
      Extend(keys, counter);
      var parsed := Parse(key);
      if parsed.Some? {
        var id, cur := parsed.value.id, parsed.value.version;
        if id in versions {
          var (prev, index) := versions[id];
          if prev < cur {
            HoldsReplace(seen, key, id, cur, specs, versions);
            specs := specs[index := key];
            versions := versions[id := (cur, index)];
          } else {
            HoldsKeep(seen, key, specs, versions);
          }
        } else {
          HoldsAdd(seen, key, specs, versions);
          versions := versions[id := (cur, |specs|)];
          specs := specs + [key];
        }
      } else {
        HoldsSkip(seen, key, specs, versions);
      }
      counter := counter + 1;
    }
  }

  /** What get_history_version gives back: None, False, the history's steps, or an exception. */
  datatype HistoryVersion = Missing | HasFrom | Steps(steps: Value) | Raises

  /** `step["run"]`; None where Python raises. */
  function Run(step: Value): Option<Value>
  {
    if Has(step, "run") then Some(At(step, "run")) else None
  }

  /** `step.get("parameters", {}).get(name, None)`, where both `.get` calls find a dict. */
  function Parameter(step: Value, name: string): Value
  {
    Get(Get(step, "parameters", Obj([])), name, Null)
  }

  /** Both `.get` calls of `step.get("parameters", {}).get(...)` find a dict; elsewhere Python raises. */
  predicate ParametersReadable(step: Value)
  {
    step.Obj? && Get(step, "parameters", Obj([])).Obj?
  }

  /** `steps[i]`: only a list can be indexed by position. */
  function Index(steps: Value, i: nat): Option<Value>
  {
    if steps.Arr? && i < |steps.items| then Some(steps.items[i]) else None
  }

  /** What the comparison decides at step `i`; None to go on to the next step. */
  function Verdict(step: Value, history: Value, i: nat): Option<HistoryVersion>
  {
    match Run(step)
    case None => Some(Raises)
    case Some(run) =>
      if run == Str(LoadStep) && !ParametersReadable(step) then Some(Raises)
      else if run == Str(LoadStep) && Parameter(step, "from") != Null then Some(HasFrom)
      else match Index(history, i)
        case None => Some(Raises)
        case Some(past) =>
          match Run(past)
          case None => Some(Raises)
          case Some(pastRun) => if pastRun != run then Some(Missing) else None
  }

  /** The step-by-step comparison from step `i` on. */
  function Walk(steps: seq<Value>, history: Value, i: nat): HistoryVersion
    decreases |steps| - i
  {
    if i >= |steps| then Steps(history)
    else match Verdict(steps[i], history, i)
      case Some(v) => v
      case None => Walk(steps, history, i + 1)
  }

  /** `history["pipeline"]["steps"]`; None where Python raises. */
  function HistorySteps(doc: Value): Option<Value>
  {
    if Has(doc, "pipeline") && Has(At(doc, "pipeline"), "steps") then Some(At(At(doc, "pipeline"), "steps"))
    else None
  }

  /** get_history_version, with the history object as read (None: no such key). */
  function HistoryOf(steps: seq<Value>, stored: Option<Value>): HistoryVersion
  {
    match stored
    case None => Missing
    case Some(doc) =>
      match HistorySteps(doc)
      case None => Raises
      case Some(history) =>
        match Elements(history)
        case None => Raises
        case Some(items) => if |steps| != |items| then Missing else Walk(steps, history, 0)
  }

  method GetHistoryVersion(steps: seq<Value>, stored: Option<Value>) returns (r: HistoryVersion)
    ensures r == HistoryOf(steps, stored)
  {
    if stored.None? {
      return Missing;
    }
    var history := HistorySteps(stored.value);
    if history.None? || Elements(history.value).None? {
      return Raises;
    }
    if |steps| != |Elements(history.value).value| {
      return Missing;
    }
    for i := 0 to |steps|
      invariant Walk(steps, history.value, 0) == Walk(steps, history.value, i)
    {
      var verdict := Verdict(steps[i], history.value, i);
      if verdict.Some? {
        return verdict.value;
      }
    }
    return Steps(history.value);
  }

  /** `step["parameters"][name] = x`; None where the step has no parameters dict. */
  function SetParameter(step: Value, name: string, x: Value): Option<Value>
  {
    if Has(step, "parameters") && At(step, "parameters").Obj? then
      Some(Set(step, "parameters", Set(At(step, "parameters"), name, x)))
    else None
  }

  /**
   * One pass of the patch loop: `past` is `history_steps[i]`, None where it
   * cannot be evaluated; the result is None where Python raises.
   */
  function PatchStep(step: Value, past: Option<Value>): Option<Value>
  {
    match Run(step)
    case None => None
    case Some(run) =>
      if run == Str(LoadStep) then
        match past
        case None => None
        case Some(h) =>
          if !ParametersReadable(h) then None
          else if Truthy(Parameter(h, "from")) then SetParameter(step, "from", Parameter(h, "from")) else Some(step)
      else if run == Str(DumpStep) then
        match past
        case None => None
        case Some(h) =>
          if !ParametersReadable(h) then None
          else match SetParameter(step, "bucket_name", Parameter(h, "bucket_name"))
          case None => None
          case Some(named) => SetParameter(named, "prefix", Parameter(h, "prefix"))
      else Some(step)
  }

  /** `history_steps[i]` for what get_history_version returned: False cannot be indexed. */
  function Past(version: HistoryVersion, i: nat): Option<Value>
  {
    if version.Steps? then Index(version.steps, i) else None
  }

  /** The patch loop as written: every step patched against `history_steps[i]`; None if one raises. */
  function Patched(steps: seq<Value>, version: HistoryVersion): (r: Option<seq<Value>>)
  {
    if forall i :: 0 <= i < |steps| ==> PatchStep(steps[i], Past(version, i)).Some? then
      Some(seq(|steps|, i requires 0 <= i < |steps| => PatchStep(steps[i], Past(version, i)).value))
    else None
  }

  /** The patch as intended: a pipeline that already has its `from` is left as it is. */
  function Repaired(steps: seq<Value>, version: HistoryVersion): (r: Option<seq<Value>>)
  {
    if version.HasFrom? then Some(steps) else Patched(steps, version)
  }

  /** The patch loop as written, which indexes `history_steps` even when it is False. */
  method PatchSteps(steps: seq<Value>, version: HistoryVersion) returns (r: Option<seq<Value>>)
    ensures r == Patched(steps, version)
  {
    var patched := steps;
    for i := 0 to |steps|
      invariant |patched| == |steps|
      invariant forall k :: 0 <= k < i ==> (PatchStep(steps[k], Past(version, k)).Some?
        && patched[k] == PatchStep(steps[k], Past(version, k)).value)
      invariant forall k :: i <= k < |steps| ==> patched[k] == steps[k]
    {
      var step := PatchStep(patched[i], Past(version, i));
      if step.None? {
        assert PatchStep(steps[i], Past(version, i)).None?;
        return None;
      }
      patched := patched[i := step.value];
    }
    assert patched == seq(|steps|, i requires 0 <= i < |steps| => PatchStep(steps[i], Past(version, i)).value);
    return Some(patched);
  }

  /** A pipeline-spec.yaml as loaded: its key, title, the dataset's orcid and its steps. */
  datatype Pipeline = Pipeline(path: string, title: string, orcid: Value, steps: seq<Value>)

  /** The history bucket, looked up by orcid and title; None where there is no such key. */
  type Store = (Value, string) -> Option<Value>

  datatype Listed = Listed(path: string, title: string)

  /** missing.json, fixed.json and the steps each rebuilt spec carries. */
  datatype Report = Report(failed: seq<Listed>, fixed: seq<Listed>, rebuilt: seq<seq<Value>>)

  /** What get_history_version answers for each pipeline. */
  type Versions = Pipeline -> HistoryVersion

  function VersionsIn(store: Store): Versions
  {
    (p: Pipeline) => HistoryOf(p.steps, store(p.orcid, p.title))
  }

  /** The report after one more pipeline, given its history version; None where the script dies. */
  function Next(acc: Report, p: Pipeline, version: HistoryVersion): Option<Report>
  {
    match version
    case Raises => None
    case Missing => Some(acc.(failed := acc.failed + [Listed(p.path, p.title)]))
    case _ =>
      match Repaired(p.steps, version)
      case None => None
      case Some(steps) =>
        var fixed := if version.Steps? then acc.fixed + [Listed(p.path, p.title)] else acc.fixed;
        Some(acc.(fixed := fixed, rebuilt := acc.rebuilt + [steps]))
  }

  /** The repair loop over the collected specs, from `acc` on. */
  function RepairAll(ps: seq<Pipeline>, acc: Report, versions: Versions): Option<Report>
  {
    if ps == [] then Some(acc)
    else match Next(acc, ps[0], versions(ps[0]))
      case None => None
      case Some(acc') => RepairAll(ps[1..], acc', versions)
  }

  method RepairPipelines(ps: seq<Pipeline>, store: Store) returns (r: Option<Report>)
    ensures r == RepairAll(ps, Report([], [], []), VersionsIn(store))
  {
    var failed, fixed, rebuilt := [], [], [];
    assert ps[0..] == ps;
    for i := 0 to |ps|
      invariant RepairAll(ps, Report([], [], []), VersionsIn(store)) == RepairAll(ps[i..], Report(failed, fixed, rebuilt), VersionsIn(store))
    {
      var p := ps[i];
      assert ps[i..][1..] == ps[i + 1..];
      var version := GetHistoryVersion(p.steps, store(p.orcid, p.title));
      assert version == VersionsIn(store)(p);
      if version.Raises? {
        return None;
      }
      if version.Missing? {
        failed := failed + [Listed(p.path, p.title)];
      } else if version.HasFrom? {
        rebuilt := rebuilt + [p.steps];
      } else {
        var steps := PatchSteps(p.steps, version);
        if steps.None? {
          return None;
        }
        if version.Steps? {
          fixed := fixed + [Listed(p.path, p.title)];
        }
        rebuilt := rebuilt + [steps.value];
      }
    }
    r := Some(Report(failed, fixed, rebuilt));
  }
}

/** What the repair of laminar-dump pipeline specs guarantees. */
module DumpSpecsFacts {
  import opened Wrappers
  import opened Json
  import opened Text
  import opened Lists
  import opened DumpSpecs

  predicate HasId(key: string, id: int, parse: string -> Option<SpecKey>)
  {
    parse(key).Some? && parse(key).value.id == id
  }

  /** Each id is listed once, and exactly the ids of the keys that parse are listed. */
  lemma {:induction false} IdsFacts(keys: seq<string>, parse: string -> Option<SpecKey>)
    ensures forall s, t :: 0 <= s < t < |Ids(keys, parse)| ==> Ids(keys, parse)[s] != Ids(keys, parse)[t]
    ensures forall id :: id in Ids(keys, parse) <==> exists a :: 0 <= a < |keys| && HasId(keys[a], id, parse)
  {
    if keys != [] {
      var init := keys[..|keys| - 1];
      IdsFacts(init, parse);
      forall id | id in Ids(keys, parse) ensures exists a :: 0 <= a < |keys| && HasId(keys[a], id, parse) {
        if id in Ids(init, parse) {
          var a :| 0 <= a < |init| && HasId(init[a], id, parse);
          assert keys[a] == init[a];
        } else {
          assert HasId(keys[|keys| - 1], id, parse);
        }
      }
      forall id | exists a :: 0 <= a < |keys| && HasId(keys[a], id, parse) ensures id in Ids(keys, parse) {
        var a :| 0 <= a < |keys| && HasId(keys[a], id, parse);
        if a < |init| {
          assert init[a] == keys[a];
        }
      }
    }
  }

  /** The ids of a shorter listing come first, in the same order: slots follow first appearance. */
  lemma {:induction false} IdsPrefix(keys: seq<string>, n: nat, parse: string -> Option<SpecKey>)
    requires n <= |keys|
    ensures Ids(keys[..n], parse) <= Ids(keys, parse)
    decreases |keys| - n
  {
    if n < |keys| {
      IdsPrefix(keys, n + 1, parse);
      assert keys[..n + 1][..n] == keys[..n];
    } else {
      assert keys[..n] == keys;
    }
  }

  /** One more key adds at most one id. */
  lemma IdsGrow(keys: seq<string>, n: nat, parse: string -> Option<SpecKey>)
    requires n < |keys|
    ensures |Ids(keys[..n + 1], parse)| <= |Ids(keys[..n], parse)| + 1
  {
    assert keys[..n + 1][..n] == keys[..n];
  }

  /**
   * The kept key for an id is one of that id's keys, no key of the id has a
   * larger version, and every earlier key of the id has a smaller one: ties
   * keep the key seen first.
   */
  lemma {:induction false} BestFacts(keys: seq<string>, id: int, parse: string -> Option<SpecKey>)
    ensures Best(keys, id, parse).Some? <==> id in Ids(keys, parse)
    ensures Best(keys, id, parse).Some? ==>
      var (b, v) := Best(keys, id, parse).value;
      b < |keys| && parse(keys[b]) == Some(SpecKey(id, v))
      && (forall a :: 0 <= a < |keys| && HasId(keys[a], id, parse) ==> parse(keys[a]).value.version <= v)
      && (forall a :: 0 <= a < b && HasId(keys[a], id, parse) ==> parse(keys[a]).value.version < v)
  {
    if keys != [] {
      var init := keys[..|keys| - 1];
      BestFacts(init, id, parse);
      IdsFacts(init, parse);
      if Best(keys, id, parse).Some? {
        var (b, v) := Best(keys, id, parse).value;
        forall a | 0 <= a < |keys| && HasId(keys[a], id, parse) ensures parse(keys[a]).value.version <= v {
          if a < |init| {
            assert keys[a] == init[a];
          }
        }
        forall a | 0 <= a < b && HasId(keys[a], id, parse) ensures parse(keys[a]).value.version < v {
          assert keys[a] == init[a];
        }
      }
    }
  }

  /** The loop stops at the first object met while more than Cap keys are held, or at the end. */
  lemma {:induction false} ConsumedFacts(keys: seq<string>, parse: string -> Option<SpecKey>)
    ensures var n := Consumed(keys, 0, parse);
      (n < |keys| ==> |Ids(keys[..n], parse)| > Cap)
      && (forall m :: 0 <= m < n ==> |Ids(keys[..m], parse)| <= Cap)
      && |Ids(keys[..n], parse)| <= Cap + 1
  {
    assert keys[..0] == [];
    ConsumedFrom(keys, 0, parse);
  }

  lemma {:induction false} ConsumedFrom(keys: seq<string>, n: nat, parse: string -> Option<SpecKey>)
    requires n <= |keys| && forall m :: 0 <= m < n ==> |Ids(keys[..m], parse)| <= Cap
    requires n == 0 || |Ids(keys[..n], parse)| <= Cap + 1
    ensures var r := Consumed(keys, n, parse);
      (r < |keys| ==> |Ids(keys[..r], parse)| > Cap)
      && (forall m :: 0 <= m < r ==> |Ids(keys[..m], parse)| <= Cap)
      && |Ids(keys[..r], parse)| <= Cap + 1
    decreases |keys| - n
  {
    if n == 0 {
      assert keys[..0] == [];
    }
    if !(n == |keys| || |Ids(keys[..n], parse)| > Cap) {
      IdsGrow(keys, n, parse);
      ConsumedFrom(keys, n + 1, parse);
    }
  }

  /** The sanity check after the loop holds: the id texts of the kept keys are all different. */
  lemma SanityCheck(keys: seq<string>, specs: seq<string>, versions: map<int, (int, nat)>)
    requires Holds(keys, specs, versions)
    ensures forall s :: 0 <= s < |specs| ==> Groups(specs[s]).Some?
    ensures forall s, t :: 0 <= s < t < |specs| ==> Groups(specs[s]).value.0 != Groups(specs[t]).value.0
  {
    var ids := Ids(keys, Parse);
    IdsFacts(keys, Parse);
    forall s | 0 <= s < |specs| ensures HasId(specs[s], ids[s], Parse) {
      BestFacts(keys, ids[s], Parse);
    }
  }

  /** A key written as `<id>/<version>/data/pipeline-spec.yaml` gives back its two parts. */
  lemma GroupsOf(id: string, version: string)
    requires id != [] && '\n' !in id
    requires version != [] && '/' !in version && '\n' !in version
    ensures Groups(id + "/" + version + SpecTail) == Some((id, version))
  {
    var key := id + "/" + version + SpecTail;
    var i, j := |id|, |id| + 1 + |version|;
    assert key[..j] == id + "/" + version;
    assert key[j..] == SpecTail;
    assert TailAt(key, j) by {
      forall t | 0 <= t < |SpecTail| ensures key[j + t] == SpecTail[t] {
        assert key[j..][t] == SpecTail[t];
      }
    }
    assert Matches(key, i, j);
    var (i', j') := LastSplit(key, |key|).value;
    assert key[..i] == id && key[i + 1..j] == version;
  }

  /** The comparison walks past the steps that pass and stops at the first decisive one. */
  lemma {:induction false} WalkSkips(steps: seq<Value>, history: Value, i: nat, k: nat)
    requires i <= k <= |steps|
    requires forall m :: i <= m < k ==> Verdict(steps[m], history, m).None?
    ensures Walk(steps, history, i) == Walk(steps, history, k)
    decreases k - i
  {
    if i < k {
      WalkSkips(steps, history, i + 1, k);
    }
  }

  /**
   * get_history_version is None when there is no history or the step counts
   * differ; otherwise the first step that decides gives False (a load step
   * with a `from`) or None (a different `run`), and the history's steps come
   * back when no step decides.
   */
  lemma HistoryFacts(steps: seq<Value>, stored: Option<Value>, history: Value, k: nat)
    requires stored.Some? && HistorySteps(stored.value) == Some(history)
    requires Elements(history).Some? && |Elements(history).value| == |steps|
    requires k <= |steps| && forall m :: 0 <= m < k ==> Verdict(steps[m], history, m).None?
    ensures k == |steps| ==> HistoryOf(steps, stored) == Steps(history)
    ensures k < |steps| && Verdict(steps[k], history, k).Some? ==>
      HistoryOf(steps, stored) == Verdict(steps[k], history, k).value
  {
    WalkSkips(steps, history, 0, k);
  }

  lemma MissingHistory(steps: seq<Value>, stored: Option<Value>)
    requires stored.None? || (HistorySteps(stored.value).Some? && Elements(HistorySteps(stored.value).value).Some?
      && |Elements(HistorySteps(stored.value).value).value| != |steps|)
    ensures HistoryOf(steps, stored) == Missing
  {
  }

  /** False comes back only from a load step that has a `from`, every earlier step having passed. */
  lemma {:induction false} HasFromAt(steps: seq<Value>, history: Value, i: nat)
    requires i <= |steps| && Walk(steps, history, i) == HasFrom
    ensures exists k :: i <= k < |steps| && Run(steps[k]) == Some(Str(LoadStep)) && Parameter(steps[k], "from") != Null
    decreases |steps| - i
  {
    if Verdict(steps[i], history, i).None? {
      HasFromAt(steps, history, i + 1);
    }
  }

  /** The patch loop as written dies on every pipeline get_history_version answered with False. */
  lemma FalsePathRaises(steps: seq<Value>, stored: Option<Value>)
    requires HistoryOf(steps, stored) == HasFrom
    ensures Patched(steps, HasFrom) == None
  {
    var history := HistorySteps(stored.value).value;
    HasFromAt(steps, history, 0);
    var k :| 0 <= k < |steps| && Run(steps[k]) == Some(Str(LoadStep)) && Parameter(steps[k], "from") != Null;
    assert PatchStep(steps[k], Past(HasFrom, k)).None?;
  }

  /** A one-step pipeline whose load step names its source reaches that path. */
  lemma FalsePathReached()
    ensures var load := Obj([("run", Str(LoadStep)), ("parameters", Obj([("from", Str("s3"))]))]);
      var doc := Obj([("pipeline", Obj([("steps", Arr([load]))]))]);
      HistoryOf([load], Some(doc)) == HasFrom && Patched([load], HasFrom) == None
  {
    var load := Obj([("run", Str(LoadStep)), ("parameters", Obj([("from", Str("s3"))]))]);
    var doc := Obj([("pipeline", Obj([("steps", Arr([load]))]))]);
    assert Lookup(load.entries, "run") == Some(Str(LoadStep));
    assert Run(load) == Some(Str(LoadStep));
    assert "run" != "parameters" by { assert "run"[0] != "parameters"[0]; }
    assert load.entries[1..] == [("parameters", Obj([("from", Str("s3"))]))];
    assert Lookup(load.entries[1..], "parameters") == Some(Obj([("from", Str("s3"))]));
    assert Lookup(load.entries, "parameters") == Some(Obj([("from", Str("s3"))]));
    assert Get(load, "parameters", Obj([])) == Obj([("from", Str("s3"))]);
    assert Parameter(load, "from") == Str("s3");
    assert Verdict(load, Arr([load]), 0) == Some(HasFrom);
    assert PatchStep(load, None).None?;
  }

  /** With the correction, such a pipeline is rebuilt unchanged and the run goes on. */
  lemma FalsePathKept(acc: Report, p: Pipeline)
    ensures Next(acc, p, HasFrom) == Some(acc.(rebuilt := acc.rebuilt + [p.steps]))
  {
  }

  /** `step["parameters"][name] = x` touches that one parameter and nothing else. */
  lemma SetParameterFacts(step: Value, name: string, x: Value)
    requires SetParameter(step, name, x).Some?
    ensures var r := SetParameter(step, name, x).value;
      Has(r, "parameters") && At(r, "parameters").Obj?
      && (forall k :: k != "parameters" ==> At(r, k) == At(step, k) && Has(r, k) == Has(step, k))
      && (forall k :: Parameter(r, k) == if k == name then x else Parameter(step, k))
  {
    var r := SetParameter(step, name, x).value;
    var params := At(step, "parameters");
    GetSet(step, "parameters", Set(params, name, x), "parameters", Null);
    forall k ensures At(r, k) == (if k == "parameters" then Set(params, name, x) else At(step, k))
      && Has(r, k) == (k == "parameters" || Has(step, k))
      && Get(r, "parameters", Obj([])) == Set(params, name, x)
    {
      GetSet(step, "parameters", Set(params, name, x), k, Null);
      GetSet(step, "parameters", Set(params, name, x), "parameters", Obj([]));
    }
    forall k ensures Parameter(r, k) == if k == name then x else Parameter(step, k) {
      GetSet(params, name, x, k, Null);
    }
  }

  /**
   * The patch of one step against its history step: a load step takes the
   * history's `from` only when that is truthy; a dump_to_s3 step takes the
   * history's bucket_name and prefix whatever they are, None included; any
   * other step is left as it is, and so is everything but those parameters.
   * It raises only on a step without `run`, a load or dump_to_s3 step whose
   * history step has no readable parameters, or a patched step without a
   * parameters dict.
   */
  lemma PatchStepFacts(step: Value, past: Value)
    ensures var r := PatchStep(step, Some(past));
      var touches := Run(step).Some? && (Run(step).value == Str(LoadStep) || Run(step).value == Str(DumpStep));
      var patches := touches && ParametersReadable(past)
        && (Run(step).value == Str(LoadStep) ==> Truthy(Parameter(past, "from")));
      (r.None? <==>
        Run(step).None? || (touches && !ParametersReadable(past))
        || (patches && !(Has(step, "parameters") && At(step, "parameters").Obj?)))
      && (r.Some? && !patches ==> r.value == step)
      && (r.Some? && patches ==>
        Run(r.value) == Run(step)
        && (forall k :: k != "parameters" ==> At(r.value, k) == At(step, k))
        && (Run(step).value == Str(LoadStep) ==>
          forall k :: Parameter(r.value, k) == if k == "from" then Parameter(past, "from") else Parameter(step, k))
        && (Run(step).value == Str(DumpStep) ==>
          forall k :: Parameter(r.value, k) ==
            if k == "bucket_name" then Parameter(past, "bucket_name")
            else if k == "prefix" then Parameter(past, "prefix")
            else Parameter(step, k)))
  {
    assert LoadStep != DumpStep by { assert LoadStep[27] != DumpStep[27]; }
    assert "run" != "parameters" by { assert "run"[0] != "parameters"[0]; }
    var r := PatchStep(step, Some(past));
    if Run(step).Some? {
      var run := Run(step).value;
      if !ParametersReadable(past) {
      } else if run == Str(LoadStep) && Truthy(Parameter(past, "from")) && SetParameter(step, "from", Parameter(past, "from")).Some? {
        SetParameterFacts(step, "from", Parameter(past, "from"));
      } else if run == Str(DumpStep) && SetParameter(step, "bucket_name", Parameter(past, "bucket_name")).Some? {
        var named := SetParameter(step, "bucket_name", Parameter(past, "bucket_name")).value;
        SetParameterFacts(step, "bucket_name", Parameter(past, "bucket_name"));
        SetParameterFacts(named, "prefix", Parameter(past, "prefix"));
        assert "bucket_name" != "prefix" by { assert "bucket_name"[0] != "prefix"[0]; }
      }
    }
  }

  /** Whether the script dies on this pipeline. */
  predicate Dies(p: Pipeline, versions: Versions)
  {
    versions(p).Raises? || (!versions(p).Missing? && Repaired(p.steps, versions(p)).None?)
  }

  function IsMissing(versions: Versions): Pipeline -> bool
  {
    (p: Pipeline) => versions(p).Missing?
  }

  function IsFixed(versions: Versions): Pipeline -> bool
  {
    (p: Pipeline) => versions(p).Steps?
  }

  function Listing(ps: seq<Pipeline>): (r: seq<Listed>)
    ensures |r| == |ps| && forall i :: 0 <= i < |ps| ==> r[i] == Listed(ps[i].path, ps[i].title)
  {
    seq(|ps|, i requires 0 <= i < |ps| => Listed(ps[i].path, ps[i].title))
  }

  /** One pipeline: the script dies, or it is listed in at most one of the two files. */
  lemma NextFacts(acc: Report, p: Pipeline, versions: Versions)
    ensures Next(acc, p, versions(p)).None? <==> Dies(p, versions)
    ensures Next(acc, p, versions(p)).Some? ==>
      var r := Next(acc, p, versions(p)).value;
      r.failed == acc.failed + (if IsMissing(versions)(p) then [Listed(p.path, p.title)] else [])
      && r.fixed == acc.fixed + (if IsFixed(versions)(p) then [Listed(p.path, p.title)] else [])
      && |r.rebuilt| == |acc.rebuilt| + (if IsMissing(versions)(p) then 0 else 1)
  {
  }

  /** The run completes iff no pipeline makes it die. */
  lemma {:induction false} RepairAllDies(ps: seq<Pipeline>, acc: Report, versions: Versions)
    ensures RepairAll(ps, acc, versions).None? <==> exists i :: 0 <= i < |ps| && Dies(ps[i], versions)
  {
    if ps != [] {
      NextFacts(acc, ps[0], versions);
      if Next(acc, ps[0], versions(ps[0])).Some? {
        RepairAllDies(ps[1..], Next(acc, ps[0], versions(ps[0])).value, versions);
        if exists i :: 0 <= i < |ps| && Dies(ps[i], versions) {
          var i :| 0 <= i < |ps| && Dies(ps[i], versions);
          assert ps[1..][i - 1] == ps[i];
        }
      }
    }
  }

  /** When the run completes, missing.json lists, in order, the pipelines without a usable history. */
  lemma {:induction false} RepairAllFailed(ps: seq<Pipeline>, acc: Report, versions: Versions)
    requires RepairAll(ps, acc, versions).Some?
    ensures RepairAll(ps, acc, versions).value.failed == acc.failed + Listing(Filter(ps, IsMissing(versions)))
  {
    if ps != [] {
      var p := ps[0];
      NextFacts(acc, p, versions);
      RepairAllFailed(ps[1..], Next(acc, p, versions(p)).value, versions);
      var missing := Filter(ps[1..], IsMissing(versions));
      if IsMissing(versions)(p) {
        assert Listing([p] + missing) == [Listed(p.path, p.title)] + Listing(missing);
      }
    }
  }

  /** ... and fixed.json, in order, those patched from their history. */
  lemma {:induction false} RepairAllFixed(ps: seq<Pipeline>, acc: Report, versions: Versions)
    requires RepairAll(ps, acc, versions).Some?
    ensures RepairAll(ps, acc, versions).value.fixed == acc.fixed + Listing(Filter(ps, IsFixed(versions)))
  {
    if ps != [] {
      var p := ps[0];
      NextFacts(acc, p, versions);
      RepairAllFixed(ps[1..], Next(acc, p, versions(p)).value, versions);
      var fixed := Filter(ps[1..], IsFixed(versions));
      if IsFixed(versions)(p) {
        assert Listing([p] + fixed) == [Listed(p.path, p.title)] + Listing(fixed);
      }
    }
  }

  /** Every pipeline not in missing.json is rebuilt. */
  lemma {:induction false} RepairAllRebuilt(ps: seq<Pipeline>, acc: Report, versions: Versions)
    requires RepairAll(ps, acc, versions).Some?
    ensures |RepairAll(ps, acc, versions).value.rebuilt| == |acc.rebuilt| + |ps| - |Filter(ps, IsMissing(versions))|
  {
    if ps != [] {
      var p := ps[0];
      NextFacts(acc, p, versions);
      RepairAllRebuilt(ps[1..], Next(acc, p, versions(p)).value, versions);
    }
  }
}
