/**
 * The related-publications repair: a submission whose metadata still holds
 * the flat keys "related_publications_<part>" gets them moved under the
 * nested "related_publications" object, or simply dropped when the nested
 * object already exists. Only datapackages whose select query returns a
 * truthy first record are read and written back.
 */
module RelatedPublications {
  import opened Wrappers
  import opened Json
  import opened SubmissionBucket

  const Nested := "related_publications"
  const Parts: seq<string> := ["methods_references", "related_datasets", "results_publications"]

  /** The flat key of one part. */
  function Flat(part: string): string { Nested + "_" + part }

  /** `metadata[flat]` moved to `metadata["related_publications"][part]`, when present. */
  function Move(m: Value, part: string): (r: Value)
    requires m.Obj? && At(m, Nested).Obj?
    ensures r.Obj? && Has(r, Nested) && At(r, Nested).Obj?
  {
    if !Has(m, Flat(part)) then m
    else
      var val := At(m, Flat(part));
      var d := Delete(m, Flat(part));
      FlatIsNotNested(part);
      GetDelete(m, Flat(part), Nested, Null);
      var nested := Set(At(d, Nested), part, val);
      GetSet(d, Nested, nested, Nested, Null);
      Set(d, Nested, nested)
  }

  /** `del metadata[flat]`, when present. */
  function Drop(m: Value, part: string): (r: Value)
    requires m.Obj?
    ensures r.Obj? && !Has(r, Flat(part))
    ensures Has(m, Nested) ==> Has(r, Nested)
  {
    if Has(m, Flat(part)) then
      FlatIsNotNested(part);
      GetDelete(m, Flat(part), Nested, Null);
      GetDelete(m, Flat(part), Flat(part), Null);
      Delete(m, Flat(part))
    else m
  }

  lemma FlatIsNotNested(part: string)
    ensures Flat(part) != Nested
  {
    assert |Flat(part)| > |Nested|;
  }

  /** The metadata after the repair. */
  function Restructure(m: Value): (r: Value)
    requires m.Obj?
    ensures r.Obj? && Has(r, Nested)
  {
    if !Has(m, Nested) then
      var start := Set(m, Nested, Obj([]));
      GetSet(m, Nested, Obj([]), Nested, Null);
      Move(Move(Move(start, Parts[0]), Parts[1]), Parts[2])
    else
      Drop(Drop(Drop(m, Parts[0]), Parts[1]), Parts[2])
  }

  /** The datapackage written back; None where the script raises on it. */
  function Repaired(dp: Value): (r: Option<Value>)
    ensures r.None? <==> !At(At(dp, "bcodmo:"), "metadata").Obj?
    ensures r.Some? ==> Has(At(At(r.value, "bcodmo:"), "metadata"), Nested)
  {
    var meta := At(dp, "bcodmo:");
    var metadata := At(meta, "metadata");
    if !(Has(dp, "bcodmo:") && Has(meta, "metadata") && metadata.Obj?) then None
    else
      GetSet(meta, "metadata", Restructure(metadata), "metadata", Null);
      GetSet(dp, "bcodmo:", Set(meta, "metadata", Restructure(metadata)), "bcodmo:", Null);
      Some(Set(dp, "bcodmo:", Set(meta, "metadata", Restructure(metadata))))
  }

  /**
   * The select query: None where it raises, else its first record, None
   * when it returned no payload.
   */
  type Selection = string -> Option<Option<Value>>

  /** The datapackage is read only when the query returned a truthy first record. */
  predicate Chosen(select: Selection, key: string)
  {
    select(key).Some? && select(key).value.Some? && Truthy(select(key).value.value)
  }

  /** The fetch as the sweep sees it: `read` only for chosen keys. */
  function Fetch(select: Selection, read: string -> Value): Fetcher
  {
    key => if Chosen(select, key) then Some(read(key)) else None
  }

  function Rewrite(oid: string, dp: Value): Option<seq<(string, Value)>>
  {
    match Repaired(dp)
    case None => None
    case Some(out) => Some([(DpKey(oid), out)])
  }

  /** The uploads, in listing order; the fixed ids are their keys' ids. */
  function Sweep(keys: seq<string>, select: Selection, read: string -> Value): Result<seq<(string, Value)>, string>
  {
    Collect(Visited(keys), Fetch(select, read), Rewrite)
  }
}

module RelatedPublicationsFacts {
  import opened Wrappers
  import opened Json
  import opened SubmissionBucket
  import opened SubmissionBucketFacts
  import opened RelatedPublications

  /** A key that is one of the three flat keys. */
  predicate IsFlat(k: string) { exists i :: 0 <= i < |Parts| && k == Flat(Parts[i]) }

  lemma MoveFacts(m: Value, part: string, k: string, d: Value)
    requires m.Obj? && At(m, Nested).Obj?
    ensures !Has(Move(m, part), Flat(part))
    ensures k != Flat(part) && k != Nested ==> Get(Move(m, part), k, d) == Get(m, k, d) && Has(Move(m, part), k) == Has(m, k)
    ensures Has(Move(m, part), Nested)
    ensures Has(At(Move(m, part), Nested), k) == ((k == part && Has(m, Flat(part))) || Has(At(m, Nested), k))
    ensures Get(At(Move(m, part), Nested), k, d) == if k == part && Has(m, Flat(part)) then At(m, Flat(part)) else Get(At(m, Nested), k, d)
  {
    FlatIsNotNested(part);
    if Has(m, Flat(part)) {
      var val := At(m, Flat(part));
      var del := Delete(m, Flat(part));
      GetDelete(m, Flat(part), Nested, Null);
      GetDelete(m, Flat(part), k, d);
      GetDelete(m, Flat(part), Flat(part), Null);
      var nested := Set(At(del, Nested), part, val);
      GetSet(del, Nested, nested, Nested, Null);
      GetSet(del, Nested, nested, k, d);
      GetSet(del, Nested, nested, Flat(part), Null);
      GetSet(At(del, Nested), part, val, k, d);
    } else {
      assert At(m, Nested).Obj?;
    }
  }

  lemma DropFacts(m: Value, part: string, k: string, d: Value)
    requires m.Obj?
    ensures !Has(Drop(m, part), Flat(part))
    ensures k != Flat(part) ==> Get(Drop(m, part), k, d) == Get(m, k, d) && Has(Drop(m, part), k) == Has(m, k)
  {
    if Has(m, Flat(part)) {
      GetDelete(m, Flat(part), k, d);
      GetDelete(m, Flat(part), Flat(part), Null);
    }
  }

  lemma FlatInjective(a: string, b: string)
    requires Flat(a) == Flat(b)
    ensures a == b
  {
    assert a == Flat(a)[|Nested| + 1..];
    assert b == Flat(b)[|Nested| + 1..];
  }

  /** The three flat keys differ from each other and from the nested key. */
  lemma FlatKeysDistinct()
    ensures Flat(Parts[0]) != Flat(Parts[1]) && Flat(Parts[0]) != Flat(Parts[2]) && Flat(Parts[1]) != Flat(Parts[2])
    ensures forall i :: 0 <= i < |Parts| ==> Flat(Parts[i]) != Nested
  {
    FlatIsNotNested(Parts[0]);
    FlatIsNotNested(Parts[1]);
    FlatIsNotNested(Parts[2]);
  }

  /** Without a nested object: afterwards it exists and no flat key remains. */
  lemma MovedGone(m: Value)
    requires m.Obj? && !Has(m, Nested)
    ensures Has(Restructure(m), Nested)
    ensures forall i :: 0 <= i < |Parts| ==> !Has(Restructure(m), Flat(Parts[i]))
  {
    var start := Set(m, Nested, Obj([]));
    GetSet(m, Nested, Obj([]), Nested, Null);
    var m1 := Move(start, Parts[0]);
    var m2 := Move(m1, Parts[1]);
    FlatKeysDistinct();
    MoveFacts(m2, Parts[2], Nested, Null);
    MoveFacts(m1, Parts[1], Flat(Parts[0]), Null);
    MoveFacts(m2, Parts[2], Flat(Parts[0]), Null);
    MoveFacts(m2, Parts[2], Flat(Parts[1]), Null);
    MoveFacts(start, Parts[0], Nested, Null);
  }

  /**
   * Without a nested object: every flat key present moves, value
   * unchanged, to its part of a new nested object that holds nothing else.
   */
  lemma MovedNested(m: Value, k: string, d: Value)
    requires m.Obj? && !Has(m, Nested)
    ensures Has(At(Restructure(m), Nested), k) <==> k in Parts && Has(m, Flat(k))
    ensures k in Parts && Has(m, Flat(k)) ==> At(At(Restructure(m), Nested), k) == At(m, Flat(k))
  {
    var start := Set(m, Nested, Obj([]));
    GetSet(m, Nested, Obj([]), Nested, Null);
    var m1 := Move(start, Parts[0]);
    var m2 := Move(m1, Parts[1]);
    MoveFacts(start, Parts[0], k, Null);
    MoveFacts(m1, Parts[1], k, Null);
    MoveFacts(m2, Parts[2], k, Null);
    FlatKeysDistinct();
    if k in Parts {
      FlatIsNotNested(k);
      GetSet(m, Nested, Obj([]), Flat(k), Null);
      MoveFacts(start, Parts[0], Flat(k), Null);
      MoveFacts(m1, Parts[1], Flat(k), Null);
    }
  }

  /** Without a nested object: every key other than the nested and flat ones is as before. */
  lemma MovedOthers(m: Value, k: string, d: Value)
    requires m.Obj? && !Has(m, Nested)
    requires k != Nested && !IsFlat(k)
    ensures Get(Restructure(m), k, d) == Get(m, k, d) && Has(Restructure(m), k) == Has(m, k)
  {
    var start := Set(m, Nested, Obj([]));
    GetSet(m, Nested, Obj([]), Nested, Null);
    GetSet(m, Nested, Obj([]), k, d);
    var m1 := Move(start, Parts[0]);
    var m2 := Move(m1, Parts[1]);
    assert k != Flat(Parts[0]) && k != Flat(Parts[1]) && k != Flat(Parts[2]);
    MoveFacts(start, Parts[0], k, d);
    MoveFacts(m1, Parts[1], k, d);
    MoveFacts(m2, Parts[2], k, d);
  }

  /**
   * With a nested object: the flat keys are deleted, the nested object and
   * every other key are unchanged.
   */
  lemma DroppedWhenPresent(m: Value, k: string, d: Value)
    requires m.Obj? && Has(m, Nested)
    ensures forall i :: 0 <= i < |Parts| ==> !Has(Restructure(m), Flat(Parts[i]))
    ensures !IsFlat(k) ==> Get(Restructure(m), k, d) == Get(m, k, d) && Has(Restructure(m), k) == Has(m, k)
  {
    var m1 := Drop(m, Parts[0]);
    var m2 := Drop(m1, Parts[1]);
    DropFacts(m, Parts[0], k, d);
    DropFacts(m1, Parts[1], k, d);
    DropFacts(m2, Parts[2], k, d);
    forall i | 0 <= i < |Parts| ensures !Has(Restructure(m), Flat(Parts[i])) {
      DropFacts(m, Parts[0], Flat(Parts[i]), Null);
      DropFacts(m1, Parts[1], Flat(Parts[i]), Null);
      DropFacts(m2, Parts[2], Flat(Parts[i]), Null);
      forall j | 0 <= j < |Parts| && Flat(Parts[j]) == Flat(Parts[i]) ensures Parts[j] == Parts[i] {
        FlatInjective(Parts[j], Parts[i]);
      }
    }
    if !IsFlat(k) {
      assert k != Flat(Parts[0]) && k != Flat(Parts[1]) && k != Flat(Parts[2]);
    }
  }

  /** A second run changes nothing. */
  lemma RestructureIdempotent(m: Value)
    requires m.Obj?
    ensures Restructure(Restructure(m)) == Restructure(m)
  {
    var r := Restructure(m);
    if !Has(m, Nested) {
      MovedGone(m);
    } else {
      DroppedWhenPresent(m, Nested, Null);
      assert !IsFlat(Nested) by {
        forall i | 0 <= i < |Parts| ensures Nested != Flat(Parts[i]) {
          FlatIsNotNested(Parts[i]);
        }
      }
    }
    assert Has(r, Nested);
    MovedOrDroppedGone(m);
  }

  lemma MovedOrDroppedGone(m: Value)
    requires m.Obj?
    ensures forall i :: 0 <= i < |Parts| ==> !Has(Restructure(m), Flat(Parts[i]))
  {
    if Has(m, Nested) {
      DroppedWhenPresent(m, Nested, Null);
    } else {
      MovedGone(m);
    }
  }

  /**
   * The sweep writes back exactly the chosen datapackages it can repair,
   * each repaired, under its own key.
   */
  lemma SweepWrites(keys: seq<string>, select: Selection, read: string -> Value, put: (string, Value))
    requires Sweep(keys, select, read).Ok?
    ensures put in Sweep(keys, select, read).value <==>
      exists oid :: oid in Visited(keys) && Chosen(select, DpKey(oid)) && Repaired(read(DpKey(oid))).Some?
        && put == (DpKey(oid), Repaired(read(DpKey(oid))).value)
  {
    CollectFacts(Visited(keys), Fetch(select, read), Rewrite);
  }
}
