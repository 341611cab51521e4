/**
 * The comments report: a header row, then one row per visited datapackage
 * whose metadata holds truthy comments, saying whether it belongs to a
 * dataset (a submission) or a project, its id and the comments.
 */
module Comments {
  import opened Wrappers
  import opened Json
  import opened SubmissionBucket

  const Header: seq<Value> := [Str("type"), Str("id"), Str("comments")]

  /** "dataset" for a submission's datapackage, "project" otherwise. */
  function Kind(meta: Value): string
  {
    if Has(meta, "submissionId") then "dataset" else "project"
  }

  /**
   * The row one datapackage adds, if any; None where the script raises
   * on it (no "bcodmo:", or a "bcodmo:" or "metadata" that is not an object).
   */
  function CommentRow(oid: string, dp: Value): Option<seq<seq<Value>>>
  {
    if !Has(dp, "bcodmo:") || !At(dp, "bcodmo:").Obj? then None
    else
      var meta := At(dp, "bcodmo:");
      var metadata := Get(meta, "metadata", Obj([]));
      if !metadata.Obj? then None
      else
        var comments := At(metadata, "comments");
        if Truthy(comments) then Some([[Str(Kind(meta)), Str(oid), comments]]) else Some([])
  }

  /** The rows the script writes, or Err with the id of the datapackage it raised on. */
  function Results(keys: seq<string>, fetch: Fetcher): (r: Result<seq<seq<Value>>, string>)
    ensures r.Ok? ==> |r.value| >= 1 && r.value[0] == Header
  {
    match Collect(Visited(keys), fetch, CommentRow)
    case Err(oid) => Err(oid)
    case Ok(rows) => Ok([Header] + rows)
  }

  /** The script: the header row, then the object loop appending rows. */
  method Run(keys: seq<string>, fetch: Fetcher) returns (results: Result<seq<seq<Value>>, string>)
    ensures results == Results(keys, fetch)
  {
    var rows := CollectAll(Visited(keys), fetch, CommentRow);
    if rows.Err? {
      return Err(rows.error);
    }
    results := Ok([Header] + rows.value);
  }
}

module CommentsFacts {
  import opened Wrappers
  import opened Json
  import opened SubmissionBucket
  import opened SubmissionBucketFacts
  import opened Comments

  /** The comments of a datapackage whose "bcodmo:" is an object. */
  function CommentsOf(dp: Value): Value
  {
    At(Get(At(dp, "bcodmo:"), "metadata", Obj([])), "comments")
  }

  /**
   * A datapackage the script reads without raising gives a row exactly
   * when its comments are truthy; the row names its kind, its id and the
   * comments.
   */
  lemma CommentRowFacts(oid: string, dp: Value)
    requires CommentRow(oid, dp).Some?
    ensures var rows := CommentRow(oid, dp).value;
      (rows != [] <==> Truthy(CommentsOf(dp)))
      && (rows != [] ==> rows == [[Str(Kind(At(dp, "bcodmo:"))), Str(oid), CommentsOf(dp)]])
  {
  }

  /** The script raises exactly on a datapackage without an object "bcodmo:" or with a non-object "metadata". */
  lemma CommentRowRaises(oid: string, dp: Value)
    ensures CommentRow(oid, dp).None? <==>
      !(Has(dp, "bcodmo:") && At(dp, "bcodmo:").Obj? && Get(At(dp, "bcodmo:"), "metadata", Obj([])).Obj?)
  {
  }

  /** A row says "dataset" exactly for a submission's datapackage. */
  lemma KindIff(meta: Value)
    ensures Kind(meta) == "dataset" <==> Has(meta, "submissionId")
    ensures Kind(meta) == "project" <==> !Has(meta, "submissionId")
  {
  }

  /**
   * After the header, a row is written exactly when it is the row of a
   * visited datapackage that was read: the sweep reports every commented
   * datapackage and nothing else.
   */
  lemma ResultsRows(keys: seq<string>, fetch: Fetcher, row: seq<Value>)
    requires Results(keys, fetch).Ok?
    ensures row in Results(keys, fetch).value[1..] <==>
      exists oid :: oid in Visited(keys) && fetch(DpKey(oid)).Some? && CommentRow(oid, fetch(DpKey(oid)).value) == Some([row])
  {
    var oids := Visited(keys);
    CollectFacts(oids, fetch, CommentRow);
    var rows := Collect(oids, fetch, CommentRow).value;
    assert Results(keys, fetch).value[1..] == rows;
    if row in rows {
      var oid :| oid in oids && !Raises(oid, fetch, CommentRow) && row in Part(oid, fetch, CommentRow);
      assert fetch(DpKey(oid)).Some?;
      CommentRowFacts(oid, fetch(DpKey(oid)).value);
    }
    if exists oid :: oid in oids && fetch(DpKey(oid)).Some? && CommentRow(oid, fetch(DpKey(oid)).value) == Some([row]) {
      var oid :| oid in oids && fetch(DpKey(oid)).Some? && CommentRow(oid, fetch(DpKey(oid)).value) == Some([row]);
      assert row in Part(oid, fetch, CommentRow);
    }
  }

  /** The script finishes exactly when it raises on none of the visited datapackages it reads. */
  lemma ResultsOk(keys: seq<string>, fetch: Fetcher)
    ensures Results(keys, fetch).Ok? <==>
      forall oid :: oid in Visited(keys) && fetch(DpKey(oid)).Some? ==> CommentRow(oid, fetch(DpKey(oid)).value).Some?
  {
    CollectFacts(Visited(keys), fetch, CommentRow);
  }
}
