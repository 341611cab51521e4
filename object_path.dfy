/**
 * The file-object path repair: a resource path that starts with the S3
 * host followed by "/minio/" loses that "/minio" segment, and a
 * datapackage with a rewritten path is written back.
 */
module ObjectPath {
  import opened Wrappers
  import opened Json
  import opened SubmissionBucket
  import opened ResourceSweep

  /** The first group; its two dots match any character but a newline. */
  const Host := "https://s3.amazonaws.com"
  const Minio := "/minio/"

  /** `(https:\/\/s3.amazonaws.com)\/minio\/` matches at the start of `path`. */
  predicate PrefixAt(path: string)
  {
    |Host| + |Minio| <= |path|
    && (forall t :: 0 <= t < |Host| ==> if Host[t] == '.' then path[t] != '\n' else path[t] == Host[t])
    && (forall t :: 0 <= t < |Minio| ==> path[|Host| + t] == Minio[t])
  }

  /**
   * `f"{before}/{after}"` where the pattern matches: the second group `.+`
   * runs from after the prefix up to the first newline and needs a character.
   */
  function NewPath(path: string): (r: Option<string>)
    ensures r.Some? <==> PrefixAt(path) && |Host| + |Minio| < |path| && path[|Host| + |Minio|] != '\n'
  {
    if !PrefixAt(path) then None
    else
      var rest := path[|Host| + |Minio|..];
      var n := LineLength(rest);
      if n == 0 then None else Some(path[..|Host|] + "/" + rest[..n])
  }

  /**
   * One resource after the repair and whether its path changed; None
   * where the script raises on it (not an object, or a path that is not a
   * string).
   */
  function FixPath(resource: Value): (r: Option<(Value, bool)>)
    ensures r.None? <==> !resource.Obj? || !Get(resource, "path", Str("")).Str?
    ensures r.Some? && !r.value.1 ==> r.value.0 == resource
    ensures r.Some? && r.value.1 ==> NewPath(Get(resource, "path", Str("")).s).Some?
  {
    if !resource.Obj? then None
    else
      var path := Get(resource, "path", Str(""));
      if !path.Str? then None
      else
        match NewPath(path.s)
        case None => Some((resource, false))
        case Some(p) => Some((Set(resource, "path", Str(p)), true))
  }

  /** The visits of the listed keys, in order; Err with the id the script raised on. */
  function Sweep(keys: seq<string>, fetch: Fetcher): Result<seq<Visit>, string>
  {
    Collect(Visited(keys), fetch, Visiting(FixPath))
  }
}

module ObjectPathFacts {
  import opened Wrappers
  import opened Json
  import opened SubmissionBucket
  import opened ResourceSweep
  import opened ResourceSweepFacts
  import opened ObjectPath

  /** A path without a newline that the pattern matches loses exactly the "/minio" after the host. */
  lemma MinioRemoved(path: string)
    requires NewPath(path).Some? && forall t :: 0 <= t < |path| ==> path[t] != '\n'
    ensures NewPath(path) == Some(path[..|Host|] + path[|Host| + |"/minio"|..])
  {
    var rest := path[|Host| + |Minio|..];
    var n := LineLength(rest);
    assert rest[..n] == rest;
    assert NewPath(path) == Some(path[..|Host|] + "/" + rest);
    assert path[|Host| + |Minio| - 1] == Minio[|Minio| - 1];
    assert path[|Host| + |Minio| - 1..] == "/" + rest;
    assert |"/minio"| == |Minio| - 1;
    assert path[..|Host|] + "/" + rest == path[..|Host|] + ("/" + rest);
  }

  /** A path written as host, "/minio/" and a line of text comes back as host, "/" and that text. */
  lemma Rewrites(text: string)
    requires text != [] && forall t :: 0 <= t < |text| ==> text[t] != '\n'
    ensures NewPath(Host + Minio + text) == Some(Host + "/" + text)
  {
    var path := Host + Minio + text;
    assert PrefixAt(path) by {
      forall t | 0 <= t < |Host| ensures path[t] == Host[t] { }
      forall t | 0 <= t < |Minio| ensures path[|Host| + t] == Minio[t] { }
    }
    var rest := path[|Host| + |Minio|..];
    assert rest == text;
    var n := LineLength(rest);
    assert rest[..n] == text;
    assert path[..|Host|] == Host;
  }

  /**
   * One segment per run: a path with "/minio" twice keeps the second, and
   * a second run would remove that one too.
   */
  lemma OneSegmentPerRun(text: string)
    requires text != [] && forall t :: 0 <= t < |text| ==> text[t] != '\n'
    ensures NewPath(Host + Minio + "minio/" + text) == Some(Host + Minio + text)
    ensures NewPath(Host + Minio + text).Some?
  {
    var longer := "minio/" + text;
    forall t | 0 <= t < |longer| ensures longer[t] != '\n' {
      if t >= 6 {
        assert longer[t] == text[t - 6];
      }
    }
    Rewrites(longer);
    assert Host + Minio + "minio/" + text == Host + Minio + longer;
    assert Host + "/" + longer == Host + Minio + text;
    Rewrites(text);
  }

  /** The second group stops at a newline: what follows it is dropped. */
  lemma NewlineCuts(text: string, after: string)
    requires text != [] && forall t :: 0 <= t < |text| ==> text[t] != '\n'
    ensures NewPath(Host + Minio + text + "\n" + after) == Some(Host + "/" + text)
  {
    var path := Host + Minio + text + "\n" + after;
    assert PrefixAt(path) by {
      forall t | 0 <= t < |Host| ensures path[t] == Host[t] { }
      forall t | 0 <= t < |Minio| ensures path[|Host| + t] == Minio[t] { }
    }
    var rest := path[|Host| + |Minio|..];
    assert rest == text + "\n" + after;
    var n := LineLength(rest);
    assert rest[|text|] == '\n';
    assert rest[..n] == text;
    assert path[..|Host|] == Host;
  }

  /**
   * A resource changes exactly when its path is a string the pattern
   * matches; it then gets the new path and nothing else changes. The fix
   * raises on anything but an object.
   */
  lemma FixPathFacts(resource: Value, k: string, d: Value)
    requires FixPath(resource).Some?
    ensures var (out, changed) := FixPath(resource).value;
      var path := Get(resource, "path", Str(""));
      path.Str?
      && (changed <==> NewPath(path.s).Some?)
      && (!changed ==> out == resource)
      && (changed ==>
            (At(out, "path") == Str(NewPath(path.s).value) && (k != "path" ==> Get(out, k, d) == Get(resource, k, d))))
  {
    var path := Get(resource, "path", Str(""));
    if NewPath(path.s).Some? {
      GetSet(resource, "path", Str(NewPath(path.s).value), "path", Null);
      GetSet(resource, "path", Str(NewPath(path.s).value), k, d);
    }
  }

  lemma FixPathObjectsOnly()
    ensures ObjectsOnly(FixPath)
  {
  }

  /**
   * The sweep writes back exactly the visited datapackages with a
   * rewritten path, each with its resources repaired, under its own key.
   */
  lemma SweepWrites(keys: seq<string>, fetch: Fetcher, w: (string, Value))
    requires Sweep(keys, fetch).Ok?
    ensures w in Writes(Sweep(keys, fetch).value) <==>
      exists oid :: oid in Visited(keys) && fetch(DpKey(oid)).Some?
        && FixDp(oid, fetch(DpKey(oid)).value, FixPath).Some?
        && FixDp(oid, fetch(DpKey(oid)).value, FixPath).value.changed > 0
        && w == (DpKey(oid), FixDp(oid, fetch(DpKey(oid)).value, FixPath).value.out)
  {
    WritesFrom(Visited(keys), fetch, FixPath, w);
  }
}
