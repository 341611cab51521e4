/**
 * The sweep that the submission-bucket scripts share: every listed key
 * that `re.match("(.+)/datapackage.json", key)` accepts gives an object
 * id, the datapackage under `<id>/datapackage.json` is fetched (a failed
 * fetch skips the key), and the script's work on that datapackage either
 * yields its part of the output or raises, which ends the script.
 */
module SubmissionBucket {
  import opened Wrappers
  import opened Json

  /** What follows the object id in a key; its `.` matches any character but a newline. */
  const DpTail := "/datapackage.json"

  /** The tail of the pattern matches `key` from position `j`. */
  predicate TailAt(key: string, j: nat)
  {
    j + |DpTail| <= |key|
    && forall t :: 0 <= t < |DpTail| ==>
      if DpTail[t] == '.' then key[j + t] != '\n' else key[j + t] == DpTail[t]
  }

  /** `(.+)/datapackage.json` matches at the start of `key` with the group ending at `j`. */
  predicate GroupEndsAt(key: string, j: nat)
  {
    1 <= j <= |key| && (forall t :: 0 <= t < j ==> key[t] != '\n') && TailAt(key, j)
  }

  /** How far `.+` can reach: up to the first newline. */
  function LineLength(key: string): (n: nat)
    ensures n <= |key|
    ensures forall t :: 0 <= t < n ==> key[t] != '\n'
    ensures n < |key| ==> key[n] == '\n'
  {
    if key == [] || key[0] == '\n' then 0 else 1 + LineLength(key[1..])
  }

  /** The greedy group backs off from `j` to the last place where the tail matches. */
  function LastTail(key: string, j: nat): (r: Option<nat>)
    ensures r.Some? ==> 1 <= r.value <= j && TailAt(key, r.value)
    ensures r.Some? ==> forall k: nat :: r.value < k <= j ==> !TailAt(key, k)
    ensures r.None? ==> forall k: nat :: 1 <= k <= j ==> !TailAt(key, k)
  {
    if j == 0 then None else if TailAt(key, j) then Some(j) else LastTail(key, j - 1)
  }

  /**
   * The object id `re.match` captures: the longest group that the tail can
   * follow, or None where the key does not match.
   */
  function Oid(key: string): (r: Option<string>)
    ensures r.Some? ==> GroupEndsAt(key, |r.value|) && r.value == key[..|r.value|]
    ensures forall j: nat :: GroupEndsAt(key, j) ==> r.Some? && j <= |r.value|
  {
    var n := LineLength(key);
    assert forall j: nat :: GroupEndsAt(key, j) ==> j <= n by {
      forall j: nat | GroupEndsAt(key, j) ensures j <= n {
        if n < |key| {
          assert key[n] == '\n';
        }
      }
    }
    match LastTail(key, n)
    case None => None
    case Some(j) => Some(key[..j])
  }

  /** `f"{oid}/datapackage.json"`, the key the script fetches. */
  function DpKey(oid: string): string { oid + DpTail }

  /** The object ids of the matching keys, in listing order. */
  function Visited(keys: seq<string>): seq<string>
  {
    if keys == [] then []
    else
      var last := Oid(keys[|keys| - 1]);
      Visited(keys[..|keys| - 1]) + (if last.Some? then [last.value] else [])
  }

  /**
   * `get_object` followed by `json.loads`: None where the fetch raises and
   * the key is skipped. The parse sits outside the `try`, so a body that is
   * not JSON would end the script; the fetcher gives parsed values only.
   */
  type Fetcher = string -> Option<Value>

  /**
   * The sweep: each visited id's part of the output, in order; Err with
   * the id whose datapackage made the script raise.
   */
  function Collect<T>(oids: seq<string>, fetch: Fetcher, each: (string, Value) -> Option<seq<T>>): Result<seq<T>, string>
  {
    if oids == [] then Ok([])
    else
      var o := oids[|oids| - 1];
      match Collect(oids[..|oids| - 1], fetch, each)
      case Err(failed) => Err(failed)
      case Ok(out) =>
        match fetch(DpKey(o))
        case None => Ok(out)
        case Some(dp) =>
          match each(o, dp)
          case None => Err(o)
          case Some(part) => Ok(out + part)
  }

  lemma {:induction false} CollectStops<T>(oids: seq<string>, fetch: Fetcher, each: (string, Value) -> Option<seq<T>>, i: nat)
    requires i <= |oids| && Collect(oids[..i], fetch, each).Err?
    ensures Collect(oids, fetch, each) == Collect(oids[..i], fetch, each)
    decreases |oids| - i
  {
    if i < |oids| {
      assert oids[..i + 1][..i] == oids[..i];
      CollectStops(oids, fetch, each, i + 1);
    } else {
      assert oids[..i] == oids;
    }
  }

  /** The loop over the ids, stopping at the first datapackage the script raises on. */
  method CollectAll<T>(oids: seq<string>, fetch: Fetcher, each: (string, Value) -> Option<seq<T>>) returns (r: Result<seq<T>, string>)
    ensures r == Collect(oids, fetch, each)
  {
    var out: seq<T> := [];
    for i := 0 to |oids|
      invariant Collect(oids[..i], fetch, each) == Ok(out)
    {
      assert oids[..i + 1][..i] == oids[..i];
      var dp := fetch(DpKey(oids[i]));
      if dp.Some? {
        var part := each(oids[i], dp.value);
        if part.None? {
          CollectStops(oids, fetch, each, i + 1);
          return Err(oids[i]);
        }
        out := out + part.value;
      }
    }
    assert oids[..|oids|] == oids;
    return Ok(out);
  }

  /** The script raises on the datapackage of `o`. */
  predicate Raises<T>(o: string, fetch: Fetcher, each: (string, Value) -> Option<seq<T>>)
  {
    fetch(DpKey(o)).Some? && each(o, fetch(DpKey(o)).value).None?
  }

  /** What `o` adds to the output: nothing where its fetch fails. */
  function Part<T>(o: string, fetch: Fetcher, each: (string, Value) -> Option<seq<T>>): seq<T>
    requires !Raises(o, fetch, each)
  {
    if fetch(DpKey(o)).None? then [] else each(o, fetch(DpKey(o)).value).value
  }
}

module SubmissionBucketFacts {
  import opened Wrappers
  import opened Json
  import opened SubmissionBucket

  /** An id without a newline comes back out of its own datapackage key. */
  lemma KeyRoundTrip(oid: string)
    requires oid != [] && forall t :: 0 <= t < |oid| ==> oid[t] != '\n'
    ensures Oid(DpKey(oid)) == Some(oid)
  {
    var key := DpKey(oid);
    TailFollows(oid, []);
    assert key + [] == key;
    assert GroupEndsAt(key, |oid|);
    assert key[..|oid|] == oid;
  }

  /**
   * The group is greedy: an id may hold slashes, and where the tail comes
   * twice the id runs to the last one.
   */
  lemma GreedyGroup(oid: string)
    requires oid != [] && forall t :: 0 <= t < |oid| ==> oid[t] != '\n'
    ensures Oid(DpKey(DpKey(oid))) == Some(DpKey(oid))
  {
    var inner := DpKey(oid);
    forall t | 0 <= t < |inner| ensures inner[t] != '\n' {
      if t >= |oid| {
        assert inner[t] == DpTail[t - |oid|];
      }
    }
    KeyRoundTrip(inner);
  }

  /** Without an end anchor, a key that only starts like a datapackage key is visited under the same id. */
  lemma NoEndAnchor()
    ensures Oid("ab/datapackage.json.bak") == Some("ab")
  {
    var key := "ab/datapackage.json.bak";
    BakTail();
    BakOnlyTail();
    var r := Oid(key);
    assert TailAt(key, |r.value|);
    assert |r.value| == 2;
    BakPrefix();
  }

  lemma BakTail()
    ensures GroupEndsAt("ab/datapackage.json.bak", 2)
  {
    assert "ab/datapackage.json.bak" == DpKey("ab") + ".bak";
    TailFollows("ab", ".bak");
  }

  /** The tail matches right after the id in any key that starts with the id's datapackage key. */
  lemma TailFollows(oid: string, rest: string)
    ensures TailAt(DpKey(oid) + rest, |oid|)
  {
    var key := DpKey(oid) + rest;
    forall t | 0 <= t < |DpTail| ensures if DpTail[t] == '.' then key[|oid| + t] != '\n' else key[|oid| + t] == DpTail[t] {
      assert key[|oid| + t] == DpTail[t];
    }
  }

  lemma BakOnlyTail()
    ensures forall k: nat :: 2 <= k && TailAt("ab/datapackage.json.bak", k) ==> k == 2
  {
    var key := "ab/datapackage.json.bak";
    forall k: nat | 2 <= k && TailAt(key, k) ensures k == 2 {
      assert key[k + 0] == DpTail[0];
    }
  }

  lemma BakPrefix()
    ensures "ab/datapackage.json.bak"[..2] == "ab"
  {
  }

  /** The group needs at least one character. */
  lemma EmptyIdSkipped()
    ensures Oid("/datapackage.json").None?
  {
    var key := "/datapackage.json";
    forall k: nat ensures !GroupEndsAt(key, k) {
      if 1 <= k <= |key| {
        assert k + |DpTail| > |key|;
      }
    }
  }

  lemma {:induction false} VisitedMembers(keys: seq<string>, o: string)
    ensures o in Visited(keys) <==> exists k :: k in keys && Oid(k) == Some(o)
  {
    if keys != [] {
      var init := keys[..|keys| - 1];
      VisitedMembers(init, o);
      assert keys == init + [keys[|keys| - 1]];
      if exists k :: k in keys && Oid(k) == Some(o) {
        var k :| k in keys && Oid(k) == Some(o);
        if k != keys[|keys| - 1] {
          assert k in init;
        }
      }
    }
  }

  /**
   * The sweep finishes exactly when no visited datapackage makes the script
   * raise; its output is then made of the visited ids' parts and nothing else;
   * when it stops, it stops at an id whose datapackage it raised on.
   */
  lemma {:induction false} CollectFacts<T>(oids: seq<string>, fetch: Fetcher, each: (string, Value) -> Option<seq<T>>)
    ensures Collect(oids, fetch, each).Ok? <==> forall o :: o in oids ==> !Raises(o, fetch, each)
    ensures Collect(oids, fetch, each).Ok? ==> forall t ::
      t in Collect(oids, fetch, each).value <==> exists o :: o in oids && !Raises(o, fetch, each) && t in Part(o, fetch, each)
    ensures Collect(oids, fetch, each).Err? ==>
      Collect(oids, fetch, each).error in oids && Raises(Collect(oids, fetch, each).error, fetch, each)
  {
    if oids != [] {
      var init := oids[..|oids| - 1];
      var last := oids[|oids| - 1];
      CollectFacts(init, fetch, each);
      assert oids == init + [last];
      assert forall o :: o in oids <==> o in init || o == last;
      if Collect(init, fetch, each).Ok? && !Raises(last, fetch, each) {
        CollectAppend(init, last, fetch, each);
        var out := Collect(init, fetch, each).value;
        assert forall t :: t in out + Part(last, fetch, each) <==> t in out || t in Part(last, fetch, each);
      }
    }
  }

  /** With nothing raising, the output is the ids' parts in order. */
  lemma {:induction false} CollectAppend<T>(oids: seq<string>, o: string, fetch: Fetcher, each: (string, Value) -> Option<seq<T>>)
    requires Collect(oids, fetch, each).Ok? && !Raises(o, fetch, each)
    ensures Collect(oids + [o], fetch, each) == Ok(Collect(oids, fetch, each).value + Part(o, fetch, each))
  {
    assert (oids + [o])[..|oids|] == oids;
    if fetch(DpKey(o)).None? {
      assert Collect(oids, fetch, each).value + [] == Collect(oids, fetch, each).value;
    }
  }
}
