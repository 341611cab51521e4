/**
 * FNV-1a, 32-bit, over bytes, and the UTF-8 encoding of text, as the
 * submission index loader uses them to make its Updated keys unique.
 */
module Fnv {
  /** 32-bit words: their arithmetic wraps around modulo 2^32, as FNV-1a's does. */
  const OffsetBasis: bv32 := 0x811c9dc5
  const Prime: bv32 := 0x01000193

  /** One step: xor the byte in, then multiply by the prime modulo 2^32. */
  function Mix(h: bv32, b: nat): bv32
    requires b < 256
  {
    (h ^ (b as bv32)) * Prime
  }

  predicate Bytes(bs: seq<nat>) { forall i :: 0 <= i < |bs| ==> bs[i] < 256 }

  /** FNV-1a 32 as the IETF FNV draft (draft-eastlake-fnv) defines it. */
  function Fnv1a32(bs: seq<nat>): bv32
    requires Bytes(bs)
  {
    if bs == [] then OffsetBasis else Mix(Fnv1a32(bs[..|bs| - 1]), bs[|bs| - 1])
  }

  /** The hash of a text's UTF-8 bytes, as a number. */
  function TextHash(s: string): (h: nat)
    ensures h < 0x1_0000_0000
  {
    Fnv1a32(Utf8(s)) as nat
  }

  /** The UTF-8 encoding of one character. */
  function Utf8Char(c: char): (r: seq<nat>)
    ensures 1 <= |r| <= 4 && Bytes(r)
    ensures c as int < 0x80 ==> r == [c as int]
  {
    var n := c as int;
    if n < 0x80 then [n]
    else if n < 0x800 then [0xC0 + n / 64, 0x80 + n % 64]
    else if n < 0x10000 then [0xE0 + n / 4096, 0x80 + (n / 64) % 64, 0x80 + n % 64]
    else [0xF0 + n / 262144, 0x80 + (n / 4096) % 64, 0x80 + (n / 64) % 64, 0x80 + n % 64]
  }

  /** `bytes(s, encoding="utf-8")`. */
  function Utf8(s: string): (r: seq<nat>)
    ensures Bytes(r)
  {
    if s == [] then [] else Utf8(s[..|s| - 1]) + Utf8Char(s[|s| - 1])
  }
}

/**
 * The loader of the submission (and project) index table: list the bucket,
 * keep the `<id>/datapackage.json` keys, and put one row per datapackage
 * that is not deleted.
 */
module SubmissionIndex {
  import opened Wrappers
  import opened Json
  import opened Text
  import opened S3Listing
  import opened Fnv
  import SubmissionBucket

  /** `[a-zA-z0-9]`: the `A-z` range also takes `[ \ ] ^ _` and the backtick. */
  predicate InClass(c: char)
  {
    'a' <= c <= 'z' || 'A' <= c <= 'z' || '0' <= c <= '9'
  }

  /**
   * The pattern `^[a-zA-z0-9]*` then `/datapackage.json$` matches `key` with the class run ending
   * at `j`; `$` also matches right before a final newline.
   */
  predicate MatchesAt(key: string, j: nat)
  {
    j <= |key| && (forall t :: 0 <= t < j ==> InClass(key[t])) && SubmissionBucket.TailAt(key, j)
    && (|key| == j + |SubmissionBucket.DpTail| || (|key| == j + |SubmissionBucket.DpTail| + 1 && key[|key| - 1] == '\n'))
  }

  function ClassRun(key: string): (r: nat)
    ensures r <= |key|
    ensures forall t :: 0 <= t < r ==> InClass(key[t])
    ensures r < |key| ==> !InClass(key[r])
  {
    if key == [] || !InClass(key[0]) then 0 else 1 + ClassRun(key[1..])
  }

  /** `p.match(key)`. */
  function IsDpKey(key: string): (r: bool)
    ensures r <==> exists j: nat :: MatchesAt(key, j)
  {
    var n := ClassRun(key);
    assert forall j: nat :: MatchesAt(key, j) ==> j == n by {
      forall j: nat | MatchesAt(key, j) ensures j == n {
        assert SubmissionBucket.DpTail[0] == '/';
        assert key[j + 0] == '/';
      }
    }
    var b := SubmissionBucket.TailAt(key, n) && (|key| == n + |SubmissionBucket.DpTail| || (|key| == n + |SubmissionBucket.DpTail| + 1 && key[|key| - 1] == '\n'));
    assert b ==> MatchesAt(key, n);
    b
  }

  /** The keys the listing loop keeps, in listing order. */
  function DpKeys(keys: seq<string>): seq<string>
  {
    if keys == [] then []
    else DpKeys(keys[..|keys| - 1]) + (if IsDpKey(keys[|keys| - 1]) then [keys[|keys| - 1]] else [])
  }

  /** `key[: -1 * len("/datapackage.json")]`, which is empty for a shorter key. */
  function ObjectIdOf(key: string): string
  {
    if |key| >= |SubmissionBucket.DpTail| then key[..|key| - |SubmissionBucket.DpTail|] else ""
  }

  /** `int(updatedDate.timestamp())` for an instant in microseconds since the epoch: it truncates toward zero. */
  function Seconds(micros: int): int
  {
    if micros >= 0 then micros / 1000000 else -((-micros) / 1000000)
  }

  /** The Updated number: the epoch seconds, a dot, and the decimal FNV-1a hash of the object id. */
  function UpdatedKey(seconds: int, objectId: string): string
  {
    IntToString(seconds) + "." + NatToString(TextHash(objectId))
  }

  /** `dp.get("bcodmo:", {})`. */
  function Meta(dp: Value): Value { Get(dp, "bcodmo:", Obj([])) }

  /** Both `.get` calls find a dict: the datapackage and its "bcodmo:" value; elsewhere Python raises. */
  predicate Readable(dp: Value) { dp.Obj? && Meta(dp).Obj? }

  predicate Deleted(dp: Value) { Truthy(Get(Meta(dp), "deleted", Bool(false))) }

  function StateOf(dp: Value): Value { Get(Meta(dp), "state", Str("")) }

  /** A row of the index table. */
  datatype DpRow = DpRow(objectType: string, updated: string, state: Value, objectId: string)

  /**
   * Where the script raises: a datapackage or "bcodmo:" value that is not a
   * dict, "updated" missing or empty, or a value isoparse rejects.
   */
  datatype Failure = NotAnObject(key: string) | UpdatedNotFound(key: string) | Unparsable(key: string)

  /** The parsed datapackage under a key. */
  type Fetch = string -> Value
  /** `dateutil.parser.isoparse`, in microseconds since the epoch; None where it raises. */
  type IsoParse = Value -> Option<int>

  /** The effect of one kept key on the rows so far. */
  function RowStep(rows: seq<DpRow>, key: string, fetch: Fetch, parse: IsoParse, objectType: string)
    : Result<seq<DpRow>, Failure>
  {
    var dp := fetch(key);
    if !Readable(dp) then Err(NotAnObject(key))
    else if Deleted(dp) then Ok(rows)
    else
      var updated := Get(dp, "updated", Str(""));
      if !Truthy(updated) then Err(UpdatedNotFound(key))
      else match parse(updated)
        case None => Err(Unparsable(key))
        case Some(micros) =>
          var objectId := ObjectIdOf(key);
          Ok(rows + [DpRow(objectType, UpdatedKey(Seconds(micros), objectId), StateOf(dp), objectId)])
  }

  /** The rows of the kept keys, or the first failure. */
  function Rows(keys: seq<string>, fetch: Fetch, parse: IsoParse, objectType: string): Result<seq<DpRow>, Failure>
  {
    if keys == [] then Ok([])
    else match Rows(keys[..|keys| - 1], fetch, parse, objectType)
      case Err(e) => Err(e)
      case Ok(rows) => RowStep(rows, keys[|keys| - 1], fetch, parse, objectType)
  }

  lemma {:induction false} RowsStopAt(keys: seq<string>, fetch: Fetch, parse: IsoParse, objectType: string, i: nat)
    requires i <= |keys| && Rows(keys[..i], fetch, parse, objectType).Err?
    ensures Rows(keys, fetch, parse, objectType) == Rows(keys[..i], fetch, parse, objectType)
    decreases |keys| - i
  {
    if i < |keys| {
      assert keys[..i + 1][..i] == keys[..i];
      RowsStopAt(keys, fetch, parse, objectType, i + 1);
    } else {
      assert keys[..i] == keys;
    }
  }

  /** The `toBeAdded` loop. */
  method BuildRows(allDps: seq<string>, fetch: Fetch, parse: IsoParse, objectType: string)
    returns (r: Result<seq<DpRow>, Failure>)
    ensures r == Rows(allDps, fetch, parse, objectType)
  {
    var toBeAdded: seq<DpRow> := [];
    for i := 0 to |allDps|
      invariant Rows(allDps[..i], fetch, parse, objectType) == Ok(toBeAdded)
    {
      assert allDps[..i + 1][..i] == allDps[..i];
      var key := allDps[i];
      var dp := fetch(key);
      if !Readable(dp) {
        RowsStopAt(allDps, fetch, parse, objectType, i + 1);
        return Err(NotAnObject(key));
      }
      if !Deleted(dp) {
        var state := StateOf(dp);
        var objectId := ObjectIdOf(key);
        var updatedStr := Get(dp, "updated", Str(""));
        if !Truthy(updatedStr) {
          RowsStopAt(allDps, fetch, parse, objectType, i + 1);
          return Err(UpdatedNotFound(key));
        }
        var updatedDate := parse(updatedStr);
        if updatedDate.None? {
          RowsStopAt(allDps, fetch, parse, objectType, i + 1);
          return Err(Unparsable(key));
        }
        var updated := IntToString(Seconds(updatedDate.value)) + "." + NatToString(TextHash(objectId));
        toBeAdded := toBeAdded + [DpRow(objectType, updated, state, objectId)];
      }
    }
    assert allDps[..|allDps|] == allDps;
    return Ok(toBeAdded);
  }

  /**
   * The script's end: the listing never finishes, a page without "Contents"
   * raises, a datapackage raises, or it puts these rows.
   */
  datatype Outcome = Unfinished | NoContents | Stopped(failure: Failure) | Put(rows: seq<DpRow>)

  function Load(listed: (seq<string>, Ending), fetch: Fetch, parse: IsoParse, objectType: string): Outcome
  {
    if listed.1 == Cut then Unfinished
    else if listed.1 == Raised then NoContents
    else match Rows(DpKeys(listed.0), fetch, parse, objectType)
      case Err(e) => Stopped(e)
      case Ok(rows) => Put(rows)
  }

  /**
   * put_dps, with its listing loop cut after `fuel` requests. As written it
   * follows the echoed ContinuationToken.
   */
  method PutDps(list: Lister, fuel: nat, fetch: Fetch, parse: IsoParse, objectType: string) returns (o: Outcome)
    ensures o == Load(Listing(list, EchoedToken, None, fuel), fetch, parse, objectType)
  {
    var keys, ending := ListAll(list, EchoedToken, fuel);
    if ending == Cut {
      return Unfinished;
    }
    if ending == Raised {
      return NoContents;
    }
    var allDps: seq<string> := [];
    for i := 0 to |keys|
      invariant allDps == DpKeys(keys[..i])
    {
      assert keys[..i + 1][..i] == keys[..i];
      if IsDpKey(keys[i]) {
        allDps := allDps + [keys[i]];
      }
    }
    assert keys[..|keys|] == keys;
    var r := BuildRows(allDps, fetch, parse, objectType);
    if r.Err? {
      return Stopped(r.error);
    }
    return Put(r.value);
  }
}

module SubmissionIndexFacts {
  import opened Wrappers
  import opened Json
  import opened Text
  import opened S3Listing
  import opened S3ListingFacts
  import SubmissionBucket
  import opened Fnv
  import opened SubmissionIndex

  /** Test vectors of the FNV draft for FNV-1a 32. */
  lemma FnvVectors()
    ensures Fnv1a32(Utf8("")) == 0x811c9dc5
    ensures Fnv1a32(Utf8("a")) == 0xe40c292c
  {
    assert Utf8("a") == [0x61];
    assert [0x61][..0] == [];
    assert Mix(0x811c9dc5, 0x61) == 0xe40c292c;
  }

  /** On ASCII text UTF-8 is the identity: one byte per character, its code. */
  lemma {:induction false} Utf8Ascii(s: string)
    requires forall i :: 0 <= i < |s| ==> s[i] as int < 0x80
    ensures Utf8(s) == seq(|s|, i requires 0 <= i < |s| => s[i] as int)
  {
    if s != [] {
      Utf8Ascii(s[..|s| - 1]);
    }
  }

  lemma FnvFoobar()
    ensures Fnv1a32(Utf8("foobar")) == 0xbf9cf968
  {
    Utf8Ascii("foobar");
    assert Utf8("foobar") == [0x66, 0x6f, 0x6f, 0x62, 0x61, 0x72];
    FnvSteps([0x66, 0x6f, 0x6f, 0x62, 0x61, 0x72]);
  }

  lemma FnvSteps(bs: seq<nat>)
    requires bs == [0x66, 0x6f, 0x6f, 0x62, 0x61, 0x72]
    ensures Fnv1a32(bs) == 0xbf9cf968
  {
    FnvFoo(bs[..3]);
    var h4 := Mix(0xa9f37ed7, 0x62);
    assert h4 == 0x3f5076ef;
    var h5 := Mix(0x3f5076ef, 0x61);
    assert h5 == 0x39aaa18a;
    var h6 := Mix(0x39aaa18a, 0x72);
    assert h6 == 0xbf9cf968;
    assert bs[..4][..3] == bs[..3];
    assert Fnv1a32(bs[..4]) == h4;
    assert bs[..5][..4] == bs[..4];
    assert Fnv1a32(bs[..5]) == h5;
    assert bs[..5] == bs[..|bs| - 1];
  }

  lemma FnvFoo(bs: seq<nat>)
    requires bs == [0x66, 0x6f, 0x6f]
    ensures Fnv1a32(bs) == 0xa9f37ed7
  {
    var h1 := Mix(OffsetBasis, 0x66);
    assert h1 == 0xe30c2799;
    var h2 := Mix(0xe30c2799, 0x6f);
    assert h2 == 0x6222e842;
    var h3 := Mix(0x6222e842, 0x6f);
    assert h3 == 0xa9f37ed7;
    assert bs[..1][..0] == [];
    assert Fnv1a32(bs[..1]) == h1;
    assert bs[..2][..1] == bs[..1];
    assert Fnv1a32(bs[..2]) == h2;
    assert bs[..2] == bs[..|bs| - 1];
  }

  /** `str` of an integer never holds a dot, and reads back as the integer. */
  lemma IntToStringFacts(i: int)
    ensures forall k :: 0 <= k < |IntToString(i)| ==> IntToString(i)[k] != '.'
    ensures i < 0 ==> IntToString(i)[0] == '-' && IntToString(i)[1..] == NatToString(-i)
    ensures i >= 0 ==> IntToString(i) == NatToString(i) && IsDigit(IntToString(i)[0])
  {
    if i < 0 {
      assert IntToString(i)[1..] == NatToString(-i);
    }
  }

  lemma IntToStringInjective(a: int, b: int)
    requires IntToString(a) == IntToString(b)
    ensures a == b
  {
    IntToStringFacts(a);
    IntToStringFacts(b);
    if a < 0 && b < 0 {
      DigitsRoundTrip(-a);
      DigitsRoundTrip(-b);
    } else if a >= 0 && b >= 0 {
      DigitsRoundTrip(a);
      DigitsRoundTrip(b);
    }
  }

  /**
   * An Updated value splits at its first dot into the seconds and the
   * decimal hash of the object id.
   */
  lemma UpdatedReadsBack(seconds: int, objectId: string)
    ensures var u := UpdatedKey(seconds, objectId); var n := |IntToString(seconds)|;
      n < |u| && u[n] == '.' && (forall k :: 0 <= k < n ==> u[k] != '.')
      && u[..n] == IntToString(seconds)
      && (forall k :: n < k < |u| ==> IsDigit(u[k]))
      && DigitsValue(u[n + 1..]) == TextHash(objectId)
  {
    var u := UpdatedKey(seconds, objectId);
    var n := |IntToString(seconds)|;
    var h := TextHash(objectId);
    IntToStringFacts(seconds);
    assert u[n + 1..] == NatToString(h);
    DigitsRoundTrip(h);
  }

  /** Two equal Updated values carry the same seconds and the same hash. */
  lemma UpdatedKeyDecodes(s1: int, id1: string, s2: int, id2: string)
    requires UpdatedKey(s1, id1) == UpdatedKey(s2, id2)
    ensures s1 == s2 && TextHash(id1) == TextHash(id2)
  {
    var u := UpdatedKey(s1, id1);
    UpdatedReadsBack(s1, id1);
    UpdatedReadsBack(s2, id2);
    var n1, n2 := |IntToString(s1)|, |IntToString(s2)|;
    assert n1 == n2;
    assert IntToString(s1) == u[..n1] == IntToString(s2);
    IntToStringInjective(s1, s2);
    assert TextHash(id1) == DigitsValue(u[n1 + 1..]) == TextHash(id2);
  }

  /** The `A-z` range lets an underscore through. */
  lemma UnderscoreAdmitted()
    ensures IsDpKey("a_b/datapackage.json")
  {
    var key := "a_b/datapackage.json";
    assert key == "a_b" + SubmissionBucket.DpTail;
    assert MatchesAt(key, 3);
  }

  /** A dash is outside the class, so the key is not listed. */
  lemma DashRejected()
    ensures !IsDpKey("a-b/datapackage.json")
  {
    var key := "a-b/datapackage.json";
    assert key[0] == 'a' && key[1] == '-';
    assert ClassRun(key) == 1;
    assert !SubmissionBucket.TailAt(key, 1) by {
      assert SubmissionBucket.DpTail[0] == '/';
    }
  }

  /**
   * The object id of a listed key is the class run before the tail; when
   * `$` matched before a final newline, it keeps the slash of the tail.
   */
  lemma ObjectIdOfListed(key: string, j: nat)
    requires MatchesAt(key, j)
    ensures |key| == j + |SubmissionBucket.DpTail| ==> ObjectIdOf(key) == key[..j]
    ensures |key| == j + |SubmissionBucket.DpTail| + 1 ==> ObjectIdOf(key) == key[..j] + "/"
  {
    assert SubmissionBucket.DpTail[0] == '/';
    assert key[j + 0] == '/';
    if |key| == j + |SubmissionBucket.DpTail| + 1 {
      assert key[..j + 1] == key[..j] + [key[j]];
    }
  }

  /** The listing loop keeps exactly the listed keys that match, in order. */
  lemma {:induction false} DpKeysMembers(keys: seq<string>)
    ensures forall k :: k in DpKeys(keys) <==> k in keys && IsDpKey(k)
  {
    if keys != [] {
      var init := keys[..|keys| - 1];
      DpKeysMembers(init);
      assert keys == init + [keys[|keys| - 1]];
    }
  }

  /** The kept keys not skipped as readable and deleted: one row each. */
  function Live(keys: seq<string>, fetch: Fetch): seq<string>
  {
    if keys == [] then []
    else
      var dp := fetch(keys[|keys| - 1]);
      Live(keys[..|keys| - 1], fetch) + (if Readable(dp) && Deleted(dp) then [] else [keys[|keys| - 1]])
  }

  /** A live key the script can date: a readable datapackage, a truthy "updated" that isoparse accepts. */
  predicate Dated(key: string, fetch: Fetch, parse: IsoParse)
  {
    var updated := Get(fetch(key), "updated", Str(""));
    Readable(fetch(key)) && Truthy(updated) && parse(updated).Some?
  }

  /**
   * Without a failure there is one row per live key, in order, carrying
   * the key's object id, state and type; a failure names a live key that
   * cannot be dated, and it comes only where one exists.
   */
  lemma {:induction false} RowsFacts(keys: seq<string>, fetch: Fetch, parse: IsoParse, objectType: string)
    ensures Rows(keys, fetch, parse, objectType).Ok? <==> forall k :: k in Live(keys, fetch) ==> Dated(k, fetch, parse)
    ensures Rows(keys, fetch, parse, objectType).Ok? ==>
      var rows := Rows(keys, fetch, parse, objectType).value;
      var live := Live(keys, fetch);
      |rows| == |live|
      && forall i :: 0 <= i < |rows| ==>
        rows[i].objectId == ObjectIdOf(live[i]) && rows[i].state == StateOf(fetch(live[i]))
        && rows[i].objectType == objectType
    ensures Rows(keys, fetch, parse, objectType).Err? ==>
      var e := Rows(keys, fetch, parse, objectType).error;
      e.key in Live(keys, fetch) && !Dated(e.key, fetch, parse)
      && (e.NotAnObject? <==> !Readable(fetch(e.key)))
      && (e.UpdatedNotFound? <==> Readable(fetch(e.key)) && !Truthy(Get(fetch(e.key), "updated", Str(""))))
  {
    if keys != [] {
      var init := keys[..|keys| - 1];
      var key := keys[|keys| - 1];
      RowsFacts(init, fetch, parse, objectType);
      var live := Live(init, fetch);
      if Rows(init, fetch, parse, objectType).Ok? && !(Readable(fetch(key)) && Deleted(fetch(key))) {
        assert Live(keys, fetch) == live + [key];
        if Dated(key, fetch, parse) {
          var rows := Rows(init, fetch, parse, objectType).value;
          assert Rows(keys, fetch, parse, objectType).value[..|rows|] == rows;
        }
      }
    }
  }

  /**
   * Over a bucket of more than one page the loader never puts anything: its
   * listing does not finish. Following NextContinuationToken instead, it
   * loads the rows of every listed key.
   */
  lemma PutDpsNeverLoads(list: Lister, pages: seq<ListResponse>, fuel: nat, fetch: Fetch, parse: IsoParse, objectType: string)
    requires Serves(list, pages) && |pages| > 1
    ensures Load(Listing(list, EchoedToken, None, fuel), fetch, parse, objectType) == Unfinished
    ensures fuel >= |pages| ==>
      Load(Listing(list, NextToken, None, fuel), fetch, parse, objectType)
      == Load((AllKeys(pages), Listed), fetch, parse, objectType)
  {
    EchoedNeverEnds(list, pages, fuel);
    if fuel >= |pages| {
      NextListsAll(list, pages, fuel);
    }
  }
}
