/**
 * The loader of the permissions table: every object of the permissions
 * bucket is named by an ORCID and holds a JSON list of grants; each grant
 * becomes one row (Orcid, ObjectId, ObjectType, ObjectPermission).
 */
module SubmissionPermissions {
  import opened Wrappers
  import opened Json
  import opened S3Listing

  /** One grant read from an object: `{"orcid", "object_id", "object_type", "object_permission"}`. */
  datatype Permission = Permission(orcid: string, objectId: Value, objectType: Value, permission: Value)

  /**
   * Where the script raises: the object's JSON cannot be looped over, or one
   * of its elements is not a dict holding "id", "type" and "permission".
   */
  datatype Failure = NotIterable(key: string) | BadGrant(key: string)

  /** `json.load` of the object under a key. */
  type Fetch = string -> Value

  /** The grant of one element, if `item["id"]`, `item["type"]` and `item["permission"]` all succeed. */
  function Grant(key: string, item: Value): Option<Permission>
  {
    if Has(item, "id") && Has(item, "type") && Has(item, "permission")
    then Some(Permission(key, At(item, "id"), At(item, "type"), At(item, "permission")))
    else None
  }

  /** The grants of a list of elements, or None at the first bad one. */
  function Grants(key: string, items: seq<Value>): Option<seq<Permission>>
  {
    if items == [] then Some([])
    else match Grants(key, items[..|items| - 1])
      case None => None
      case Some(ps) =>
        match Grant(key, items[|items| - 1])
        case None => None
        case Some(p) => Some(ps + [p])
  }

  /** What one object adds: nothing for a JSON null, else one grant per element. */
  function ObjectGrants(key: string, js: Value): Result<seq<Permission>, Failure>
  {
    if js.Null? then Ok([])
    else match Elements(js)
      case None => Err(NotIterable(key))
      case Some(items) =>
        match Grants(key, items)
        case None => Err(BadGrant(key))
        case Some(ps) => Ok(ps)
  }

  /** Then both: the first failure, else the grants of the first followed by those of the second. */
  function Then(a: Result<seq<Permission>, Failure>, b: Result<seq<Permission>, Failure>): Result<seq<Permission>, Failure>
  {
    if a.Err? then a else if b.Err? then b else Ok(a.value + b.value)
  }

  /** The grants of the objects under `keys`, in order, or the first failure. */
  function Records(keys: seq<string>, fetch: Fetch): Result<seq<Permission>, Failure>
  {
    if keys == [] then Ok([])
    else Then(Records(keys[..|keys| - 1], fetch), ObjectGrants(keys[|keys| - 1], fetch(keys[|keys| - 1])))
  }

  /**
   * The script's end: the listing never finishes, a page without "Contents"
   * raises, an object raises, or it has gathered these grants.
   */
  datatype Outcome = Unfinished | NoContents | Stopped(failure: Failure) | Gathered(grants: seq<Permission>)

  /** `grants` gathered before whatever `o` goes on to do. */
  function After(grants: seq<Permission>, o: Outcome): Outcome
  {
    if o.Gathered? then Gathered(grants + o.grants) else o
  }

  /**
   * The listing loop with the objects of each page read before the next
   * page is requested, cut after `fuel` requests; it follows
   * NextContinuationToken. A page without "Contents" raises.
   */
  function Crawl(list: Lister, fetch: Fetch, token: Option<string>, fuel: nat): (o: Outcome)
    ensures fuel > 0 && list(Request(token)).keys == [] ==> o == NoContents
    decreases fuel
  {
    if fuel == 0 then Unfinished
    else
      var response := list(Request(token));
      if response.keys == [] then NoContents
      else match Records(response.keys, fetch)
      case Err(e) => Stopped(e)
      case Ok(ps) =>
        if !response.isTruncated then Gathered(ps)
        else After(ps, Crawl(list, fetch, NextToken(response), fuel - 1))
  }

  /** The `for obj in response["Contents"]` loop over one page. */
  method PageGrants(keys: seq<string>, fetch: Fetch) returns (r: Result<seq<Permission>, Failure>)
    ensures r == Records(keys, fetch)
  {
    var permissions: seq<Permission> := [];
    for i := 0 to |keys|
      invariant Records(keys[..i], fetch) == Ok(permissions)
    {
      assert keys[..i + 1][..i] == keys[..i];
      var grants := JsonGrants(keys[i], fetch(keys[i]));
      if grants.Err? {
        RecordsStopAt(keys, fetch, i + 1);
        return Err(grants.error);
      }
      permissions := permissions + grants.value;
    }
    assert keys[..|keys|] == keys;
    return Ok(permissions);
  }

  /** The body of that loop: `if js is not None: for item in js: ...`. */
  method JsonGrants(key: string, js: Value) returns (r: Result<seq<Permission>, Failure>)
    ensures r == ObjectGrants(key, js)
  {
    if js.Null? {
      return Ok([]);
    }
    var items := Elements(js);
    if items.None? {
      return Err(NotIterable(key));
    }
    var permissions: seq<Permission> := [];
    for j := 0 to |items.value|
      invariant Grants(key, items.value[..j]) == Some(permissions)
    {
      var item := items.value[j];
      assert items.value[..j + 1][..j] == items.value[..j];
      if !(Has(item, "id") && Has(item, "type") && Has(item, "permission")) {
        GrantsStopAt(key, items.value, j + 1);
        return Err(BadGrant(key));
      }
      permissions := permissions + [Permission(key, At(item, "id"), At(item, "type"), At(item, "permission"))];
    }
    assert items.value[..|items.value|] == items.value;
    return Ok(permissions);
  }

  lemma {:induction false} GrantsStopAt(key: string, items: seq<Value>, j: nat)
    requires j <= |items| && Grants(key, items[..j]).None?
    ensures Grants(key, items).None?
    decreases |items| - j
  {
    if j < |items| {
      assert items[..j + 1][..j] == items[..j];
      GrantsStopAt(key, items, j + 1);
    } else {
      assert items[..j] == items;
    }
  }

  lemma {:induction false} RecordsStopAt(keys: seq<string>, fetch: Fetch, i: nat)
    requires i <= |keys| && Records(keys[..i], fetch).Err?
    ensures Records(keys, fetch) == Records(keys[..i], fetch)
    decreases |keys| - i
  {
    if i < |keys| {
      assert keys[..i + 1][..i] == keys[..i];
      RecordsStopAt(keys, fetch, i + 1);
    } else {
      assert keys[..i] == keys;
    }
  }

  /** put_permissions up to its puts, with the listing cut after `fuel` requests. */
  method GatherPermissions(list: Lister, fetch: Fetch, fuel: nat) returns (o: Outcome)
    ensures o == Crawl(list, fetch, None, fuel)
  {
    var isTruncated := true;
    var token: Option<string> := None;
    var permissions: seq<Permission> := [];
    var n := 0;
    assert After([], Crawl(list, fetch, None, fuel)) == Crawl(list, fetch, None, fuel);
    while isTruncated && n < fuel
      invariant n <= fuel
      invariant isTruncated ==> Crawl(list, fetch, None, fuel) == After(permissions, Crawl(list, fetch, token, fuel - n))
      invariant !isTruncated ==> Crawl(list, fetch, None, fuel) == Gathered(permissions)
      decreases fuel - n
    {
      var response := list(Request(token));
      if response.keys == [] {
        return NoContents;
      }
      isTruncated := response.isTruncated;
      token := NextToken(response);
      var page := PageGrants(response.keys, fetch);
      if page.Err? {
        return Stopped(page.error);
      }
      AfterAfter(permissions, page.value, Crawl(list, fetch, token, fuel - n - 1));
      permissions := permissions + page.value;
      n := n + 1;
    }
    if isTruncated {
      return Unfinished;
    }
    return Gathered(permissions);
  }

  lemma AfterAfter(a: seq<Permission>, b: seq<Permission>, o: Outcome)
    ensures After(a, After(b, o)) == After(a + b, o)
  {
    if o.Gathered? {
      assert a + (b + o.grants) == a + b + o.grants;
    }
  }

  /** The DynamoDB item of a grant. */
  function Item(p: Permission): Value
  {
    Obj([("Orcid", Str(p.orcid)), ("ObjectId", p.objectId), ("ObjectType", p.objectType),
         ("ObjectPermission", p.permission)])
  }

  lemma ItemFields(p: Permission)
    ensures At(Item(p), "Orcid") == Str(p.orcid)
    ensures At(Item(p), "ObjectId") == p.objectId
    ensures At(Item(p), "ObjectType") == p.objectType
    ensures At(Item(p), "ObjectPermission") == p.permission
  {
    var e := Item(p).entries;
    assert e[0].0 == "Orcid" && e[1].0 == "ObjectId" && e[2].0 == "ObjectType" && e[3].0 == "ObjectPermission";
    assert Lookup(e, "ObjectId") == Lookup(e[1..], "ObjectId");
    assert Lookup(e, "ObjectType") == Lookup(e[1..], "ObjectType") == Lookup(e[2..], "ObjectType") by {
      assert e[1..][1..] == e[2..];
    }
    assert Lookup(e, "ObjectPermission") == Lookup(e[1..], "ObjectPermission")
      == Lookup(e[2..], "ObjectPermission") == Lookup(e[3..], "ObjectPermission") by {
      assert e[1..][1..] == e[2..];
      assert e[2..][1..] == e[3..];
    }
  }

  /** The `for p in permissions` loop: the items it puts, in order. */
  method PutPermissions(permissions: seq<Permission>) returns (puts: seq<Value>)
    ensures |puts| == |permissions|
    ensures forall i :: 0 <= i < |puts| ==>
      At(puts[i], "Orcid") == Str(permissions[i].orcid)
      && At(puts[i], "ObjectId") == permissions[i].objectId
      && At(puts[i], "ObjectType") == permissions[i].objectType
      && At(puts[i], "ObjectPermission") == permissions[i].permission
  {
    puts := [];
    for i := 0 to |permissions|
      invariant |puts| == i
      invariant forall k :: 0 <= k < i ==> puts[k] == Item(permissions[k])
    {
      puts := puts + [Item(permissions[i])];
    }
    forall i | 0 <= i < |puts| {
      ItemFields(permissions[i]);
    }
  }
}

module SubmissionPermissionsFacts {
  import opened Wrappers
  import opened Json
  import opened S3Listing
  import opened S3ListingFacts
  import opened SubmissionPermissions

  /** Each element of a list yields exactly one grant, named by the object's key. */
  lemma {:induction false} GrantsFacts(key: string, items: seq<Value>)
    ensures Grants(key, items).Some? <==> forall i :: 0 <= i < |items| ==> Grant(key, items[i]).Some?
    ensures Grants(key, items).Some? ==>
      var ps := Grants(key, items).value;
      |ps| == |items|
      && forall i :: 0 <= i < |items| ==>
        ps[i] == Permission(key, At(items[i], "id"), At(items[i], "type"), At(items[i], "permission"))
  {
    if items != [] {
      GrantsFacts(key, items[..|items| - 1]);
    }
  }

  /** A JSON null adds nothing; a list adds one grant per element. */
  lemma ObjectGrantsFacts(key: string, js: Value)
    ensures js.Null? ==> ObjectGrants(key, js) == Ok([])
    ensures js.Arr? && ObjectGrants(key, js).Ok? ==> |ObjectGrants(key, js).value| == |js.items|
    ensures ObjectGrants(key, js).Ok? ==>
      forall i :: 0 <= i < |ObjectGrants(key, js).value| ==> ObjectGrants(key, js).value[i].orcid == key
  {
    if !js.Null? && Elements(js).Some? {
      GrantsFacts(key, Elements(js).value);
    }
  }

  /** Records over two runs of keys are the records of each, in order. */
  lemma ThenAssociative(x: Result<seq<Permission>, Failure>, y: Result<seq<Permission>, Failure>, z: Result<seq<Permission>, Failure>)
    ensures Then(Then(x, y), z) == Then(x, Then(y, z))
  {
    if x.Ok? && y.Ok? && z.Ok? {
      assert x.value + y.value + z.value == x.value + (y.value + z.value);
    }
  }

  /** Records over two runs of keys are the records of each, in order. */
  lemma {:induction false} RecordsAppend(a: seq<string>, b: seq<string>, fetch: Fetch)
    ensures Records(a + b, fetch) == Then(Records(a, fetch), Records(b, fetch))
  {
    if b == [] {
      assert a + b == a;
      var r := Records(a, fetch);
      if r.Ok? {
        assert r.value + [] == r.value;
      }
    } else {
      var init := b[..|b| - 1];
      RecordsAppend(a, init, fetch);
      assert (a + b)[..|a + b| - 1] == a + init;
      assert (a + b)[|a + b| - 1] == b[|b| - 1];
      ThenAssociative(Records(a, fetch), Records(init, fetch), ObjectGrants(b[|b| - 1], fetch(b[|b| - 1])));
    }
  }

  lemma {:induction false} CrawlFrom(list: Lister, fetch: Fetch, pages: seq<ListResponse>, i: nat, token: Option<string>, fuel: nat)
    requires Serves(list, pages) && i < |pages|
    requires list(Request(token)) == pages[i]
    requires fuel >= |pages| - i
    ensures Crawl(list, fetch, token, fuel) == Finish(Records(AllKeys(pages[i..]), fetch))
    decreases |pages| - i
  {
    assert pages[i..][1..] == pages[i + 1..];
    assert AllKeys(pages[i..]) == pages[i].keys + AllKeys(pages[i + 1..]);
    RecordsAppend(pages[i].keys, AllKeys(pages[i + 1..]), fetch);
    if i < |pages| - 1 {
      assert pages[i].isTruncated && pages[i].nextContinuationToken.Some? && pages[i].nextContinuationToken.value != "";
      assert list(Request(pages[i].nextContinuationToken)) == pages[i + 1];
      CrawlFrom(list, fetch, pages, i + 1, pages[i].nextContinuationToken, fuel - 1);
    } else {
      assert pages[i + 1..] == [];
      assert pages[i].keys + [] == pages[i].keys;
      assert Records([], fetch) == Ok([]);
      var r := Records(pages[i].keys, fetch);
      if r.Ok? {
        assert r.value + [] == r.value;
      }
    }
  }

  /** A finished listing: the failure, or every grant gathered. */
  function Finish(r: Result<seq<Permission>, Failure>): Outcome
  {
    if r.Err? then Stopped(r.error) else Gathered(r.value)
  }

  /**
   * Over a bucket served in pages, enough requests read every object of
   * every page, in listing order: the outcome is that of reading all the
   * listed keys at once.
   */
  lemma CrawlAll(list: Lister, fetch: Fetch, pages: seq<ListResponse>, fuel: nat)
    requires Serves(list, pages) && fuel >= |pages|
    ensures Crawl(list, fetch, None, fuel) == Finish(Records(AllKeys(pages), fetch))
  {
    CrawlFrom(list, fetch, pages, 0, None, fuel);
    assert pages[0..] == pages;
  }
}
