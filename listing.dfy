/**
 * The `while isTruncated` pagination loop over list_objects_v2 that the
 * DynamoDB loaders share. The loop runs until a response is not truncated;
 * the model cuts it after `fuel` requests so that it always ends, and says
 * whether the listing finished, raised or was cut.
 */
module S3Listing {
  import opened Wrappers

  /**
   * A list_objects_v2 response: its flags and tokens and the keys of its
   * "Contents". S3 leaves "Contents" out of a response without keys, so an
   * empty `keys` stands for a response where `response["Contents"]` raises.
   */
  datatype ListResponse = ListResponse(isTruncated: bool, continuationToken: Option<string>,
                                       nextContinuationToken: Option<string>, keys: seq<string>)

  /** How a listing loop ended: past its last page, on a KeyError, or cut by the model's bound. */
  datatype Ending = Listed | Raised | Cut

  /** The bucket's answer to a request carrying this continuation token (None: no token). */
  type Lister = Option<string> -> ListResponse

  /** The token the next request carries: `if continuationToken:` sends none for a missing or empty one. */
  function Request(token: Option<string>): (r: Option<string>)
    ensures r.Some? <==> token.Some? && token.value != ""
    ensures r.Some? ==> r == token
  {
    if token.Some? && token.value != "" then token else None
  }

  /** `response.get("ContinuationToken", None)`: the token the request carried, echoed back. */
  function EchoedToken(response: ListResponse): Option<string> { response.continuationToken }

  /** `response.get("NextContinuationToken", None)`: the token of the next page. */
  function NextToken(response: ListResponse): Option<string> { response.nextContinuationToken }

  /**
   * The keys the loop sees over at most `fuel` requests, starting from
   * `token`, and how it ended: a page without "Contents" raises.
   */
  function Listing(list: Lister, pick: ListResponse -> Option<string>, token: Option<string>, fuel: nat)
    : (r: (seq<string>, Ending))
    ensures fuel > 0 && list(Request(token)).keys == [] ==> r.1 == Raised
    ensures r.1 == Listed ==> fuel > 0
    decreases fuel
  {
    if fuel == 0 then ([], Cut)
    else
      var response := list(Request(token));
      if response.keys == [] then ([], Raised)
      else if !response.isTruncated then (response.keys, Listed)
      else
        var rest := Listing(list, pick, pick(response), fuel - 1);
        (response.keys + rest.0, rest.1)
  }

  /** The pagination loop; `pick` reads the next token off a response. */
  method ListAll(list: Lister, pick: ListResponse -> Option<string>, fuel: nat) returns (keys: seq<string>, ending: Ending)
    ensures (keys, ending) == Listing(list, pick, None, fuel)
  {
    var isTruncated := true;
    var token: Option<string> := None;
    keys := [];
    var n := 0;
    assert [] + Listing(list, pick, None, fuel).0 == Listing(list, pick, None, fuel).0;
    while isTruncated && n < fuel
      invariant n <= fuel
      invariant isTruncated ==> (
        var rest := Listing(list, pick, token, fuel - n);
        Listing(list, pick, None, fuel) == (keys + rest.0, rest.1))
      invariant !isTruncated ==> Listing(list, pick, None, fuel) == (keys, Listed)
      decreases fuel - n
    {
      var response := list(Request(token));
      if response.keys == [] {
        assert keys + [] == keys;
        return keys, Raised;
      }
      isTruncated := response.isTruncated;
      token := pick(response);
      assert keys + response.keys + Listing(list, pick, token, fuel - n - 1).0
        == keys + (response.keys + Listing(list, pick, token, fuel - n - 1).0);
      keys := keys + response.keys;
      n := n + 1;
    }
    if isTruncated {
      assert keys + [] == keys;
      ending := Cut;
    } else {
      ending := Listed;
    }
  }
}

module S3ListingFacts {
  import opened Wrappers
  import opened S3Listing

  /**
   * The bucket lists `pages`: the first answers a request without a token,
   * each truncated page names a non-empty token that fetches the next, and
   * only the last is not truncated. Every page has "Contents". As S3 does,
   * a response echoes the token of its request, so the first echoes none.
   */
  ghost predicate Serves(list: Lister, pages: seq<ListResponse>)
  {
    |pages| > 0 && list(None) == pages[0] && pages[0].continuationToken.None?
    && !pages[|pages| - 1].isTruncated
    && (forall i :: 0 <= i < |pages| ==> pages[i].keys != [])
    && forall i :: 0 <= i < |pages| - 1 ==>
      pages[i].isTruncated && pages[i].nextContinuationToken.Some? && pages[i].nextContinuationToken.value != ""
      && list(pages[i].nextContinuationToken) == pages[i + 1]
  }

  function AllKeys(pages: seq<ListResponse>): seq<string>
  {
    if pages == [] then [] else pages[0].keys + AllKeys(pages[1..])
  }

  lemma {:induction false} ListFrom(list: Lister, pages: seq<ListResponse>, i: nat, token: Option<string>, fuel: nat)
    requires Serves(list, pages) && i < |pages|
    requires list(Request(token)) == pages[i]
    requires fuel >= |pages| - i
    ensures Listing(list, NextToken, token, fuel) == (AllKeys(pages[i..]), Listed)
    decreases |pages| - i
  {
    assert pages[i..][1..] == pages[i + 1..];
    if i < |pages| - 1 {
      assert pages[i].isTruncated && pages[i].nextContinuationToken.Some? && pages[i].nextContinuationToken.value != "";
      assert list(Request(pages[i].nextContinuationToken)) == pages[i + 1];
      ListFrom(list, pages, i + 1, pages[i].nextContinuationToken, fuel - 1);
      assert AllKeys(pages[i..]) == pages[i].keys + AllKeys(pages[i + 1..]);
    } else {
      assert pages[i + 1..] == [];
      assert AllKeys(pages[i..]) == pages[i].keys + AllKeys([]);
      assert pages[i].keys + [] == pages[i].keys;
    }
  }

  /** Following NextContinuationToken, enough requests list every page's keys, in order, and end. */
  lemma NextListsAll(list: Lister, pages: seq<ListResponse>, fuel: nat)
    requires Serves(list, pages) && fuel >= |pages|
    ensures Listing(list, NextToken, None, fuel) == (AllKeys(pages), Listed)
  {
    ListFrom(list, pages, 0, None, fuel);
    assert pages[0..] == pages;
  }

  function Repeat(keys: seq<string>, n: nat): seq<string>
  {
    if n == 0 then [] else keys + Repeat(keys, n - 1)
  }

  /**
   * Following the echoed ContinuationToken, a truncated first page is asked
   * for again and again without a token: the loop never ends, and every
   * request adds the first page's keys once more.
   */
  lemma {:induction false} EchoedLoops(list: Lister, fuel: nat)
    requires list(None).isTruncated && list(None).continuationToken.None? && list(None).keys != []
    ensures Listing(list, EchoedToken, None, fuel) == (Repeat(list(None).keys, fuel), Cut)
  {
    if fuel > 0 {
      EchoedLoops(list, fuel - 1);
    }
  }

  /** A bucket of two pages that the echoed-token loop never finishes listing. */
  lemma EchoedNeverEnds(list: Lister, pages: seq<ListResponse>, fuel: nat)
    requires Serves(list, pages) && |pages| > 1
    ensures Listing(list, EchoedToken, None, fuel).1 == Cut
  {
    EchoedLoops(list, fuel);
  }
}
