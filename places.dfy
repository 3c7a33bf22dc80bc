/**
 * The paginated text search of `getPlaces`: up to three requests, the first
 * built from the query and the place type, each later one from the previous
 * page's continuation token alone.  The pages' result lists are concatenated
 * in order.  The HTTP call and JSON parsing are an oracle `api` from request to
 * reply; the two-second sleep between rounds is a ghost count of waits.
 */
module Places {
  import opened JsValues

  datatype Coordinates = Coordinates(lat: JsValue, lng: JsValue)

  datatype Geometry = Geometry(location: Option<Coordinates>)

  /** One search result; a field missing from the response is `None` or `Undefined`. */
  datatype Place = Place(
    placeId: JsValue,
    name: JsValue,
    rating: JsValue,
    address: JsValue,
    geometry: Option<Geometry>,
    types: Option<seq<JsValue>>,
    ratingsTotal: JsValue)

  /** A request of the text search: the first page, or a later page named by its token. */
  datatype Request = TextSearch(query: string, placeType: string) | NextPage(token: string)

  /** A parsed response, or a failure of the HTTP call or of `JSON.parse` (which throws). */
  datatype Reply<T> = Failed | Parsed(body: T)

  datatype Page = Page(results: Option<seq<Place>>, nextPageToken: Option<string>)

  /** What `getPlaces` does: throw, return `false`, or return the list. */
  datatype SearchOutcome = SearchThrew | NoPlaces | Places(list: seq<Place>)

  const MAX_RESULTS: nat := 60
  const PAGE_SIZE: nat := 20

  /** `Math.round(maxResults / 20)`: the quotient rounded half up. */
  const ROUNDS: nat := (2 * MAX_RESULTS + PAGE_SIZE) / (2 * PAGE_SIZE)

  /** The reply parsed and carried a `results` list equal to `items`. */
  predicate Delivers(reply: Reply<Page>, items: seq<Place>)
  {
    reply.Parsed? && reply.body.results == Some(items)
  }

  /** The reply carried a continuation token, and `next` is the request built from it. */
  predicate Continues(reply: Reply<Page>, next: Request)
  {
    reply.Parsed? && reply.body.nextPageToken.Some? && next == NextPage(reply.body.nextPageToken.value)
  }

  /** A reply on which `getPlaces` throws: a failed call, or a page without `results`. */
  predicate Throws(reply: Reply<Page>)
  {
    reply.Failed? || reply.body.results.None?
  }

  /** The requests made, the result lists received, the waits and whether an error escaped. */
  datatype Walk = Walk(requests: seq<Request>, pages: seq<seq<Place>>, waits: nat, threw: bool)

  /** The rounds of the loop from request `req` on, with `left` rounds still allowed. */
  function WalkFrom(api: Request -> Reply<Page>, req: Request, left: nat): Walk
    decreases left
  {
    if left == 0 then Walk([], [], 0, false)
    else
      var reply := api(req);
      if Throws(reply) then Walk([req], [], 0, true)
      else if reply.body.nextPageToken.Some? then
        var rest := WalkFrom(api, NextPage(reply.body.nextPageToken.value), left - 1);
        Walk([req] + rest.requests, [reply.body.results.value] + rest.pages, 1 + rest.waits, rest.threw)
      else Walk([req], [reply.body.results.value], 0, false)
  }

  function Flatten(pages: seq<seq<Place>>): seq<Place>
  {
    if pages == [] then [] else pages[0] + Flatten(pages[1..])
  }

  function SearchWalk(api: Request -> Reply<Page>, query: string, placeType: string): Walk
  {
    WalkFrom(api, TextSearch(query, placeType), ROUNDS)
  }

  /** The outcome `getPlaces(query, placeType)` has against the oracle `api`. */
  function Search(api: Request -> Reply<Page>, query: string, placeType: string): SearchOutcome
  {
    var w := SearchWalk(api, query, placeType);
    if w.threw then SearchThrew
    else if |Flatten(w.pages)| > 0 then Places(Flatten(w.pages))
    else NoPlaces
  }

  lemma AppendAssoc<T>(a: seq<T>, b: seq<T>, c: seq<T>)
    ensures (a + b) + c == a + (b + c)
  {
  }

  /** The loop of `getPlaces`, with its accumulator and its URL cursor. */
  method GetPlaces(api: Request -> Reply<Page>, query: string, placeType: string)
      returns (r: SearchOutcome, ghost requests: seq<Request>, ghost waits: nat)
    ensures r == Search(api, query, placeType)
    ensures requests == SearchWalk(api, query, placeType).requests
    ensures waits == SearchWalk(api, query, placeType).waits
  {
    ghost var whole := SearchWalk(api, query, placeType);
    var url := TextSearch(query, placeType);
    var allResults: seq<Place> := [];
    requests, waits := [], 0;
    var i := 0;
    while i < ROUNDS
      invariant 0 <= i <= ROUNDS
      invariant i == 0 ==> allResults == [] && requests == [] && waits == 0 && url == TextSearch(query, placeType)
      invariant whole.requests == requests + WalkFrom(api, url, ROUNDS - i).requests
      invariant Flatten(whole.pages) == allResults + Flatten(WalkFrom(api, url, ROUNDS - i).pages)
      invariant whole.waits == waits + WalkFrom(api, url, ROUNDS - i).waits
      invariant whole.threw == WalkFrom(api, url, ROUNDS - i).threw
    {
      ghost var cur := WalkFrom(api, url, ROUNDS - i);
      WalkFromStep(api, url, ROUNDS - i);
      AppendAssoc(requests, [url], cur.requests[1..]);
      requests := requests + [url];
      var reply := api(url);
      if reply.Failed? || reply.body.results.None? {
        return SearchThrew, requests, waits;
      }
      var results := reply.body.results.value;
      ghost var before := allResults;
      if i == 0 {
        allResults := results;
      } else {
        allResults := allResults + results;
      }
      assert allResults == before + results;
      if reply.body.nextPageToken.Some? {
        url := NextPage(reply.body.nextPageToken.value);
        waits := waits + 1;
        ghost var rest := WalkFrom(api, url, ROUNDS - i - 1);
        AppendAssoc(before, results, Flatten(rest.pages));
      } else {
        break;
      }
      i := i + 1;
    }
    r := if |allResults| > 0 then Places(allResults) else NoPlaces;
  }

  /** One round of the loop, as the walk from the current request sees it. */
  lemma WalkFromStep(api: Request -> Reply<Page>, req: Request, left: nat)
    requires left > 0
    ensures var w, reply := WalkFrom(api, req, left), api(req);
      && (Throws(reply) ==> w.threw && w.requests == [req])
      && (!Throws(reply) && reply.body.nextPageToken.Some? ==>
            var rest := WalkFrom(api, NextPage(reply.body.nextPageToken.value), left - 1);
            && w.requests == [req] + rest.requests
            && Flatten(w.pages) == reply.body.results.value + Flatten(rest.pages)
            && w.waits == 1 + rest.waits
            && w.threw == rest.threw)
      && (!Throws(reply) && reply.body.nextPageToken.None? ==>
            && w.requests == [req]
            && Flatten(w.pages) == reply.body.results.value
            && w.waits == 0
            && !w.threw)
  {
    var reply := api(req);
    if !Throws(reply) {
      var w := WalkFrom(api, req, left);
      var results := reply.body.results.value;
      if reply.body.nextPageToken.Some? {
        var rest := WalkFrom(api, NextPage(reply.body.nextPageToken.value), left - 1);
        assert w.pages == [results] + rest.pages;
        assert w.pages[1..] == rest.pages;
      } else {
        assert w.pages == [results];
        assert Flatten(w.pages) == results + Flatten([]);
      }
    }
  }

  lemma {:induction false} WalkShape(api: Request -> Reply<Page>, req: Request, left: nat)
    ensures var w := WalkFrom(api, req, left);
      && |w.requests| <= left
      && (left > 0 ==> |w.requests| >= 1 && w.requests[0] == req)
      && |w.pages| + (if w.threw then 1 else 0) == |w.requests|
      && w.waits <= |w.requests|
      && (w.threw || |w.requests| < left ==> w.waits + 1 == |w.requests|)
      && (left > 0 ==> |w.requests| <= w.waits + 1)
    decreases left
  {
    if left > 0 {
      WalkWaits(api, req, left);
      var reply := api(req);
      if !Throws(reply) && reply.body.nextPageToken.Some? {
        WalkShape(api, NextPage(reply.body.nextPageToken.value), left - 1);
      }
    }
  }

  /**
   * Each request but the last was built from the token of the previous reply;
   * each result list is the `results` of its own reply, so pages are kept in
   * order, neither dropped nor reordered.
   */
  lemma WalkFollowsTokens(api: Request -> Reply<Page>, req: Request, left: nat)
    ensures var w := WalkFrom(api, req, left);
      && |w.pages| <= |w.requests|
      && (forall i :: 0 <= i < |w.pages| ==> Delivers(api(w.requests[i]), w.pages[i]))
      && (forall i :: 0 <= i < |w.requests| - 1 ==> Continues(api(w.requests[i]), w.requests[i + 1]))
  {
    WalkShape(api, req, left);
    WalkDelivers(api, req, left);
    WalkContinues(api, req, left);
  }

  lemma {:induction false} WalkDelivers(api: Request -> Reply<Page>, req: Request, left: nat)
    ensures var w := WalkFrom(api, req, left);
      |w.pages| <= |w.requests| &&
      forall i :: 0 <= i < |w.pages| ==> Delivers(api(w.requests[i]), w.pages[i])
    decreases left
  {
    if left > 0 {
      var reply := api(req);
      if !Throws(reply) && reply.body.nextPageToken.Some? {
        var next := NextPage(reply.body.nextPageToken.value);
        var rest := WalkFrom(api, next, left - 1);
        WalkDelivers(api, next, left - 1);
        var w := WalkFrom(api, req, left);
        assert w.requests == [req] + rest.requests && w.pages == [reply.body.results.value] + rest.pages;
        forall i | 0 < i < |w.pages|
          ensures Delivers(api(w.requests[i]), w.pages[i])
        {
          assert w.requests[i] == rest.requests[i - 1] && w.pages[i] == rest.pages[i - 1];
        }
      }
    }
  }

  lemma {:induction false} WalkContinues(api: Request -> Reply<Page>, req: Request, left: nat)
    ensures var w := WalkFrom(api, req, left);
      forall i :: 0 <= i < |w.requests| - 1 ==> Continues(api(w.requests[i]), w.requests[i + 1])
    decreases left
  {
    if left > 0 {
      var reply := api(req);
      if !Throws(reply) && reply.body.nextPageToken.Some? {
        var next := NextPage(reply.body.nextPageToken.value);
        var rest := WalkFrom(api, next, left - 1);
        WalkContinues(api, next, left - 1);
        WalkShape(api, next, left - 1);
        var w := WalkFrom(api, req, left);
        assert w.requests == [req] + rest.requests;
        forall i | 0 < i < |w.requests| - 1
          ensures Continues(api(w.requests[i]), w.requests[i + 1])
        {
          assert w.requests[i] == rest.requests[i - 1] && w.requests[i + 1] == rest.requests[i];
        }
      }
    }
  }

  /**
   * The loop ends at the first reply without a continuation token, at the
   * first reply it throws on, or when the rounds run out.
   */
  lemma {:induction false} WalkStops(api: Request -> Reply<Page>, req: Request, left: nat)
    requires left > 0
    ensures var w := WalkFrom(api, req, left);
      var last := api(w.requests[|w.requests| - 1]);
      && |w.requests| > 0
      && (w.threw <==> Throws(last))
      && (!w.threw && |w.requests| < left ==> last.body.nextPageToken.None?)
      && (!w.threw && last.body.nextPageToken.Some? ==> |w.requests| == left)
    decreases left
  {
    var reply := api(req);
    if !Throws(reply) && reply.body.nextPageToken.Some? && left > 1 {
      var next := NextPage(reply.body.nextPageToken.value);
      WalkStops(api, next, left - 1);
      var rest := WalkFrom(api, next, left - 1);
      var w := WalkFrom(api, req, left);
      assert w.requests[|w.requests| - 1] == rest.requests[|rest.requests| - 1];
    }
  }

  /**
   * One wait follows every reply that carries a continuation token, the
   * last reply included: when the third reply still has a token the loop
   * sleeps once more before it leaves, so the waits equal the requests.
   */
  lemma {:induction false} WalkWaits(api: Request -> Reply<Page>, req: Request, left: nat)
    requires left > 0
    ensures var w := WalkFrom(api, req, left);
      var last := api(w.requests[|w.requests| - 1]);
      && |w.requests| > 0
      && (w.waits == |w.requests| <==> !Throws(last) && last.body.nextPageToken.Some?)
      && (w.waits != |w.requests| ==> w.waits + 1 == |w.requests|)
    decreases left
  {
    var reply := api(req);
    if !Throws(reply) && reply.body.nextPageToken.Some? && left > 1 {
      var next := NextPage(reply.body.nextPageToken.value);
      WalkWaits(api, next, left - 1);
      var rest := WalkFrom(api, next, left - 1);
      var w := WalkFrom(api, req, left);
      assert w.requests == [req] + rest.requests && w.waits == 1 + rest.waits;
      assert w.requests[|w.requests| - 1] == rest.requests[|rest.requests| - 1];
    }
  }

  lemma {:induction false} FlattenEmpty(pages: seq<seq<Place>>)
    ensures Flatten(pages) == [] <==> forall i :: 0 <= i < |pages| ==> pages[i] == []
  {
    if pages != [] {
      FlattenEmpty(pages[1..]);
      assert forall i :: 1 <= i < |pages| ==> pages[i] == pages[1..][i - 1];
    }
  }

  /**
   * `getPlaces` makes at most three requests, starting with the text search.
   * It throws exactly when a reply it reads throws.  Otherwise it returns the
   * in-order concatenation of the pages it read, or `false` exactly when
   * every page was empty.
   */
  lemma SearchContract(api: Request -> Reply<Page>, query: string, placeType: string)
    ensures var w := SearchWalk(api, query, placeType);
      && 1 <= |w.requests| <= 3
      && w.requests[0] == TextSearch(query, placeType)
      && (Search(api, query, placeType).SearchThrew? <==> w.threw)
      && (Search(api, query, placeType).NoPlaces? <==>
            !w.threw && forall i :: 0 <= i < |w.pages| ==> w.pages[i] == [])
      && (Search(api, query, placeType).Places? ==>
            !w.threw && Search(api, query, placeType).list == Flatten(w.pages) && |Flatten(w.pages)| > 0)
  {
    var w := SearchWalk(api, query, placeType);
    WalkShape(api, TextSearch(query, placeType), ROUNDS);
    FlattenEmpty(w.pages);
  }

  /**
   * Two full pages and no third token: one text search, one page-token
   * request, and the forty places in page-then-position order.
   */
  lemma TwoPagesScenario(api: Request -> Reply<Page>, query: string, placeType: string,
                         first: seq<Place>, second: seq<Place>, token: string)
    requires |first| == PAGE_SIZE && |second| == PAGE_SIZE
    requires api(TextSearch(query, placeType)) == Parsed(Page(Some(first), Some(token)))
    requires api(NextPage(token)) == Parsed(Page(Some(second), None))
    ensures Search(api, query, placeType) == Places(first + second)
    ensures |Search(api, query, placeType).list| == 40
    ensures SearchWalk(api, query, placeType).requests == [TextSearch(query, placeType), NextPage(token)]
  {
    var w := SearchWalk(api, query, placeType);
    var w2 := WalkFrom(api, NextPage(token), 2);
    assert w2 == Walk([NextPage(token)], [second], 0, false);
    assert w == WalkFrom(api, TextSearch(query, placeType), 3);
    assert w == Walk([TextSearch(query, placeType)] + w2.requests, [first] + w2.pages, 1 + w2.waits, w2.threw);
    assert w.pages == [first, second];
    assert Flatten(w.pages) == first + Flatten([second]);
    assert Flatten([second]) == second + Flatten([]);
  }
}
