/** The transport layer: one authenticated request to the fleet API
    (`samsaraApiRequest`), the cursor-following aggregator
    (`samsaraApiRequestAllItems`) and the envelope readers they share.
    The network is the host's authenticated request capability, a `Server`:
    it answers a request with the parsed JSON body, or fails with a message. */
module Transport {

  import opened Json
  import Text

  const BaseUrl := "https://api.samsara.com"

  /** Prefix of the message of every wrapped transport failure. */
  const RequestFailed := "Samsara API request failed: "

  /** Page size the aggregator asks for when the caller's query has none. */
  const DefaultPageSize := 512

  datatype HttpMethod = GET | POST | PATCH | DELETE

  /** The options handed to the host's request helper; an absent `qs` or
      `body` is a deleted option field. */
  datatype RequestOptions = RequestOptions(
    verb: HttpMethod, uri: string, qs: Option<Dict>, body: Option<Dict>, json: bool)

  type Server = RequestOptions -> Result<Dict>

  // ---------------------------------------------------------------------
  // samsaraApiRequest

  /** The options `samsaraApiRequest` sends: an empty body or query is
      removed rather than sent, a non-empty one is sent as given. */
  function Options(verb: HttpMethod, endpoint: string, body: Dict, query: Dict): (o: RequestOptions)
    ensures o.verb == verb && o.uri == BaseUrl + endpoint && o.json
    ensures o.body.None? <==> |Keys(body)| == 0
    ensures o.body.Some? ==> o.body.value == body
    ensures o.qs.None? <==> |Keys(query)| == 0
    ensures o.qs.Some? ==> o.qs.value == query
  {
    RequestOptions(verb, BaseUrl + endpoint,
      if query == [] then None else Some(query),
      if body == [] then None else Some(body),
      true)
  }

  /** The outcome of `samsaraApiRequest`: the server's answer, with a failure
      rethrown under the `Samsara API request failed: ` prefix. */
  function Request(server: Server, verb: HttpMethod, endpoint: string, body: Dict, query: Dict): (r: Result<Dict>)
    ensures r.Ok? <==> server(Options(verb, endpoint, body, query)).Ok?
    ensures r.Ok? ==> r.value == server(Options(verb, endpoint, body, query)).value
    ensures r.Err? ==> r.error == RequestFailed + server(Options(verb, endpoint, body, query)).error
  {
    match server(Options(verb, endpoint, body, query))
    case Ok(response) => Ok(response)
    case Err(message) => Err(RequestFailed + message)
  }

  /** `samsaraApiRequest`: builds the options, deletes the empty ones, and
      issues the request. */
  method SamsaraApiRequest(server: Server, verb: HttpMethod, endpoint: string, body: Dict, query: Dict)
    returns (r: Result<Dict>)
    ensures r == Request(server, verb, endpoint, body, query)
  {
    var options := RequestOptions(verb, BaseUrl + endpoint, Some(query), Some(body), true);
    if |Keys(body)| == 0 {
      options := options.(body := None);
    }
    if |Keys(query)| == 0 {
      options := options.(qs := None);
    }
    var response := server(options);
    if response.Err? {
      r := Err(RequestFailed + response.error);
    } else {
      r := response;
    }
  }

  /** `response.data` */
  function Data(response: Dict): Value {
    Get(response, "data")
  }

  /** What a handler hands back from one request: the answer's `data`, or
      the failure of the request. */
  function Answer(response: Result<Dict>): (r: Result<Value>)
    ensures r.Ok? <==> response.Ok?
    ensures r.Ok? ==> r.value == Data(response.value)
    ensures r.Err? ==> r.error == response.error
  {
    match response
    case Ok(answer) => Ok(Data(answer))
    case Err(message) => Err(message)
  }

  /** `(response.data || fallback)`, or the failure of the request. */
  function AnswerOr(response: Result<Dict>, fallback: Value): (r: Result<Value>)
    ensures r.Ok? <==> response.Ok?
    ensures r.Ok? && Truthy(Data(response.value)) ==> r.value == Data(response.value)
    ensures r.Ok? && !Truthy(Data(response.value)) ==> r.value == fallback
    ensures r.Err? ==> r.error == response.error
  {
    match response
    case Ok(answer) => Ok(Or(Data(answer), fallback))
    case Err(message) => Err(message)
  }

  // ---------------------------------------------------------------------
  // samsaraApiRequestAllItems

  /** The items one page contributes: nothing for an absent (falsy) `data`,
      the array itself, or a single object as a one-item list. */
  function PageItems(data: Value): (items: seq<Value>)
    ensures !Truthy(data) ==> items == []
    ensures data.Arr? ==> items == data.items
    ensures Truthy(data) && !data.Arr? ==> items == [data]
  {
    if !Truthy(data) then [] else if data.Arr? then data.items else [data]
  }

  /** `response.pagination?.endCursor` */
  function EndCursor(response: Dict): Value {
    Member(Get(response, "pagination"), "endCursor")
  }

  /** `response.pagination?.hasNextPage` */
  function HasNextPage(response: Dict): Value {
    Member(Get(response, "pagination"), "hasNextPage")
  }

  /** The loop goes on only while the page says there is a next page and
      gave a non-empty cursor. */
  predicate Continues(response: Dict) {
    Truthy(HasNextPage(response)) && Truthy(EndCursor(response))
  }

  /** The cap a handler passes: none with `returnAll`, `limit` otherwise. */
  function Cap(returnAll: bool, limit: int): Option<int> {
    if returnAll then None else Some(limit)
  }

  /** `limit && returnData.length >= limit`: a cap of 0 (or none) never applies. */
  predicate CapReached(limit: Option<int>, count: nat) {
    limit.Some? && limit.value != 0 && count >= limit.value
  }

  /** `s.slice(0, end)`, where a negative `end` counts from the back. */
  function SliceTo(s: seq<Value>, end: int): (r: seq<Value>)
    ensures 0 <= end <= |s| ==> r == s[..end]
    ensures end > |s| ==> r == s
    ensures end < 0 ==> r == s[..if |s| + end < 0 then 0 else |s| + end]
  {
    if end > |s| then s
    else if end >= 0 then s[..end]
    else if |s| + end < 0 then []
    else s[..|s| + end]
  }

  /** `query.limit = query.limit || 512` */
  function WithPageSize(query: Dict): Dict {
    Set(query, "limit", Or(Get(query, "limit"), Num(DefaultPageSize)))
  }

  /** One request of the loop: the query sent and the answer received. */
  datatype Exchange = Exchange(query: Dict, response: Result<Dict>)

  /** What the aggregator returns, together with the requests it made. */
  datatype Fetch = Fetch(result: Result<seq<Value>>, exchanges: seq<Exchange>)

  function Prepend(ex: seq<Exchange>, f: Option<Fetch>): Option<Fetch> {
    match f
    case None => None
    case Some(g) => Some(g.(exchanges := ex + g.exchanges))
  }

  /** `query.after = page.pagination?.endCursor`: the query of the request
      after `page`. */
  function After(query: Dict, page: Dict): (next: Dict)
    ensures Get(next, "after") == EndCursor(page)
    ensures forall k :: k != "after" ==> Get(next, k) == Get(query, k)
  {
    Set(query, "after", EndCursor(page))
  }

  /** The fuel left for the rest of the loop after one request. */
  function OneLess(fuel: nat): (left: nat)
    requires fuel >= 1
    ensures left < fuel
  {
    fuel - 1
  }

  /** The loop from one request on, having collected `acc` so far. `fuel`
      bounds the number of requests; `None` means the server had not ended
      the listing within that many pages. */
  function FetchFrom(server: Server, verb: HttpMethod, endpoint: string, body: Dict,
                     query: Dict, limit: Option<int>, acc: seq<Value>, fuel: nat): Option<Fetch>
    decreases fuel
  {
    if fuel == 0 then None
    else
      var response := Request(server, verb, endpoint, body, query);
      var here := [Exchange(query, response)];
      match response
      case Err(e) => Some(Fetch(Err(e), here))
      case Ok(page) =>
        var acc' := acc + PageItems(Data(page));
        if CapReached(limit, |acc'|) then Some(Fetch(Ok(SliceTo(acc', limit.value)), here))
        else if Continues(page) then
          Prepend(here, FetchFrom(server, verb, endpoint, body,
                                  After(query, page), limit, acc', OneLess(fuel)))
        else Some(Fetch(Ok(acc'), here))
  }

  /** `samsaraApiRequestAllItems(verb, endpoint, body, query, limit)`. */
  function FetchAll(server: Server, verb: HttpMethod, endpoint: string, body: Dict,
                    query: Dict, limit: Option<int>, fuel: nat): Option<Fetch>
  {
    FetchFrom(server, verb, endpoint, body, WithPageSize(query), limit, [], fuel)
  }

  /** The query of the next request: the cursor of the previous page, when
      there is one, becomes `after`. */
  function NextQuery(query: Dict, cursor: Value): Dict {
    if Truthy(cursor) then Set(query, "after", cursor) else query
  }

  // ---------------------------------------------------------------------
  // The listing as a trace of exchanges

  /** The items one exchange contributes: those of its page, none for a failure. */
  function ItemsOne(e: Exchange): seq<Value> {
    if e.response.Ok? then PageItems(Data(e.response.value)) else []
  }

  /** The items of a run of exchanges, in request order. */
  function ItemsOf(ex: seq<Exchange>): seq<Value> {
    if ex == [] then [] else ItemsOne(ex[0]) + ItemsOf(ex[1..])
  }

  /** Every response in the trace is the one the server gives for its query. */
  ghost predicate Answered(server: Server, verb: HttpMethod, endpoint: string, body: Dict, ex: seq<Exchange>) {
    forall i :: 0 <= i < |ex| ==> ex[i].response == Request(server, verb, endpoint, body, ex[i].query)
  }

  /** Every page but the last succeeded, announced a next page with a cursor,
      and the next query is the previous one with that cursor as `after`. */
  predicate Follows(ex: seq<Exchange>) {
    forall i :: 0 <= i < |ex| - 1 ==> Linked(ex[i], ex[i + 1])
  }

  /** Before the last page the cap was never reached. */
  predicate Uncapped(limit: Option<int>, acc: seq<Value>, ex: seq<Exchange>) {
    forall n :: 1 <= n < |ex| ==> !CapReached(limit, |acc + ItemsOf(ex[..n])|)
  }

  /** The last page ends the listing: it failed, reached the cap, or did not
      continue. */
  predicate Ends(limit: Option<int>, acc: seq<Value>, ex: seq<Exchange>)
    requires |ex| >= 1
  {
    var last := ex[|ex| - 1].response;
    last.Err? || CapReached(limit, |acc + ItemsOf(ex)|) || !Continues(last.value)
  }

  /** What a listing with this trace returns: the last failure, or every item
      collected, cut to the cap when the cap was reached. */
  function Outcome(limit: Option<int>, acc: seq<Value>, ex: seq<Exchange>): Result<seq<Value>>
    requires |ex| >= 1
  {
    match ex[|ex| - 1].response
    case Err(e) => Err(e)
    case Ok(_) =>
      var all := acc + ItemsOf(ex);
      if CapReached(limit, |all|) then Ok(SliceTo(all, limit.value)) else Ok(all)
  }

  /** The trace conditions, all together. */
  ghost predicate Listing(server: Server, verb: HttpMethod, endpoint: string, body: Dict,
                          q: Dict, limit: Option<int>, acc: seq<Value>, fuel: nat, t: Fetch)
  {
    1 <= |t.exchanges| <= fuel && t.exchanges[0].query == q
    && Answered(server, verb, endpoint, body, t.exchanges)
    && Follows(t.exchanges) && Uncapped(limit, acc, t.exchanges) && Ends(limit, acc, t.exchanges)
    && t.result == Outcome(limit, acc, t.exchanges)
  }

  lemma ItemsOfOne(e: Exchange)
    ensures ItemsOf([e]) == ItemsOne(e)
  {
    assert [e][1..] == [];
  }

  lemma ItemsOfCons(e: Exchange, ex: seq<Exchange>)
    ensures ItemsOf([e] + ex) == ItemsOne(e) + ItemsOf(ex)
  {
    assert ([e] + ex)[1..] == ex;
  }

  lemma AnsweredCons(server: Server, verb: HttpMethod, endpoint: string, body: Dict,
                     e: Exchange, ex: seq<Exchange>)
    ensures Answered(server, verb, endpoint, body, [e] + ex)
            <==> e.response == Request(server, verb, endpoint, body, e.query)
                 && Answered(server, verb, endpoint, body, ex)
  {
    var whole := [e] + ex;
    assert whole[0] == e;
    if Answered(server, verb, endpoint, body, whole) {
      forall i | 0 <= i < |ex|
        ensures ex[i].response == Request(server, verb, endpoint, body, ex[i].query)
      {
        assert ex[i] == whole[i + 1];
      }
    }
    if e.response == Request(server, verb, endpoint, body, e.query) && Answered(server, verb, endpoint, body, ex) {
      forall i | 0 <= i < |whole|
        ensures whole[i].response == Request(server, verb, endpoint, body, whole[i].query)
      {
        if i > 0 {
          assert whole[i] == ex[i - 1];
        }
      }
    }
  }

  /** The link between the first two exchanges of a trace. */
  predicate Linked(e: Exchange, next: Exchange) {
    e.response.Ok? && Continues(e.response.value)
    && next.query == After(e.query, e.response.value)
  }

  lemma FollowsLinked(ex: seq<Exchange>, i: nat)
    requires Follows(ex) && i < |ex| - 1
    ensures Linked(ex[i], ex[i + 1])
  {
  }

  lemma FollowsCons(e: Exchange, ex: seq<Exchange>)
    ensures Follows([e] + ex) <==> (ex != [] ==> Linked(e, ex[0])) && Follows(ex)
  {
    var whole := [e] + ex;
    if Follows(whole) {
      forall i | 0 <= i < |ex| - 1
        ensures Linked(ex[i], ex[i + 1])
      {
        FollowsLinked(whole, i + 1);
        assert ex[i] == whole[i + 1] && ex[i + 1] == whole[i + 2];
      }
      if ex != [] {
        FollowsLinked(whole, 0);
        assert whole[0] == e && whole[1] == ex[0];
      }
    }
    if (ex != [] ==> Linked(e, ex[0])) && Follows(ex) {
      forall i | 0 <= i < |whole| - 1
        ensures Linked(whole[i], whole[i + 1])
      {
        if i > 0 {
          FollowsLinked(ex, i - 1);
          assert whole[i] == ex[i - 1] && whole[i + 1] == ex[i];
        } else {
          assert whole[0] == e && whole[1] == ex[0];
        }
      }
    }
  }

  lemma PrefixItems(acc: seq<Value>, e: Exchange, ex: seq<Exchange>, n: nat)
    requires 1 <= n <= |ex| + 1
    ensures acc + ItemsOf(([e] + ex)[..n]) == (acc + ItemsOne(e)) + ItemsOf(ex[..n - 1])
  {
    assert ([e] + ex)[..n] == [e] + ex[..n - 1];
    ItemsOfCons(e, ex[..n - 1]);
  }

  lemma UncappedCons(limit: Option<int>, acc: seq<Value>, e: Exchange, ex: seq<Exchange>)
    ensures Uncapped(limit, acc, [e] + ex)
            <==> (ex != [] ==> !CapReached(limit, |acc + ItemsOne(e)|))
                 && Uncapped(limit, acc + ItemsOne(e), ex)
  {
    var whole := [e] + ex;
    var acc' := acc + ItemsOne(e);
    if Uncapped(limit, acc, whole) {
      forall n | 1 <= n < |ex|
        ensures !CapReached(limit, |acc' + ItemsOf(ex[..n])|)
      {
        PrefixItems(acc, e, ex, n + 1);
      }
      if ex != [] {
        PrefixItems(acc, e, ex, 1);
        assert ex[..0] == [];
      }
    }
    if (ex != [] ==> !CapReached(limit, |acc'|)) && Uncapped(limit, acc', ex) {
      forall n | 1 <= n < |whole|
        ensures !CapReached(limit, |acc + ItemsOf(whole[..n])|)
      {
        PrefixItems(acc, e, ex, n);
        if n == 1 {
          assert ex[..0] == [];
        }
      }
    }
  }

  lemma OutcomeCons(limit: Option<int>, acc: seq<Value>, e: Exchange, ex: seq<Exchange>)
    requires ex != []
    ensures Ends(limit, acc, [e] + ex) == Ends(limit, acc + ItemsOne(e), ex)
    ensures Outcome(limit, acc, [e] + ex) == Outcome(limit, acc + ItemsOne(e), ex)
  {
    ItemsOfCons(e, ex);
    assert acc + ItemsOf([e] + ex) == (acc + ItemsOne(e)) + ItemsOf(ex);
    assert ([e] + ex)[|[e] + ex| - 1] == ex[|ex| - 1];
  }

  /** A trace of two or more exchanges is its first exchange, linked to the
      trace of the listing from the first cursor on. */
  lemma ListingTail(server: Server, verb: HttpMethod, endpoint: string, body: Dict,
                    q: Dict, limit: Option<int>, acc: seq<Value>, fuel: nat, t: Fetch)
    requires Listing(server, verb, endpoint, body, q, limit, acc, fuel, t) && |t.exchanges| >= 2
    ensures t.exchanges[0].response == Request(server, verb, endpoint, body, q)
    ensures Linked(t.exchanges[0], t.exchanges[1])
    ensures !CapReached(limit, |acc + ItemsOne(t.exchanges[0])|)
    ensures Listing(server, verb, endpoint, body, t.exchanges[1].query, limit, acc + ItemsOne(t.exchanges[0]),
                    OneLess(fuel), Fetch(t.result, t.exchanges[1..]))
  {
    var e := t.exchanges[0];
    var ex := t.exchanges[1..];
    assert t.exchanges == [e] + ex;
    AnsweredCons(server, verb, endpoint, body, e, ex);
    FollowsCons(e, ex);
    UncappedCons(limit, acc, e, ex);
    OutcomeCons(limit, acc, e, ex);
  }

  /** Conversely, an exchange linked to a trace extends it by one page. */
  lemma ListingCons(server: Server, verb: HttpMethod, endpoint: string, body: Dict,
                    limit: Option<int>, acc: seq<Value>, left: nat, e: Exchange, rest: Fetch)
    requires e.response == Request(server, verb, endpoint, body, e.query)
    requires |rest.exchanges| >= 1 && Linked(e, rest.exchanges[0])
    requires !CapReached(limit, |acc + ItemsOne(e)|)
    requires Listing(server, verb, endpoint, body, rest.exchanges[0].query, limit, acc + ItemsOne(e), left, rest)
    ensures Listing(server, verb, endpoint, body, e.query, limit, acc, left + 1,
                    Fetch(rest.result, [e] + rest.exchanges))
  {
    AnsweredCons(server, verb, endpoint, body, e, rest.exchanges);
    FollowsCons(e, rest.exchanges);
    UncappedCons(limit, acc, e, rest.exchanges);
    OutcomeCons(limit, acc, e, rest.exchanges);
  }

  /** A listing whose request fails ends there, with that failure. */
  lemma FetchFailed(server: Server, verb: HttpMethod, endpoint: string, body: Dict,
                    q: Dict, limit: Option<int>, acc: seq<Value>, fuel: nat, t: Fetch, response: Result<Dict>)
    requires FetchFrom(server, verb, endpoint, body, q, limit, acc, fuel) == Some(t)
    requires response == Request(server, verb, endpoint, body, q) && response.Err?
    ensures t == Fetch(Err(response.error), [Exchange(q, response)])
  {
  }

  /** A page that brings the collected items up to the cap ends the listing
      with the items cut to the cap. */
  lemma FetchCapped(server: Server, verb: HttpMethod, endpoint: string, body: Dict,
                    q: Dict, limit: Option<int>, acc: seq<Value>, fuel: nat, t: Fetch, response: Result<Dict>)
    requires FetchFrom(server, verb, endpoint, body, q, limit, acc, fuel) == Some(t)
    requires response == Request(server, verb, endpoint, body, q) && response.Ok?
    requires CapReached(limit, |acc + PageItems(Data(response.value))|)
    ensures t == Fetch(Ok(SliceTo(acc + PageItems(Data(response.value)), limit.value)), [Exchange(q, response)])
  {
  }

  /** A page that does not continue the listing ends it with everything collected. */
  lemma FetchDone(server: Server, verb: HttpMethod, endpoint: string, body: Dict,
                  q: Dict, limit: Option<int>, acc: seq<Value>, fuel: nat, t: Fetch, response: Result<Dict>)
    requires FetchFrom(server, verb, endpoint, body, q, limit, acc, fuel) == Some(t)
    requires response == Request(server, verb, endpoint, body, q) && response.Ok?
    requires !CapReached(limit, |acc + PageItems(Data(response.value))|)
    requires !Continues(response.value)
    ensures t == Fetch(Ok(acc + PageItems(Data(response.value))), [Exchange(q, response)])
  {
  }

  /** A page that continues the listing: the rest of it is the listing from
      the page's cursor on. */
  lemma FetchContinues(server: Server, verb: HttpMethod, endpoint: string, body: Dict,
                       q: Dict, limit: Option<int>, acc: seq<Value>, fuel: nat, t: Fetch, response: Result<Dict>)
    returns (rest: Fetch, left: nat)
    requires FetchFrom(server, verb, endpoint, body, q, limit, acc, fuel) == Some(t)
    requires response == Request(server, verb, endpoint, body, q) && response.Ok?
    requires !CapReached(limit, |acc + PageItems(Data(response.value))|)
    requires Continues(response.value)
    ensures left < fuel
    ensures t == Fetch(rest.result, [Exchange(q, response)] + rest.exchanges)
    ensures FetchFrom(server, verb, endpoint, body, After(q, response.value), limit,
                      acc + PageItems(Data(response.value)), left)
            == Some(rest)
  {
    left := OneLess(fuel);
    rest := Fetch(t.result, t.exchanges[1..]);
  }

  /** A page that continues the listing puts its exchange in front of the
      listing from its cursor on. */
  lemma FetchResumes(server: Server, verb: HttpMethod, endpoint: string, body: Dict,
                     limit: Option<int>, acc: seq<Value>, fuel: nat, e: Exchange, rest: Fetch)
    requires e.response == Request(server, verb, endpoint, body, e.query)
    requires e.response.Ok? && Continues(e.response.value)
    requires !CapReached(limit, |acc + PageItems(Data(e.response.value))|)
    requires fuel >= 1
    requires FetchFrom(server, verb, endpoint, body, After(e.query, e.response.value), limit,
                       acc + PageItems(Data(e.response.value)), OneLess(fuel)) == Some(rest)
    ensures FetchFrom(server, verb, endpoint, body, e.query, limit, acc, fuel)
            == Some(Fetch(rest.result, [e] + rest.exchanges))
  {
  }

  /** Every listing the loop completes has a trace meeting the conditions:
      the first request is the given query, each response is the server's,
      each later query carries the previous cursor, the cap and the stop
      condition apply only at the last page, and the result is the
      trace's outcome. */
  lemma {:induction false} FetchTrace(server: Server, verb: HttpMethod, endpoint: string, body: Dict,
                                      q: Dict, limit: Option<int>, acc: seq<Value>, fuel: nat, t: Fetch)
    requires FetchFrom(server, verb, endpoint, body, q, limit, acc, fuel) == Some(t)
    ensures Listing(server, verb, endpoint, body, q, limit, acc, fuel, t)
    decreases fuel
  {
    var response := Request(server, verb, endpoint, body, q);
    var e := Exchange(q, response);
    if response.Err? {
      FetchFailed(server, verb, endpoint, body, q, limit, acc, fuel, t, response);
    } else if CapReached(limit, |acc + PageItems(Data(response.value))|) {
      FetchCapped(server, verb, endpoint, body, q, limit, acc, fuel, t, response);
      ItemsOfOne(e);
    } else if !Continues(response.value) {
      FetchDone(server, verb, endpoint, body, q, limit, acc, fuel, t, response);
      ItemsOfOne(e);
    } else {
      var rest, left := FetchContinues(server, verb, endpoint, body, q, limit, acc, fuel, t, response);
      FetchTrace(server, verb, endpoint, body, After(q, response.value), limit,
                 acc + ItemsOne(e), left, rest);
      ListingCons(server, verb, endpoint, body, limit, acc, left, e, rest);
    }
  }

  /** Conversely, a trace meeting the conditions within the fuel is what the
      loop does: the listing is determined by the server. */
  lemma {:induction false} TraceFetch(server: Server, verb: HttpMethod, endpoint: string, body: Dict,
                                      q: Dict, limit: Option<int>, acc: seq<Value>, fuel: nat, t: Fetch)
    requires Listing(server, verb, endpoint, body, q, limit, acc, fuel, t)
    ensures FetchFrom(server, verb, endpoint, body, q, limit, acc, fuel) == Some(t)
    decreases fuel
  {
    var ex := t.exchanges;
    var e := ex[0];
    if |ex| == 1 {
      ItemsOfOne(e);
      assert ex == [e];
      if e.response.Ok? {
        var acc' := acc + PageItems(Data(e.response.value));
        if CapReached(limit, |acc'|) {
          assert t == Fetch(Ok(SliceTo(acc', limit.value)), [e]);
        } else {
          assert t == Fetch(Ok(acc'), [e]);
        }
      } else {
        assert t == Fetch(Err(e.response.error), [e]);
      }
    } else {
      var rest := Fetch(t.result, ex[1..]);
      ListingTail(server, verb, endpoint, body, q, limit, acc, fuel, t);
      TraceFetch(server, verb, endpoint, body, ex[1].query, limit, acc + ItemsOne(e), OneLess(fuel), rest);
      assert [e] + rest.exchanges == ex;
      FetchResumes(server, verb, endpoint, body, limit, acc, fuel, e, rest);
    }
  }

  /** The loop's run, written as its trace: the two descriptions agree. */
  lemma FetchIsListing(server: Server, verb: HttpMethod, endpoint: string, body: Dict,
                       q: Dict, limit: Option<int>, acc: seq<Value>, fuel: nat, t: Fetch)
    ensures FetchFrom(server, verb, endpoint, body, q, limit, acc, fuel) == Some(t)
            <==> Listing(server, verb, endpoint, body, q, limit, acc, fuel, t)
  {
    if FetchFrom(server, verb, endpoint, body, q, limit, acc, fuel) == Some(t) {
      FetchTrace(server, verb, endpoint, body, q, limit, acc, fuel, t);
    }
    if Listing(server, verb, endpoint, body, q, limit, acc, fuel, t) {
      TraceFetch(server, verb, endpoint, body, q, limit, acc, fuel, t);
    }
  }

  // ---------------------------------------------------------------------
  // What the aggregator promises

  /** More fuel does not change a completed listing: the fuel only bounds it. */
  lemma FetchFuel(server: Server, verb: HttpMethod, endpoint: string, body: Dict,
                  query: Dict, limit: Option<int>, fuel: nat, more: nat, t: Fetch)
    requires FetchAll(server, verb, endpoint, body, query, limit, fuel) == Some(t)
    requires fuel <= more
    ensures FetchAll(server, verb, endpoint, body, query, limit, more) == Some(t)
  {
    FetchTrace(server, verb, endpoint, body, WithPageSize(query), limit, [], fuel, t);
    TraceFetch(server, verb, endpoint, body, WithPageSize(query), limit, [], more, t);
  }

  /** Along a trace, queries differ from the first one only in `after`,
      which is the cursor of the page before. */
  lemma {:induction false} FollowsQueries(ex: seq<Exchange>, i: nat)
    requires Follows(ex) && i < |ex|
    ensures forall k :: k != "after" ==> Get(ex[i].query, k) == Get(ex[0].query, k)
    ensures i > 0 ==> ex[i - 1].response.Ok?
                      && Get(ex[i].query, "after") == EndCursor(ex[i - 1].response.value)
  {
    if i > 0 {
      FollowsQueries(ex, i - 1);
      FollowsLinked(ex, i - 1);
    }
  }

  /** The first request asks for pages of `query.limit`, or of 512 when the
      query has no (truthy) limit, and every later request keeps that page
      size and the caller's other parameters. */
  lemma FetchQueries(server: Server, verb: HttpMethod, endpoint: string, body: Dict,
                     query: Dict, limit: Option<int>, fuel: nat, t: Fetch, i: nat)
    requires FetchAll(server, verb, endpoint, body, query, limit, fuel) == Some(t)
    requires i < |t.exchanges|
    ensures Get(t.exchanges[i].query, "limit") == Or(Get(query, "limit"), Num(DefaultPageSize))
    ensures forall k :: k != "limit" && k != "after" ==> Get(t.exchanges[i].query, k) == Get(query, k)
  {
    FetchFollows(server, verb, endpoint, body, query, limit, fuel, t);
    TraceLimit(t.exchanges, query, i);
    TraceOthers(t.exchanges, query, i);
  }

  /** The first request sends the caller's `after`; every later one sends
      the cursor of the page before, which succeeded. */
  lemma FetchCursors(server: Server, verb: HttpMethod, endpoint: string, body: Dict,
                     query: Dict, limit: Option<int>, fuel: nat, t: Fetch, i: nat)
    requires FetchAll(server, verb, endpoint, body, query, limit, fuel) == Some(t)
    requires 0 < i < |t.exchanges|
    ensures Get(t.exchanges[0].query, "after") == Get(query, "after")
    ensures t.exchanges[i - 1].response.Ok?
    ensures Get(t.exchanges[i].query, "after") == EndCursor(t.exchanges[i - 1].response.value)
  {
    FetchFollows(server, verb, endpoint, body, query, limit, fuel, t);
    TraceCursors(t.exchanges, i);
    PageSizeKeeps(query, "after");
  }

  /** Adding the page size leaves every other parameter as it was. */
  lemma PageSizeKeeps(query: Dict, k: string)
    requires k != "limit"
    ensures Get(WithPageSize(query), k) == Get(query, k)
  {
  }

  lemma TraceCursors(ex: seq<Exchange>, i: nat)
    requires Follows(ex) && 0 < i < |ex|
    ensures ex[i - 1].response.Ok?
    ensures Get(ex[i].query, "after") == EndCursor(ex[i - 1].response.value)
  {
    FollowsQueries(ex, i);
  }

  /** Every query of a trace keeps the page size of the first. */
  lemma TraceLimit(ex: seq<Exchange>, query: Dict, i: nat)
    requires Follows(ex) && i < |ex| && ex[0].query == WithPageSize(query)
    ensures Get(ex[i].query, "limit") == Or(Get(query, "limit"), Num(DefaultPageSize))
  {
    FollowsQueries(ex, i);
  }

  /** Every query of a trace keeps the caller's parameters other than the
      page size and the cursor. */
  lemma TraceOthers(ex: seq<Exchange>, query: Dict, i: nat)
    requires Follows(ex) && i < |ex| && ex[0].query == WithPageSize(query)
    ensures forall k :: k != "limit" && k != "after" ==> Get(ex[i].query, k) == Get(query, k)
  {
    FollowsQueries(ex, i);
  }

  /** The trace of a listing starts from the query with its page size and
      follows the cursors. */
  lemma FetchFollows(server: Server, verb: HttpMethod, endpoint: string, body: Dict,
                     query: Dict, limit: Option<int>, fuel: nat, t: Fetch)
    requires FetchAll(server, verb, endpoint, body, query, limit, fuel) == Some(t)
    ensures |t.exchanges| >= 1 && t.exchanges[0].query == WithPageSize(query)
    ensures Follows(t.exchanges)
  {
    FetchTrace(server, verb, endpoint, body, WithPageSize(query), limit, [], fuel, t);
  }

  /** A listing goes on only past pages that succeeded and announced a next
      page with a non-empty cursor: a failure, `hasNextPage` false, or a
      missing cursor ends it. */
  lemma FetchGoesOnOnlyWithCursor(server: Server, verb: HttpMethod, endpoint: string, body: Dict,
                                  query: Dict, limit: Option<int>, fuel: nat, t: Fetch, i: nat)
    requires FetchAll(server, verb, endpoint, body, query, limit, fuel) == Some(t)
    requires i < |t.exchanges| - 1
    ensures t.exchanges[i].response.Ok?
    ensures Truthy(HasNextPage(t.exchanges[i].response.value))
    ensures Truthy(EndCursor(t.exchanges[i].response.value))
  {
    FetchTrace(server, verb, endpoint, body, WithPageSize(query), limit, [], fuel, t);
    FollowsLinked(t.exchanges, i);
  }

  /** Without a cap (no limit, or a limit of 0), a successful listing returns
      the items of every page, in page order, and its last page did not
      continue. */
  lemma FetchUncapped(server: Server, verb: HttpMethod, endpoint: string, body: Dict,
                      query: Dict, limit: Option<int>, fuel: nat, t: Fetch)
    requires FetchAll(server, verb, endpoint, body, query, limit, fuel) == Some(t)
    requires limit.None? || limit.value == 0
    requires t.result.Ok?
    ensures t.result.value == ItemsOf(t.exchanges)
    ensures |t.exchanges| >= 1 && t.exchanges[|t.exchanges| - 1].response.Ok?
    ensures !Continues(t.exchanges[|t.exchanges| - 1].response.value)
  {
    FetchTrace(server, verb, endpoint, body, WithPageSize(query), limit, [], fuel, t);
    UncappedTrace(limit, t.exchanges, t.result);
  }

  /** The outcome of a trace that no cap ends. */
  lemma UncappedTrace(limit: Option<int>, ex: seq<Exchange>, result: Result<seq<Value>>)
    requires limit.None? || limit.value == 0
    requires |ex| >= 1 && Ends(limit, [], ex) && result == Outcome(limit, [], ex) && result.Ok?
    ensures result.value == ItemsOf(ex)
    ensures ex[|ex| - 1].response.Ok? && !Continues(ex[|ex| - 1].response.value)
  {
    assert [] + ItemsOf(ex) == ItemsOf(ex);
  }

  /** With a positive cap, a successful listing returns the first
      `min(limit, all)` items of the pages it read: exactly `limit` items
      when the pages held that many, all of them otherwise. */
  lemma FetchCappedPrefix(server: Server, verb: HttpMethod, endpoint: string, body: Dict,
                          query: Dict, limit: Option<int>, fuel: nat, t: Fetch)
    requires FetchAll(server, verb, endpoint, body, query, limit, fuel) == Some(t)
    requires limit.Some? && limit.value > 0
    requires t.result.Ok?
    ensures |ItemsOf(t.exchanges)| >= limit.value ==> t.result.value == ItemsOf(t.exchanges)[..limit.value]
    ensures |ItemsOf(t.exchanges)| < limit.value ==> t.result.value == ItemsOf(t.exchanges)
    ensures |t.result.value| <= limit.value
  {
    FetchTrace(server, verb, endpoint, body, WithPageSize(query), limit, [], fuel, t);
    var ex := t.exchanges;
    assert [] + ItemsOf(ex) == ItemsOf(ex);
    assert t.result == Outcome(limit, [], ex);
  }

  /** A negative limit is truthy, so the cap test succeeds on the first page:
      the listing makes a single request and returns that page's items with
      the last `-limit` of them dropped. */
  lemma FetchNegativeLimit(server: Server, verb: HttpMethod, endpoint: string, body: Dict,
                           query: Dict, limit: Option<int>, fuel: nat, t: Fetch)
    requires FetchAll(server, verb, endpoint, body, query, limit, fuel) == Some(t)
    requires limit.Some? && limit.value < 0
    ensures |t.exchanges| == 1
    ensures t.result.Ok? ==>
              t.result.value == SliceTo(PageItems(Data(t.exchanges[0].response.value)), limit.value)
  {
    FetchTrace(server, verb, endpoint, body, WithPageSize(query), limit, [], fuel, t);
    NegativeTrace(limit, t.exchanges, t.result);
  }

  /** The trace of a listing under a negative cap has one exchange. */
  lemma NegativeTrace(limit: Option<int>, ex: seq<Exchange>, result: Result<seq<Value>>)
    requires limit.Some? && limit.value < 0
    requires |ex| >= 1 && Uncapped(limit, [], ex) && result == Outcome(limit, [], ex)
    ensures |ex| == 1
    ensures result.Ok? ==> result.value == SliceTo(PageItems(Data(ex[0].response.value)), limit.value)
  {
    assert CapReached(limit, |[] + ItemsOf(ex[..1])|);
    ItemsOfOne(ex[0]);
    assert ex[..1] == [ex[0]];
    assert ex == [ex[0]];
    assert [] + ItemsOf(ex) == ItemsOne(ex[0]);
  }

  lemma Regroup(before: seq<Exchange>, e: Exchange, after: seq<Exchange>)
    ensures before + ([e] + after) == (before + [e]) + after
  {
  }

  /** `samsaraApiRequestAllItems`. The ghost `fuel` only bounds the number of
      pages the server serves; it plays no part in what is computed. */
  method SamsaraApiRequestAllItems(server: Server, verb: HttpMethod, endpoint: string, body: Dict,
                                   query: Dict, limit: Option<int>, ghost fuel: nat)
    returns (r: Result<seq<Value>>, ghost exchanges: seq<Exchange>)
    requires FetchAll(server, verb, endpoint, body, query, limit, fuel).Some?
    ensures FetchAll(server, verb, endpoint, body, query, limit, fuel) == Some(Fetch(r, exchanges))
  {
    ghost var whole := FetchAll(server, verb, endpoint, body, query, limit, fuel).value;
    var returnData: seq<Value> := [];
    var cursor := Undefined;
    var q := Set(query, "limit", Or(Get(query, "limit"), Num(DefaultPageSize)));
    exchanges := [];
    ghost var f := fuel;
    ghost var tail := whole;
    assert NextQuery(q, cursor) == WithPageSize(query);
    assert whole.exchanges == [] + whole.exchanges;
    while true
      invariant FetchFrom(server, verb, endpoint, body, NextQuery(q, cursor), limit, returnData, f) == Some(tail)
      invariant whole == Fetch(tail.result, exchanges + tail.exchanges)
      decreases f
    {
      ghost var collected := returnData;
      ghost var before := exchanges;
      ghost var sent := NextQuery(q, cursor);
      if Truthy(cursor) {
        q := Set(q, "after", cursor);
      }
      assert q == sent;
      var response := SamsaraApiRequest(server, verb, endpoint, body, q);
      exchanges := exchanges + [Exchange(q, response)];
      if response.Err? {
        FetchFailed(server, verb, endpoint, body, q, limit, collected, f, tail, response);
        r := Err(response.error);
        return;
      }
      var page := response.value;
      returnData := returnData + PageItems(Data(page));
      cursor := EndCursor(page);
      if limit.Some? && limit.value != 0 && |returnData| >= limit.value {
        FetchCapped(server, verb, endpoint, body, q, limit, collected, f, tail, response);
        r := Ok(SliceTo(returnData, limit.value));
        return;
      }
      if !(Truthy(HasNextPage(page)) && Truthy(cursor)) {
        FetchDone(server, verb, endpoint, body, q, limit, collected, f, tail, response);
        r := Ok(returnData);
        return;
      }
      tail, f := FetchContinues(server, verb, endpoint, body, q, limit, collected, f, tail, response);
      Regroup(before, Exchange(q, response), tail.exchanges);
    }
  }
}
