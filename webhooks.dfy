/** The webhook resource handler: the request bodies of `create` and
    `update` (with the custom headers collected by a loop), the single
    page of `getAll`, and the result of `delete`. */
module Webhooks {

  import opened Json
  import Transport
  import Params
  import Bodies

  /** One row of the `customHeaders` collection. */
  datatype Header = Header(key: string, value: Value)

  /** The settings `create` and `update` share, as the form hands them over;
      an empty string or list means the setting was not filled in. */
  datatype Settings = Settings(
    secretToken: string, tagIds: string, vehicleIds: string, driverIds: string, headers: seq<Header>)

  /** The fields only `update` may change; `enabled` is `None` when the
      toggle was not added. */
  datatype Changes = Changes(
    name: string, url: string, eventTypes: seq<string>, enabled: Option<bool>, settings: Settings)

  /** The path of one webhook, `/webhooks/${webhookId}`. */
  function WebhookPath(webhookId: string): string {
    "/webhooks/" + webhookId
  }

  // ---------------------------------------------------------------------
  // custom headers

  /** `for (const header of headerValues) headers[header.key] = header.value`:
      the object the rows build, one assignment per row in order. */
  function HeaderMap(hs: seq<Header>): Dict
    decreases |hs|
  {
    if hs == [] then []
    else
      var last := hs[|hs| - 1];
      Set(HeaderMap(hs[..|hs| - 1]), last.key, last.value)
  }

  /** The loop over the header rows. */
  method BuildHeaders(hs: seq<Header>) returns (headers: Dict)
    ensures headers == HeaderMap(hs)
  {
    headers := [];
    for i := 0 to |hs|
      invariant headers == HeaderMap(hs[..i])
    {
      assert hs[..i + 1][..i] == hs[..i];
      headers := Set(headers, hs[i].key, hs[i].value);
    }
    assert hs[..|hs|] == hs;
  }

  /** A header name is present exactly when some row names it. */
  lemma {:induction false} HeaderPresent(hs: seq<Header>, k: string)
    ensures Has(HeaderMap(hs), k) <==> exists i :: 0 <= i < |hs| && hs[i].key == k
    decreases |hs|
  {
    if hs != [] {
      HeaderPresent(hs[..|hs| - 1], k);
      RowAdds(hs, k);
      RowNamed(hs, k);
    }
  }

  /** Some row names `k` exactly when a row before the last does or the
      last does. */
  lemma RowNamed(hs: seq<Header>, k: string)
    requires hs != []
    ensures var init := hs[..|hs| - 1];
            (exists i :: 0 <= i < |hs| && hs[i].key == k)
            <==> (exists i :: 0 <= i < |init| && init[i].key == k) || hs[|hs| - 1].key == k
  {
    var n := |hs| - 1;
    if exists i :: 0 <= i < |hs| && hs[i].key == k {
      var i :| 0 <= i < |hs| && hs[i].key == k;
      if i < n {
        assert hs[..n][i].key == k;
      }
    }
    if exists i :: 0 <= i < n && hs[..n][i].key == k {
      var i :| 0 <= i < n && hs[..n][i].key == k;
      assert hs[i].key == k;
    }
  }

  /** The last row adds its name, if new, and no other. */
  lemma RowAdds(hs: seq<Header>, k: string)
    requires hs != []
    ensures Has(HeaderMap(hs), k) <==> Has(HeaderMap(hs[..|hs| - 1]), k) || hs[|hs| - 1].key == k
  {
  }

  /** Each header name appears once, however many rows repeat it. */
  lemma {:induction false} HeaderMapWellFormed(hs: seq<Header>)
    ensures WellFormed(HeaderMap(hs))
    decreases |hs|
  {
    if hs != [] {
      HeaderMapWellFormed(hs[..|hs| - 1]);
      SetWellFormed(HeaderMap(hs[..|hs| - 1]), hs[|hs| - 1].key, hs[|hs| - 1].value);
    }
  }

  /** A header that some row names holds the value of the last row naming
      it: a later duplicate overrides an earlier one. */
  lemma {:induction false} HeaderLastWins(hs: seq<Header>, i: nat)
    requires i < |hs|
    requires forall j :: i < j < |hs| ==> hs[j].key != hs[i].key
    ensures Get(HeaderMap(hs), hs[i].key) == hs[i].value
    decreases |hs|
  {
    var n := |hs| - 1;
    var init := hs[..n];
    assert hs == init + [hs[n]];
    if i < n {
      forall j | i < j < n
        ensures init[j].key != init[i].key
      {
        assert init[j] == hs[j] && init[i] == hs[i];
      }
      HeaderLastWins(init, i);
      LaterRowElsewhere(init, hs[n], hs[i].key);
    }
  }

  /** A row for another name leaves a header as it was. */
  lemma LaterRowElsewhere(init: seq<Header>, row: Header, k: string)
    requires row.key != k
    ensures Get(HeaderMap(init + [row]), k) == Get(HeaderMap(init), k)
  {
    assert (init + [row])[..|init|] == init;
  }

  /** A header no row names is absent. */
  lemma HeaderAbsent(hs: seq<Header>, k: string)
    requires forall i :: 0 <= i < |hs| ==> hs[i].key != k
    ensures Get(HeaderMap(hs), k) == Undefined
  {
    HeaderPresent(hs, k);
    GetAbsent(HeaderMap(hs), k);
  }

  // ---------------------------------------------------------------------
  // the settings create and update share

  /** The secret token, the three id filters, then the custom headers, each
      written only when filled in. */
  function WithSettings(b: Dict, s: Settings): Dict {
    var b := Bodies.Cond(b, s.secretToken != "", "secretToken", Str(s.secretToken));
    var b := Bodies.IdFilters(b, s.tagIds, s.vehicleIds, s.driverIds);
    Bodies.Cond(b, |s.headers| > 0, "customHeaders", Obj(HeaderMap(s.headers)))
  }

  /** The keys the settings write, in the order they are written. */
  function SettingKeys(s: Settings): seq<string> {
    (if s.secretToken != "" then ["secretToken"] else [])
    + Bodies.FilterKeys(s.tagIds, s.vehicleIds, s.driverIds)
    + (if |s.headers| > 0 then ["customHeaders"] else [])
  }

  /** Whether `k` is one of the keys the settings may write. */
  predicate SettingKey(k: string) {
    k == "secretToken" || k == "tagIds" || k == "vehicleIds" || k == "driverIds" || k == "customHeaders"
  }

  /** Every setting reads as what was filled in, the id filters as their
      parsed lists; one left empty reads as before. */
  lemma WithSettingsGet(b: Dict, s: Settings, k: string)
    ensures Get(WithSettings(b, s), k)
            == if k == "secretToken" && s.secretToken != "" then Str(s.secretToken)
               else if k == "tagIds" && s.tagIds != "" then Params.IdListValue(s.tagIds)
               else if k == "vehicleIds" && s.vehicleIds != "" then Params.IdListValue(s.vehicleIds)
               else if k == "driverIds" && s.driverIds != "" then Params.IdListValue(s.driverIds)
               else if k == "customHeaders" && |s.headers| > 0 then Obj(HeaderMap(s.headers))
               else Get(b, k)
  {
    var b1 := Bodies.Cond(b, s.secretToken != "", "secretToken", Str(s.secretToken));
    var b2 := Bodies.IdFilters(b1, s.tagIds, s.vehicleIds, s.driverIds);
    Bodies.IdFiltersGet(b1, s.tagIds, s.vehicleIds, s.driverIds, k);
    assert Get(b1, k) == if k == "secretToken" && s.secretToken != "" then Str(s.secretToken) else Get(b, k);
    assert Get(WithSettings(b, s), k)
           == if k == "customHeaders" && |s.headers| > 0 then Obj(HeaderMap(s.headers)) else Get(b2, k);
  }

  /** The settings leave every other key as it was. */
  lemma WithSettingsKeeps(b: Dict, s: Settings, k: string)
    requires !SettingKey(k)
    ensures Get(WithSettings(b, s), k) == Get(b, k)
  {
    WithSettingsGet(b, s, k);
  }

  /** Onto an object holding none of them, the settings append exactly the
      keys of those filled in. */
  lemma WithSettingsKeys(b: Dict, s: Settings)
    requires !Has(b, "secretToken") && !Has(b, "tagIds") && !Has(b, "vehicleIds")
    requires !Has(b, "driverIds") && !Has(b, "customHeaders")
    ensures Keys(WithSettings(b, s)) == Keys(b) + SettingKeys(s)
  {
    var secret := if s.secretToken != "" then ["secretToken"] else [];
    var filters := Bodies.FilterKeys(s.tagIds, s.vehicleIds, s.driverIds);
    var headers := if |s.headers| > 0 then ["customHeaders"] else [];
    var b1 := Bodies.Cond(b, s.secretToken != "", "secretToken", Str(s.secretToken));
    var b2 := Bodies.IdFilters(b1, s.tagIds, s.vehicleIds, s.driverIds);
    Bodies.CondAppends(b, s.secretToken != "", "secretToken", Str(s.secretToken));
    assert Keys(b1) == Keys(b) + secret;
    Bodies.IdFiltersKeys(b1, s.tagIds, s.vehicleIds, s.driverIds);
    assert Keys(b2) == Keys(b1) + filters;
    Bodies.CondHas(b, s.secretToken != "", "secretToken", Str(s.secretToken), "customHeaders");
    Bodies.IdFiltersHas(b1, s.tagIds, s.vehicleIds, s.driverIds, "customHeaders");
    Bodies.CondAppends(b2, |s.headers| > 0, "customHeaders", Obj(HeaderMap(s.headers)));
    assert Keys(WithSettings(b, s)) == Keys(b2) + headers;
    Bodies.Regroup(Keys(b), secret, filters, headers);
  }

  /** The statements that write the settings. */
  method AssignSettings(body: Dict, s: Settings) returns (b: Dict)
    ensures b == WithSettings(body, s)
  {
    b := Bodies.AssignIf(body, s.secretToken != "", "secretToken", Str(s.secretToken));
    b := Bodies.AssignIds(b, "tagIds", s.tagIds);
    b := Bodies.AssignIds(b, "vehicleIds", s.vehicleIds);
    b := Bodies.AssignIds(b, "driverIds", s.driverIds);
    if |s.headers| > 0 {
      var headers := BuildHeaders(s.headers);
      b := Set(b, "customHeaders", Obj(headers));
    }
  }

  // ---------------------------------------------------------------------
  // create

  /** The required part of the `create` body. */
  function CreateHead(name: string, url: string, eventTypes: seq<string>): Dict {
    [("name", Str(name)), ("url", Str(url)), ("eventTypes", StrArray(eventTypes))]
  }

  /** The body `create` sends. */
  function CreateBody(name: string, url: string, eventTypes: seq<string>, s: Settings): Dict {
    WithSettings(CreateHead(name, url, eventTypes), s)
  }

  /** The required part reads as given and holds nothing else. */
  lemma CreateHeadGet(name: string, url: string, eventTypes: seq<string>, k: string)
    ensures Get(CreateHead(name, url, eventTypes), k)
            == if k == "name" then Str(name)
               else if k == "url" then Str(url)
               else if k == "eventTypes" then StrArray(eventTypes)
               else Undefined
  {
    var head := CreateHead(name, url, eventTypes);
    GetAt(head, 1);
    GetAt(head, 2);
    if k != "name" && k != "url" && k != "eventTypes" {
      assert Keys(head) == ["name", "url", "eventTypes"];
      GetAbsent(head, k);
    }
  }

  /** The `create` body carries the name, the url and the event types as
      given, and nothing besides them and the settings. */
  lemma CreateBodyRequired(name: string, url: string, eventTypes: seq<string>, s: Settings, k: string)
    requires !SettingKey(k)
    ensures Get(CreateBody(name, url, eventTypes, s), k)
            == if k == "name" then Str(name)
               else if k == "url" then Str(url)
               else if k == "eventTypes" then StrArray(eventTypes)
               else Undefined
  {
    WithSettingsKeeps(CreateHead(name, url, eventTypes), s, k);
    CreateHeadGet(name, url, eventTypes, k);
  }

  /** Its keys: the required ones, then each setting that is filled in. */
  lemma CreateBodyKeys(name: string, url: string, eventTypes: seq<string>, s: Settings)
    ensures Keys(CreateBody(name, url, eventTypes, s)) == ["name", "url", "eventTypes"] + SettingKeys(s)
  {
    var head := CreateHead(name, url, eventTypes);
    assert Keys(head) == ["name", "url", "eventTypes"];
    WithSettingsKeys(head, s);
  }

  /** `create` */
  method CreateWebhook(server: Transport.Server, name: string, url: string, eventTypes: seq<string>, s: Settings)
    returns (r: Result<Value>)
    ensures r == Transport.AnswerOr(Transport.Request(server, Transport.POST, "/webhooks", CreateBody(name, url, eventTypes, s), []),
                        Obj([]))
  {
    var body := CreateHead(name, url, eventTypes);
    body := AssignSettings(body, s);
    var response := Transport.SamsaraApiRequest(server, Transport.POST, "/webhooks", body, []);
    r := Transport.AnswerOr(response, Obj([]));
  }

  // ---------------------------------------------------------------------
  // update

  /** The fields of `update` written before the settings: each when filled
      in, `enabled` whenever the toggle was added, even when off. */
  function ChangeHead(c: Changes): Dict {
    var b := Bodies.Cond([], c.name != "", "name", Str(c.name));
    var b := Bodies.Cond(b, c.url != "", "url", Str(c.url));
    var b := Bodies.Cond(b, |c.eventTypes| > 0, "eventTypes", StrArray(c.eventTypes));
    Bodies.Cond(b, c.enabled.Some?, "enabled", if c.enabled.Some? then Bool(c.enabled.value) else Undefined)
  }

  /** The body `update` sends. */
  function UpdateBody(c: Changes): Dict {
    WithSettings(ChangeHead(c), c.settings)
  }

  /** The keys written before the settings, in order. */
  function ChangeKeys(c: Changes): seq<string> {
    (if c.name != "" then ["name"] else [])
    + (if c.url != "" then ["url"] else [])
    + (if |c.eventTypes| > 0 then ["eventTypes"] else [])
    + (if c.enabled.Some? then ["enabled"] else [])
  }

  /** Each field before the settings reads as given when filled in, and is
      absent otherwise; nothing else is there. */
  lemma ChangeHeadGet(c: Changes, k: string)
    ensures Get(ChangeHead(c), k)
            == if k == "name" && c.name != "" then Str(c.name)
               else if k == "url" && c.url != "" then Str(c.url)
               else if k == "eventTypes" && |c.eventTypes| > 0 then StrArray(c.eventTypes)
               else if k == "enabled" && c.enabled.Some? then Bool(c.enabled.value)
               else Undefined
  {
    GetAbsent([], k);
  }

  /** They are appended in order. */
  lemma ChangeHeadKeys(c: Changes)
    ensures Keys(ChangeHead(c)) == ChangeKeys(c)
  {
    var b1 := Bodies.Cond([], c.name != "", "name", Str(c.name));
    var b2 := Bodies.Cond(b1, c.url != "", "url", Str(c.url));
    var b3 := Bodies.Cond(b2, |c.eventTypes| > 0, "eventTypes", StrArray(c.eventTypes));
    Bodies.CondAppends([], c.name != "", "name", Str(c.name));
    Bodies.CondAppends(b1, c.url != "", "url", Str(c.url));
    Bodies.CondAppends(b2, |c.eventTypes| > 0, "eventTypes", StrArray(c.eventTypes));
    Bodies.CondAppends(b3, c.enabled.Some?, "enabled", if c.enabled.Some? then Bool(c.enabled.value) else Undefined);
  }

  /** The changed fields hold no setting. */
  lemma ChangeHeadLacks(c: Changes, k: string)
    requires SettingKey(k)
    ensures !Has(ChangeHead(c), k)
  {
    var b1 := Bodies.Cond([], c.name != "", "name", Str(c.name));
    var b2 := Bodies.Cond(b1, c.url != "", "url", Str(c.url));
    var b3 := Bodies.Cond(b2, |c.eventTypes| > 0, "eventTypes", StrArray(c.eventTypes));
    Bodies.CondHas([], c.name != "", "name", Str(c.name), k);
    Bodies.CondHas(b1, c.url != "", "url", Str(c.url), k);
    Bodies.CondHas(b2, |c.eventTypes| > 0, "eventTypes", StrArray(c.eventTypes), k);
    Bodies.CondHas(b3, c.enabled.Some?, "enabled", if c.enabled.Some? then Bool(c.enabled.value) else Undefined, k);
  }

  /** The `update` body: the changed fields, then the settings, each key
      only when filled in; with nothing filled in the request goes out
      without a body. */
  lemma UpdateBodyKeys(c: Changes, webhookId: string)
    ensures Keys(UpdateBody(c)) == ChangeKeys(c) + SettingKeys(c.settings)
    ensures Transport.Options(Transport.PATCH, WebhookPath(webhookId), UpdateBody(c), []).body.None?
            <==> ChangeKeys(c) == [] && SettingKeys(c.settings) == []
  {
    var head := ChangeHead(c);
    ChangeHeadKeys(c);
    ChangeHeadLacks(c, "secretToken");
    ChangeHeadLacks(c, "tagIds");
    ChangeHeadLacks(c, "vehicleIds");
    ChangeHeadLacks(c, "driverIds");
    ChangeHeadLacks(c, "customHeaders");
    WithSettingsKeys(head, c.settings);
  }

  /** Outside the settings, the `update` body carries each changed field
      exactly when filled in, and an `enabled` toggle that was added off as
      well as on. */
  lemma UpdateBodyChanges(c: Changes, k: string)
    requires !SettingKey(k)
    ensures Get(UpdateBody(c), k)
            == if k == "name" && c.name != "" then Str(c.name)
               else if k == "url" && c.url != "" then Str(c.url)
               else if k == "eventTypes" && |c.eventTypes| > 0 then StrArray(c.eventTypes)
               else if k == "enabled" && c.enabled.Some? then Bool(c.enabled.value)
               else Undefined
  {
    WithSettingsKeeps(ChangeHead(c), c.settings, k);
    ChangeHeadGet(c, k);
  }

  /** `update` */
  method UpdateWebhook(server: Transport.Server, webhookId: string, c: Changes) returns (r: Result<Value>)
    ensures r == Transport.AnswerOr(Transport.Request(server, Transport.PATCH, WebhookPath(webhookId), UpdateBody(c), []),
                        Obj([]))
  {
    var body: Dict := [];
    body := Bodies.AssignIf(body, c.name != "", "name", Str(c.name));
    body := Bodies.AssignIf(body, c.url != "", "url", Str(c.url));
    body := Bodies.AssignIf(body, |c.eventTypes| > 0, "eventTypes", StrArray(c.eventTypes));
    body := Bodies.AssignIf(body, c.enabled.Some?, "enabled",
                            if c.enabled.Some? then Bool(c.enabled.value) else Undefined);
    body := AssignSettings(body, c.settings);
    var response := Transport.SamsaraApiRequest(server, Transport.PATCH, WebhookPath(webhookId), body, []);
    r := Transport.AnswerOr(response, Obj([]));
  }

  // ---------------------------------------------------------------------
  // get

  /** `get`: one GET of the webhook's path, with neither query nor body,
      whose `data` is handed back, or `{}` when it is missing or falsy. */
  function GetWebhook(server: Transport.Server, webhookId: string): (r: Result<Value>)
    ensures var sent := server(Transport.RequestOptions(Transport.GET, Transport.BaseUrl + WebhookPath(webhookId),
                                                        None, None, true));
            && (r.Ok? <==> sent.Ok?)
            && (r.Ok? ==> r.value == if Truthy(Transport.Data(sent.value)) then Transport.Data(sent.value) else Obj([]))
            && (r.Err? ==> r.error == Transport.RequestFailed + sent.error)
  {
    Transport.AnswerOr(Transport.Request(server, Transport.GET, WebhookPath(webhookId), [], []), Obj([]))
  }

  // ---------------------------------------------------------------------
  // getAll

  /** The query of a single page: `{ limit }`. */
  function PageQuery(limit: int): Dict {
    [("limit", Num(limit))]
  }

  /** Without `returnAll`, one request goes out, with the limit as its only
      query parameter and no body. */
  lemma PageRequest(limit: int)
    ensures Transport.Options(Transport.GET, "/webhooks", [], PageQuery(limit))
            == Transport.RequestOptions(Transport.GET, Transport.BaseUrl + "/webhooks",
                                        Some([("limit", Num(limit))]), None, true)
  {
  }

  /** `getAll`. With `returnAll` every page is read, starting from an empty
      query and without a cap; otherwise one page of `limit` items is
      asked for and its `data` (or `[]`) returned. The ghost `fuel` bounds
      the number of pages the server serves. */
  method GetAllWebhooks(server: Transport.Server, returnAll: bool, limit: int, ghost fuel: nat)
    returns (r: Result<Value>, ghost exchanges: seq<Transport.Exchange>)
    requires returnAll ==> Transport.FetchAll(server, Transport.GET, "/webhooks", [], [], None, fuel).Some?
    ensures returnAll ==>
              var t := Transport.FetchAll(server, Transport.GET, "/webhooks", [], [], None, fuel).value;
              && exchanges == t.exchanges
              && (r.Ok? <==> t.result.Ok?)
              && (r.Ok? ==> r.value == Arr(t.result.value))
              && (r.Err? ==> r.error == t.result.error)
    ensures !returnAll ==>
              r == Transport.AnswerOr(Transport.Request(server, Transport.GET, "/webhooks", [], PageQuery(limit)), Arr([]))
  {
    exchanges := [];
    if returnAll {
      var items;
      items, exchanges := Transport.SamsaraApiRequestAllItems(server, Transport.GET, "/webhooks", [], [], None, fuel);
      r := match items
           case Ok(all) => Ok(Arr(all))
           case Err(message) => Err(message);
    } else {
      var response := Transport.SamsaraApiRequest(server, Transport.GET, "/webhooks", [], PageQuery(limit));
      r := Transport.AnswerOr(response, Arr([]));
    }
  }

  /** With `returnAll`, a successful listing is every item of every page
      read, and the last page read said there was no next one. */
  lemma GetAllEveryPage(server: Transport.Server, fuel: nat, t: Transport.Fetch)
    requires Transport.FetchAll(server, Transport.GET, "/webhooks", [], [], None, fuel) == Some(t)
    requires t.result.Ok?
    ensures t.result.value == Transport.ItemsOf(t.exchanges)
    ensures |t.exchanges| >= 1 && t.exchanges[|t.exchanges| - 1].response.Ok?
    ensures !Transport.Continues(t.exchanges[|t.exchanges| - 1].response.value)
  {
    Transport.FetchUncapped(server, Transport.GET, "/webhooks", [], [], None, fuel, t);
  }

  // ---------------------------------------------------------------------
  // delete

  /** `delete`: `{success: true, webhookId}` once the request succeeded. */
  function DeleteWebhook(server: Transport.Server, webhookId: string): (r: Result<Dict>)
    ensures var sent := server(Transport.RequestOptions(Transport.DELETE, Transport.BaseUrl + WebhookPath(webhookId),
                                                        None, None, true));
            && (r.Ok? <==> sent.Ok?)
            && (r.Ok? ==> && Keys(r.value) == ["success", "webhookId"]
                          && Get(r.value, "success") == Bool(true)
                          && Get(r.value, "webhookId") == Str(webhookId))
            && (r.Err? ==> r.error == Transport.RequestFailed + sent.error)
  {
    Bodies.Confirmation(Transport.Request(server, Transport.DELETE, WebhookPath(webhookId), [], []),
                        "webhookId", webhookId)
  }
}
