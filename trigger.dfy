/** The trigger node: the lifecycle of the webhook it registers with the
    fleet API (`checkExists`, `create`, `delete`), kept in one persisted
    field, the stored webhook id, and the delivery of incoming requests
    (`webhook()`). */
module Trigger {

  import opened Json
  import Transport
  import Params
  import Utils
  import Bodies

  /** Prefix of every failure `create` reports. */
  const CreateFailed := "Failed to create Samsara webhook: "

  /** The failure of a registration whose answer carries no id. */
  const NoIdReturned := "Webhook creation did not return an ID"

  /** The path of one registered webhook, `/webhooks/${id}`. */
  function HookPath(id: Value): string {
    "/webhooks/" + Display(id)
  }

  // ---------------------------------------------------------------------
  // checkExists: looking a webhook up by its URL

  /** Reading `webhook.url` on this entry does not throw. */
  predicate Readable(hook: Value) {
    !Nullish(hook)
  }

  /** The entry is registered for the callback URL. */
  predicate Matches(hook: Value, url: string) {
    Member(hook, "url") == Str(url)
  }

  /** The webhooks the listing returns, `response.data || response`, as the
      `for ... of` loop sees them. Only an array can hold a match: a string
      iterates over characters, which have no `url`, and any other value
      is not iterable, a `TypeError` the listing's `catch` swallows. */
  function Listed(response: Dict): (hooks: seq<Value>)
    ensures Transport.Data(response).Arr? ==> hooks == Transport.Data(response).items
    ensures !Truthy(Transport.Data(response)) ==> hooks == []
  {
    var webhooks := Or(Transport.Data(response), Obj(response));
    if webhooks.Arr? then webhooks.items else []
  }

  /** What the loop over the listed webhooks finds: the `id` of the first
      entry whose `url` is the callback URL, or nothing when no entry
      matches or reading an entry before the match throws. */
  function Lookup(hooks: seq<Value>, url: string): Option<Value> {
    if hooks == [] then None
    else if !Readable(hooks[0]) then None
    else if Matches(hooks[0], url) then Some(Member(hooks[0], "id"))
    else Lookup(hooks[1..], url)
  }

  /** The first matching entry is adopted when every entry before it can be
      read. */
  lemma {:induction false} LookupFirstMatch(hooks: seq<Value>, url: string, i: nat)
    requires i < |hooks| && Matches(hooks[i], url)
    requires forall j :: 0 <= j < i ==> Readable(hooks[j]) && !Matches(hooks[j], url)
    ensures Lookup(hooks, url) == Some(Member(hooks[i], "id"))
  {
    if i > 0 {
      assert Readable(hooks[0]) && !Matches(hooks[0], url);
      LookupFirstMatch(hooks[1..], url, i - 1);
    }
  }

  /** Only an entry registered for the callback URL is ever adopted. */
  lemma {:induction false} LookupSound(hooks: seq<Value>, url: string)
    requires Lookup(hooks, url).Some?
    ensures exists i :: 0 <= i < |hooks| && Matches(hooks[i], url)
                        && Lookup(hooks, url).value == Member(hooks[i], "id")
  {
    if Readable(hooks[0]) && Matches(hooks[0], url) {
      assert Matches(hooks[0], url);
    } else {
      LookupSound(hooks[1..], url);
      var i :| 0 <= i < |hooks[1..]| && Matches(hooks[1..][i], url)
               && Lookup(hooks[1..], url).value == Member(hooks[1..][i], "id");
      assert hooks[i + 1] == hooks[1..][i];
    }
  }

  /** A `null` or `undefined` entry before any match ends the search with
      nothing found: the `TypeError` it raises is swallowed. */
  lemma {:induction false} LookupStopsAtUnreadable(hooks: seq<Value>, url: string, i: nat)
    requires i < |hooks| && !Readable(hooks[i])
    requires forall j :: 0 <= j < i ==> !Matches(hooks[j], url)
    ensures Lookup(hooks, url).None?
  {
    if i > 0 && Readable(hooks[0]) {
      assert !Matches(hooks[0], url);
      LookupStopsAtUnreadable(hooks[1..], url, i - 1);
    }
  }

  /** The loop of `checkExists` over the listed webhooks, with its early
      return. */
  method FindByUrl(hooks: seq<Value>, url: string) returns (found: Option<Value>)
    ensures found == Lookup(hooks, url)
  {
    var i := 0;
    while i < |hooks|
      invariant i <= |hooks|
      invariant Lookup(hooks, url) == Lookup(hooks[i..], url)
    {
      var webhook := hooks[i];
      assert hooks[i..][1..] == hooks[i + 1..];
      if !Readable(webhook) {
        return None;
      }
      if Member(webhook, "url") == Str(url) {
        return Some(Member(webhook, "id"));
      }
      i := i + 1;
    }
    return None;
  }

  /** What `checkExists` answers and what the stored id is afterwards.
      A stored (truthy) id is kept when fetching it succeeds and deleted
      otherwise; without one, the first listed webhook for the callback URL
      is adopted, and a failed listing or no match leaves the record as it
      was. */
  function Checked(server: Transport.Server, url: string, stored: Value): (bool, Value) {
    if Truthy(stored) then
      if Transport.Request(server, Transport.GET, HookPath(stored), [], []).Ok? then (true, stored)
      else (false, Undefined)
    else
      match Transport.Request(server, Transport.GET, "/webhooks", [], [])
      case Err(_) => (false, stored)
      case Ok(response) =>
        match Lookup(Listed(response), url)
        case Some(id) => (true, id)
        case None => (false, stored)
  }

  /** With a stored id, `checkExists` answers whether fetching it succeeded,
      keeps it when it did and deletes it when it did not. */
  lemma CheckedStoredId(server: Transport.Server, url: string, stored: Value)
    requires Truthy(stored)
    ensures Checked(server, url, stored).0
            <==> Transport.Request(server, Transport.GET, HookPath(stored), [], []).Ok?
    ensures Checked(server, url, stored).1
            == if Checked(server, url, stored).0 then stored else Undefined
  {
  }

  /** Without a stored id, a `true` answer adopts the id of a listed
      webhook registered for the callback URL, and a `false` answer (a
      failed listing or no match) leaves the record unchanged. */
  lemma CheckedAdopts(server: Transport.Server, url: string, stored: Value)
    requires !Truthy(stored)
    ensures Checked(server, url, stored).0 ==>
              var response := Transport.Request(server, Transport.GET, "/webhooks", [], []);
              var hooks := Listed(response.value);
              response.Ok?
              && exists i :: 0 <= i < |hooks| && Matches(hooks[i], url)
                             && Checked(server, url, stored).1 == Member(hooks[i], "id")
    ensures !Checked(server, url, stored).0 ==> Checked(server, url, stored).1 == stored
  {
    var response := Transport.Request(server, Transport.GET, "/webhooks", [], []);
    if response.Ok? && Lookup(Listed(response.value), url).Some? {
      LookupSound(Listed(response.value), url);
    }
  }

  // ---------------------------------------------------------------------
  // create

  /** The webhook name: `n8n Webhook - ${workflow.name || 'Workflow'}`. */
  function HookName(workflowName: string): string {
    "n8n Webhook - " + (if workflowName == "" then "Workflow" else workflowName)
  }

  /** The three fields every registration sends. */
  function HookBase(url: string, events: seq<string>, workflowName: string): Dict {
    [("name", Str(HookName(workflowName))), ("url", Str(url)), ("eventTypes", StrArray(events))]
  }

  /** The registration body: the base fields, then each id filter that is
      set, as a trimmed comma-split list. An option that is not set is
      `''` here. */
  function HookBody(url: string, events: seq<string>, workflowName: string,
                    tagIds: string, vehicleIds: string, driverIds: string): Dict
  {
    Bodies.IdFilters(HookBase(url, events, workflowName), tagIds, vehicleIds, driverIds)
  }

  lemma HookBaseFields(url: string, events: seq<string>, workflowName: string)
    ensures var b := HookBase(url, events, workflowName);
            && Keys(b) == ["name", "url", "eventTypes"]
            && Get(b, "name") == Str(HookName(workflowName))
            && Get(b, "url") == Str(url)
            && Get(b, "eventTypes") == StrArray(events)
  {
    var b := HookBase(url, events, workflowName);
    GetAt(b, 1);
    GetAt(b, 2);
  }

  /** The registration always sends the name, the callback URL and the
      event types. */
  lemma HookBodyBase(url: string, events: seq<string>, workflowName: string,
                     tagIds: string, vehicleIds: string, driverIds: string)
    ensures var b := HookBody(url, events, workflowName, tagIds, vehicleIds, driverIds);
            && Get(b, "name") == Str(HookName(workflowName))
            && Get(b, "url") == Str(url)
            && Get(b, "eventTypes") == StrArray(events)
  {
    var b := HookBase(url, events, workflowName);
    HookBaseFields(url, events, workflowName);
    Bodies.IdFiltersGet(b, tagIds, vehicleIds, driverIds, "name");
    Bodies.IdFiltersGet(b, tagIds, vehicleIds, driverIds, "url");
    Bodies.IdFiltersGet(b, tagIds, vehicleIds, driverIds, "eventTypes");
  }

  /** The registration sends each id filter, as the list its option parses
      to, exactly when the option is set. */
  lemma HookBodyFilters(url: string, events: seq<string>, workflowName: string,
                        tagIds: string, vehicleIds: string, driverIds: string)
    ensures var b := HookBody(url, events, workflowName, tagIds, vehicleIds, driverIds);
            && Get(b, "tagIds") == (if tagIds != "" then Params.IdListValue(tagIds) else Undefined)
            && Get(b, "vehicleIds") == (if vehicleIds != "" then Params.IdListValue(vehicleIds) else Undefined)
            && Get(b, "driverIds") == (if driverIds != "" then Params.IdListValue(driverIds) else Undefined)
  {
    var b := HookBase(url, events, workflowName);
    Bodies.IdFiltersGet(b, tagIds, vehicleIds, driverIds, "tagIds");
    Bodies.IdFiltersGet(b, tagIds, vehicleIds, driverIds, "vehicleIds");
    Bodies.IdFiltersGet(b, tagIds, vehicleIds, driverIds, "driverIds");
    BaseLacks(url, events, workflowName, "tagIds");
    BaseLacks(url, events, workflowName, "vehicleIds");
    BaseLacks(url, events, workflowName, "driverIds");
  }

  lemma BaseLacks(url: string, events: seq<string>, workflowName: string, k: string)
    requires k != "name" && k != "url" && k != "eventTypes"
    ensures Get(HookBase(url, events, workflowName), k) == Undefined
  {
    HookBaseFields(url, events, workflowName);
    GetAbsent(HookBase(url, events, workflowName), k);
  }

  /** The registration's keys, in insertion order. */
  lemma HookBodyKeys(url: string, events: seq<string>, workflowName: string,
                     tagIds: string, vehicleIds: string, driverIds: string)
    ensures Keys(HookBody(url, events, workflowName, tagIds, vehicleIds, driverIds))
            == ["name", "url", "eventTypes"] + Bodies.FilterKeys(tagIds, vehicleIds, driverIds)
  {
    HookBaseFields(url, events, workflowName);
    Bodies.IdFiltersKeys(HookBase(url, events, workflowName), tagIds, vehicleIds, driverIds);
  }

  /** The id a registration answer carries, `response.data?.id ||
      response.id`, or the failure `create` reports: a failed request
      under the `create` prefix, or an answer without an id. */
  function Registered(response: Result<Dict>): (r: Result<Value>)
    ensures r.Ok? ==> response.Ok? && Truthy(r.value)
    ensures r.Ok? && Truthy(Member(Transport.Data(response.value), "id")) ==>
              r.value == Member(Transport.Data(response.value), "id")
    ensures r.Ok? && !Truthy(Member(Transport.Data(response.value), "id")) ==>
              r.value == Get(response.value, "id")
    ensures r.Err? ==> |r.error| >= |CreateFailed| && r.error[..|CreateFailed|] == CreateFailed
    ensures response.Err? ==> r == Err(CreateFailed + response.error)
  {
    match response
    case Err(message) => Err(CreateFailed + message)
    case Ok(answer) =>
      var id := Or(Member(Transport.Data(answer), "id"), Get(answer, "id"));
      if Truthy(id) then Ok(id) else Err(CreateFailed + NoIdReturned)
  }

  /** An answer carrying an id in neither place is a failure. */
  lemma RegisteredWithoutId(answer: Dict)
    requires !Truthy(Member(Transport.Data(answer), "id")) && !Truthy(Get(answer, "id"))
    ensures Registered(Ok(answer)) == Err(CreateFailed + NoIdReturned)
  {
  }

  // ---------------------------------------------------------------------
  // webhook(): delivery

  /** The verification ping: `body.eventType === 'WebhookTest' ||
      body.type === 'test'`. */
  predicate IsPing(body: Dict) {
    Get(body, "eventType") == Str("WebhookTest") || Get(body, "type") == Str("test")
  }

  /** The acknowledgement a ping produces, stamped with the current time. */
  function Acknowledgement(now: string): Dict {
    [("eventType", Str("WebhookTest")),
     ("message", Str("Webhook verification successful")),
     ("timestamp", Str(now))]
  }

  /** The item `webhook()` hands to the workflow: the acknowledgement for a
      ping, the request body unchanged for anything else. */
  function Delivered(body: Dict, now: string): (item: Dict)
    ensures IsPing(body) ==> item == Acknowledgement(now)
    ensures !IsPing(body) ==> item == body
  {
    if IsPing(body) then Acknowledgement(now) else body
  }

  /** The acknowledgement is itself a ping, stamped with the time it was
      made and carrying only its three fields; delivering it again at that
      time gives it back. */
  lemma AcknowledgementIsPing(body: Dict, now: string)
    requires IsPing(body)
    ensures Keys(Delivered(body, now)) == ["eventType", "message", "timestamp"]
    ensures Get(Delivered(body, now), "timestamp") == Str(now)
    ensures IsPing(Delivered(body, now))
    ensures Delivered(Delivered(body, now), now) == Delivered(body, now)
  {
    GetAt(Acknowledgement(now), 2);
  }

  /** A body that is not a ping reaches the workflow with every key and
      value it had. */
  lemma EventForwarded(body: Dict, now: string, k: string)
    requires !IsPing(body)
    ensures Keys(Delivered(body, now)) == Keys(body)
    ensures Get(Delivered(body, now), k) == Get(body, k)
  {
  }

  // ---------------------------------------------------------------------
  // The node

  /** The trigger node of one workflow: its callback URL and the webhook
      id kept in the workflow's static data (`undefined` once deleted). */
  class SamsaraTrigger {
    const webhookUrl: string
    var webhookId: Value

    constructor(webhookUrl: string, webhookId: Value)
      ensures this.webhookUrl == webhookUrl && this.webhookId == webhookId
    {
      this.webhookUrl := webhookUrl;
      this.webhookId := webhookId;
    }

    /** `checkExists()` */
    method CheckExists(server: Transport.Server, license: Utils.License) returns (exists_: bool)
      requires license.Valid()
      modifies this, license
      ensures license.Valid() && license.licenseLogged
      ensures (exists_, webhookId) == Checked(server, webhookUrl, old(webhookId))
    {
      license.LogLicenseNotice();
      if Truthy(webhookId) {
        var fetched := Transport.SamsaraApiRequest(server, Transport.GET, HookPath(webhookId), [], []);
        if fetched.Ok? {
          return true;
        }
        webhookId := Undefined;
        return false;
      }
      var response := Transport.SamsaraApiRequest(server, Transport.GET, "/webhooks", [], []);
      if response.Err? {
        return false;
      }
      var found := FindByUrl(Listed(response.value), webhookUrl);
      if found.Some? {
        webhookId := found.value;
        return true;
      }
      return false;
    }

    /** `create()`: registers the callback URL for the selected events, with
        the optional id filters (`''` when not set), and stores the id the
        answer carries. On failure the stored id is left as it was. */
    method Create(server: Transport.Server, license: Utils.License, events: seq<string>,
                  workflowName: string, tagIds: string, vehicleIds: string, driverIds: string)
      returns (r: Result<bool>)
      requires license.Valid()
      modifies this, license
      ensures license.Valid() && license.licenseLogged
      ensures var outcome := Registered(Transport.Request(server, Transport.POST, "/webhooks",
                                          HookBody(webhookUrl, events, workflowName, tagIds, vehicleIds, driverIds), []));
              && (r.Ok? <==> outcome.Ok?)
              && (r.Ok? ==> r.value && webhookId == outcome.value)
              && (r.Err? ==> r.error == outcome.error && webhookId == old(webhookId))
    {
      license.LogLicenseNotice();
      var body := HookBase(webhookUrl, events, workflowName);
      body := Bodies.AssignIds(body, "tagIds", tagIds);
      body := Bodies.AssignIds(body, "vehicleIds", vehicleIds);
      body := Bodies.AssignIds(body, "driverIds", driverIds);
      var response := Transport.SamsaraApiRequest(server, Transport.POST, "/webhooks", body, []);
      if response.Err? {
        return Err(CreateFailed + response.error);
      }
      var id := Or(Member(Transport.Data(response.value), "id"), Get(response.value, "id"));
      if !Truthy(id) {
        return Err(CreateFailed + NoIdReturned);
      }
      webhookId := id;
      return Ok(true);
    }

    /** `delete()`: with a stored id, asks for its removal, ignores a
        failure, and deletes the stored id; always reports success. The
        ghost `requested` records the path the method passes to the
        request; as the server is a stateless function, it states which
        path is asked for, not that the server received it. */
    method Delete(server: Transport.Server) returns (r: bool, ghost requested: Option<string>)
      modifies this
      ensures r
      ensures requested == if Truthy(old(webhookId)) then Some(HookPath(old(webhookId))) else None
      ensures !Truthy(webhookId)
      ensures !Truthy(old(webhookId)) ==> webhookId == old(webhookId)
      ensures Truthy(old(webhookId)) ==> webhookId == Undefined
    {
      requested := None;
      if Truthy(webhookId) {
        requested := Some(HookPath(webhookId));
        var _ := Transport.SamsaraApiRequest(server, Transport.DELETE, HookPath(webhookId), [], []);
        webhookId := Undefined;
      }
      r := true;
    }
  }

  /** `webhook()`: writes the licensing notice and delivers the request. */
  method Webhook(license: Utils.License, body: Dict, now: string) returns (item: Dict)
    requires license.Valid()
    modifies license
    ensures license.Valid() && license.licenseLogged
    ensures item == Delivered(body, now)
  {
    license.LogLicenseNotice();
    if Get(body, "eventType") == Str("WebhookTest") || Get(body, "type") == Str("test") {
      return Acknowledgement(now);
    }
    return body;
  }
}
