/** The driver resource handler: the request bodies of `create`, `update`
    and `deactivate`, the listing of `getAll`, and the three reports
    (`getHosLogs`, `getSafetyScore`, `getPerformance`) that query one
    driver over a time range. */
module Drivers {

  import opened Json
  import Transport
  import Params
  import Bodies

  const DriversPath := "/fleet/drivers"

  /** The path of one driver, `/fleet/drivers/${driverId}`. */
  function DriverPath(driverId: string): string {
    DriversPath + "/" + driverId
  }

  /** `JSON.parse(text)`: the value the text denotes, or the message of the
      `SyntaxError` it throws. */
  type JsonParse = string -> Result<Value>

  /** The fields `create` copies as given, in the order it copies them. */
  const CreateCopied: seq<string> :=
    ["username", "password", "phone", "driverLicenseNumber", "driverLicenseState", "eldExempt", "eldExemptReason"]

  /** The fields `update` copies as given: the name, then those of `create`. */
  const UpdateCopied: seq<string> := ["name"] + CreateCopied

  // ---------------------------------------------------------------------
  // create

  /** `typeof v === 'string' ? JSON.parse(v) : v` */
  function ExternalIds(v: Value, parse: JsonParse): Result<Value> {
    if v.Str? then parse(v.s) else Ok(v)
  }

  /** The body `create` sends before the loop over the copied fields: the
      name, then the tags when set, then the external ids when set; or the
      failure to parse external ids given as text. */
  function CreateHead(name: string, fields: Dict, parse: JsonParse): Result<Dict> {
    var tagIds := Get(fields, "tagIds");
    var b := Bodies.Cond([("name", Str(name))], Truthy(tagIds), "tagIds", Bodies.Converted(Bodies.Split, tagIds));
    var externalIds := Get(fields, "externalIds");
    if !Truthy(externalIds) then Ok(b)
    else
      match ExternalIds(externalIds, parse)
      case Err(message) => Err(message)
      case Ok(v) => Ok(Set(b, "externalIds", v))
  }

  /** The body `create` sends. */
  function CreateBody(name: string, fields: Dict, parse: JsonParse): Result<Dict> {
    match CreateHead(name, fields, parse)
    case Err(message) => Err(message)
    case Ok(b) => Ok(Bodies.ForEach(b, fields, CreateCopied, Bodies.Copy))
  }

  /** `create` fails before any request exactly when external ids are given
      as text that does not parse, with the parser's message. */
  lemma CreateBodyFails(name: string, fields: Dict, parse: JsonParse)
    ensures var ext := Get(fields, "externalIds");
            && (CreateBody(name, fields, parse).Err? <==> ext.Str? && ext.s != "" && parse(ext.s).Err?)
            && (CreateBody(name, fields, parse).Err? ==> CreateBody(name, fields, parse).error == parse(ext.s).error)
  {
  }

  /** The head always names the driver, carries the tags exactly when set,
      as the trimmed comma-split list of their text, and the external ids
      exactly when set, parsed when they are text. */
  lemma CreateHeadGet(name: string, fields: Dict, parse: JsonParse, k: string)
    requires CreateHead(name, fields, parse).Ok?
    ensures var tagIds := Get(fields, "tagIds");
            var ext := Get(fields, "externalIds");
            Get(CreateHead(name, fields, parse).value, k)
            == if k == "name" then Str(name)
               else if k == "tagIds" && Truthy(tagIds) then Bodies.Converted(Bodies.Split, tagIds)
               else if k == "externalIds" && Truthy(ext) then (if ext.Str? then parse(ext.s).value else ext)
               else Undefined
  {
    var named := [("name", Str(name))];
    if k != "name" {
      GetAbsent(named, k);
    }
  }

  /** The head's keys, in insertion order. */
  lemma CreateHeadKeys(name: string, fields: Dict, parse: JsonParse)
    requires CreateHead(name, fields, parse).Ok?
    ensures Keys(CreateHead(name, fields, parse).value)
            == ["name"] + (if Truthy(Get(fields, "tagIds")) then ["tagIds"] else [])
               + (if Truthy(Get(fields, "externalIds")) then ["externalIds"] else [])
  {
    var tagIds := Get(fields, "tagIds");
    var named := [("name", Str(name))];
    Bodies.CondKeys(named, Truthy(tagIds), "tagIds", Bodies.Converted(Bodies.Split, tagIds));
  }

  /** The head holds none of the copied fields. */
  lemma CreateHeadLacks(name: string, fields: Dict, parse: JsonParse, i: nat)
    requires CreateHead(name, fields, parse).Ok? && i < |CreateCopied|
    ensures !Has(CreateHead(name, fields, parse).value, CreateCopied[i])
  {
    CreateHeadKeys(name, fields, parse);
  }

  /** A copied field is sent as given exactly when it is neither
      `undefined` nor `''`: `false` and `0` are sent too. */
  lemma CreateBodyCopied(name: string, fields: Dict, parse: JsonParse, k: string)
    requires CreateBody(name, fields, parse).Ok? && k in CreateCopied
    ensures Get(CreateBody(name, fields, parse).value, k)
            == if Bodies.Written(Bodies.Copy, Get(fields, k)) then Get(fields, k) else Undefined
  {
    var head := CreateHead(name, fields, parse).value;
    Bodies.ForEachGet(head, fields, CreateCopied, Bodies.Copy, k);
    CreateHeadGet(name, fields, parse, k);
  }

  /** Outside the copied fields, the body is the head. */
  lemma CreateBodyHead(name: string, fields: Dict, parse: JsonParse, k: string)
    requires CreateBody(name, fields, parse).Ok? && k !in CreateCopied
    ensures Get(CreateBody(name, fields, parse).value, k) == Get(CreateHead(name, fields, parse).value, k)
  {
    Bodies.ForEachGet(CreateHead(name, fields, parse).value, fields, CreateCopied, Bodies.Copy, k);
  }

  /** The body's keys: the head's, then the copied fields that are set, in
      the loop's order. */
  lemma CreateBodyKeys(name: string, fields: Dict, parse: JsonParse)
    requires CreateBody(name, fields, parse).Ok?
    ensures Keys(CreateBody(name, fields, parse).value)
            == Keys(CreateHead(name, fields, parse).value) + Bodies.WrittenNames(fields, CreateCopied, Bodies.Copy)
  {
    var head := CreateHead(name, fields, parse).value;
    forall i | 0 <= i < |CreateCopied|
      ensures !Has(head, CreateCopied[i])
    {
      CreateHeadLacks(name, fields, parse, i);
    }
    Bodies.ForEachKeys(head, fields, CreateCopied, Bodies.Copy);
  }

  /** `create` */
  method CreateDriver(server: Transport.Server, name: string, fields: Dict, parse: JsonParse)
    returns (r: Result<Value>)
    ensures CreateBody(name, fields, parse).Err? ==> r == Err(CreateBody(name, fields, parse).error)
    ensures CreateBody(name, fields, parse).Ok? ==>
              r == Transport.Answer(Transport.Request(server, Transport.POST, DriversPath,
                                                      CreateBody(name, fields, parse).value, []))
  {
    var body: Dict := [("name", Str(name))];
    var tagIds := Get(fields, "tagIds");
    body := Bodies.AssignIf(body, Truthy(tagIds), "tagIds", Bodies.Converted(Bodies.Split, tagIds));
    var externalIds := Get(fields, "externalIds");
    if Truthy(externalIds) {
      if externalIds.Str? {
        var parsed := parse(externalIds.s);
        if parsed.Err? {
          return Err(parsed.error);
        }
        body := Set(body, "externalIds", parsed.value);
      } else {
        body := Set(body, "externalIds", externalIds);
      }
    }
    body := Bodies.AssignEach(body, fields, CreateCopied, Bodies.Copy);
    var response := Transport.SamsaraApiRequest(server, Transport.POST, DriversPath, body, []);
    r := Transport.Answer(response);
  }

  // ---------------------------------------------------------------------
  // update

  /** The tags `update` sends first, when set. */
  function UpdateHead(fields: Dict): Dict {
    var tagIds := Get(fields, "tagIds");
    Bodies.Cond([], Truthy(tagIds), "tagIds", Bodies.Converted(Bodies.Split, tagIds))
  }

  /** The body `update` sends: the tags when set, then the copied fields. */
  function UpdateBody(fields: Dict): Dict {
    Bodies.ForEach(UpdateHead(fields), fields, UpdateCopied, Bodies.Copy)
  }

  /** The `update` body carries the tags exactly when set, each copied
      field exactly when neither `undefined` nor `''`, and nothing else. */
  lemma UpdateBodyGet(fields: Dict, k: string)
    ensures Get(UpdateBody(fields), k)
            == if k == "tagIds" && Truthy(Get(fields, k)) then Bodies.Converted(Bodies.Split, Get(fields, k))
               else if k in UpdateCopied && Bodies.Written(Bodies.Copy, Get(fields, k)) then Get(fields, k)
               else Undefined
  {
    var head := UpdateHead(fields);
    Bodies.ForEachGet(head, fields, UpdateCopied, Bodies.Copy, k);
    GetAbsent([], k);
    assert Get(head, k) == if k == "tagIds" && Truthy(Get(fields, k)) then Bodies.Converted(Bodies.Split, Get(fields, k))
                           else Undefined;
    if k == "tagIds" {
      TagIdsNotCopied();
    }
  }

  /** The tags are not among the fields `update` copies. */
  lemma TagIdsNotCopied()
    ensures "tagIds" !in UpdateCopied
  {
    assert forall i :: 0 <= i < |UpdateCopied| ==> UpdateCopied[i] != "tagIds";
  }

  /** Its keys: the tags when set, then the copied fields that are set, in
      the loop's order. */
  lemma UpdateBodyKeys(fields: Dict)
    ensures Keys(UpdateBody(fields))
            == (if Truthy(Get(fields, "tagIds")) then ["tagIds"] else [])
               + Bodies.WrittenNames(fields, UpdateCopied, Bodies.Copy)
  {
    UpdateHeadKeys(fields);
    UpdateHeadLacks(fields);
    Bodies.ForEachKeys(UpdateHead(fields), fields, UpdateCopied, Bodies.Copy);
  }

  lemma UpdateHeadKeys(fields: Dict)
    ensures Keys(UpdateHead(fields)) == if Truthy(Get(fields, "tagIds")) then ["tagIds"] else []
  {
    var tagIds := Get(fields, "tagIds");
    Bodies.CondKeys([], Truthy(tagIds), "tagIds", Bodies.Converted(Bodies.Split, tagIds));
  }

  /** The copied fields are distinct and the head holds none of them. */
  lemma UpdateHeadLacks(fields: Dict)
    ensures Distinct(UpdateCopied)
    ensures forall i :: 0 <= i < |UpdateCopied| ==> !Has(UpdateHead(fields), UpdateCopied[i])
  {
    UpdateHeadKeys(fields);
  }

  /** With neither the tags nor any copied field set, the request goes out
      without a body. */
  lemma UpdateWithoutBody(fields: Dict, driverId: string)
    ensures Transport.Options(Transport.PATCH, DriverPath(driverId), UpdateBody(fields), []).body.None?
            <==> !Truthy(Get(fields, "tagIds")) && Bodies.WrittenNames(fields, UpdateCopied, Bodies.Copy) == []
  {
    UpdateBodyKeys(fields);
  }

  /** `update` */
  method UpdateDriver(server: Transport.Server, driverId: string, fields: Dict) returns (r: Result<Value>)
    ensures r == Transport.Answer(Transport.Request(server, Transport.PATCH, DriverPath(driverId), UpdateBody(fields), []))
  {
    var body: Dict := [];
    var tagIds := Get(fields, "tagIds");
    body := Bodies.AssignIf(body, Truthy(tagIds), "tagIds", Bodies.Converted(Bodies.Split, tagIds));
    body := Bodies.AssignEach(body, fields, UpdateCopied, Bodies.Copy);
    var response := Transport.SamsaraApiRequest(server, Transport.PATCH, DriverPath(driverId), body, []);
    r := Transport.Answer(response);
  }

  // ---------------------------------------------------------------------
  // get

  /** `get`: one GET of the driver's path, with neither query nor body,
      whose `data` is handed back. */
  function GetDriver(server: Transport.Server, driverId: string): (r: Result<Value>)
    ensures var sent := server(Transport.RequestOptions(Transport.GET, Transport.BaseUrl + DriverPath(driverId),
                                                        None, None, true));
            && (r.Ok? <==> sent.Ok?)
            && (r.Ok? ==> r.value == Transport.Data(sent.value))
            && (r.Err? ==> r.error == Transport.RequestFailed + sent.error)
  {
    Transport.Answer(Transport.Request(server, Transport.GET, DriverPath(driverId), [], []))
  }

  // ---------------------------------------------------------------------
  // deactivate

  const DeactivationBody: Dict := [("driverActivationStatus", Str("deactivated"))]

  /** `deactivate`: a single PATCH of the driver's path, with no query and
      only the deactivated status in its body; its `data` is handed back. */
  function DeactivateDriver(server: Transport.Server, driverId: string): (r: Result<Value>)
    ensures var sent := server(Transport.RequestOptions(Transport.PATCH, Transport.BaseUrl + DriverPath(driverId),
                                 None, Some([("driverActivationStatus", Str("deactivated"))]), true));
            && (r.Ok? <==> sent.Ok?)
            && (r.Ok? ==> r.value == Transport.Data(sent.value))
            && (r.Err? ==> r.error == Transport.RequestFailed + sent.error)
  {
    Transport.Answer(Transport.Request(server, Transport.PATCH, DriverPath(driverId), DeactivationBody, []))
  }

  // ---------------------------------------------------------------------
  // getAll

  /** `getAll`: every driver, or the first `limit`, matching the filters.
      The ghost `fuel` bounds the number of pages the server serves. */
  method GetAllDrivers(server: Transport.Server, returnAll: bool, limit: int, filters: Dict, ghost fuel: nat)
    returns (r: Result<seq<Value>>, ghost exchanges: seq<Transport.Exchange>)
    requires Transport.FetchAll(server, Transport.GET, DriversPath, [], Params.QueryString(filters),
                                Transport.Cap(returnAll, limit), fuel).Some?
    ensures Transport.FetchAll(server, Transport.GET, DriversPath, [], Params.QueryString(filters),
                               Transport.Cap(returnAll, limit), fuel) == Some(Transport.Fetch(r, exchanges))
  {
    var query := Params.BuildQueryString(filters);
    if returnAll {
      r, exchanges := Transport.SamsaraApiRequestAllItems(server, Transport.GET, DriversPath, [], query, None, fuel);
    } else {
      r, exchanges := Transport.SamsaraApiRequestAllItems(server, Transport.GET, DriversPath, [], query,
                                                          Some(limit), fuel);
    }
  }

  /** Every page request of `getAll` carries each plain filter as it
      renders: set filters as given, lists comma-joined, blank ones not at
      all. */
  lemma GetAllFilters(server: Transport.Server, returnAll: bool, limit: int, filters: Dict, fuel: nat,
                      t: Transport.Fetch, i: nat, k: string)
    requires WellFormed(filters) && Params.Flat(filters)
    requires Transport.FetchAll(server, Transport.GET, DriversPath, [], Params.QueryString(filters),
                                Transport.Cap(returnAll, limit), fuel) == Some(t)
    requires i < |t.exchanges| && k != "limit" && k != "after"
    ensures Get(t.exchanges[i].query, k) == Params.Rendered(Get(filters, k))
  {
    Transport.FetchQueries(server, Transport.GET, DriversPath, [], Params.QueryString(filters),
                           Transport.Cap(returnAll, limit), fuel, t, i);
    Params.FlatQueryGet(filters, k);
  }

  // ---------------------------------------------------------------------
  // the reports

  datatype Report = HosLogs | SafetyScore | Performance

  /** The endpoint each report reads. */
  function Endpoint(report: Report): string {
    match report
    case HosLogs => "/fleet/hos/logs"
    case SafetyScore => "/fleet/drivers/safety-scores"
    case Performance => "/fleet/drivers/efficiency"
  }

  /** `{ driverIds, ...timeRange }` */
  function ReportParams(driverIds: string, timeRange: Dict): Dict {
    [("driverIds", Str(driverIds))] + timeRange
  }

  /** A report: the time range (or its `RangeError`), then one GET of the
      report's endpoint with the driver ids and the range as query, whose
      `data` (or `[]`) is handed back. */
  function ReportOf(server: Transport.Server, toIso: Params.DateToIso, report: Report,
                    driverIds: string, startTime: string, endTime: string): Result<Value>
  {
    match Params.TimeRange(toIso, Some(startTime), Some(endTime))
    case Err(message) => Err(message)
    case Ok(range) =>
      Transport.AnswerOr(Transport.Request(server, Transport.GET, Endpoint(report), [],
                                           Params.QueryString(ReportParams(driverIds, range))), Arr([]))
  }

  /** `getHosLogs`, `getSafetyScore` and `getPerformance`. */
  method RunReport(server: Transport.Server, toIso: Params.DateToIso, report: Report,
                   driverIds: string, startTime: string, endTime: string) returns (r: Result<Value>)
    ensures r == ReportOf(server, toIso, report, driverIds, startTime, endTime)
  {
    var timeRange := Params.FormatTimeRange(toIso, Some(startTime), Some(endTime));
    if timeRange.Err? {
      return Err(timeRange.error);
    }
    var query := Params.BuildQueryString(ReportParams(driverIds, timeRange.value));
    var response := Transport.SamsaraApiRequest(server, Transport.GET, Endpoint(report), [], query);
    r := Transport.AnswerOr(response, Arr([]));
  }

  /** A report fails before any request, with the `RangeError`, when a
      bound that is given is not a date. */
  lemma ReportRangeError(server: Transport.Server, toIso: Params.DateToIso, report: Report,
                         driverIds: string, startTime: string, endTime: string)
    ensures var r := ReportOf(server, toIso, report, driverIds, startTime, endTime);
            (r.Err? && r.error == Params.InvalidTimeValue)
            <== (startTime != "" && toIso(startTime).None?) || (endTime != "" && toIso(endTime).None?)
  {
  }

  /** The parameters of a report query have distinct keys and no object
      values. */
  lemma ReportParamsShape(driverIds: string, range: Dict)
    requires Keys(range) == [] || Keys(range) == ["startTime"] || Keys(range) == ["endTime"]
             || Keys(range) == ["startTime", "endTime"]
    requires forall i :: 0 <= i < |range| ==> range[i].1.Str?
    ensures WellFormed(ReportParams(driverIds, range)) && Params.Flat(ReportParams(driverIds, range))
  {
    KeysAppend([("driverIds", Str(driverIds))], range);
  }

  /** The report query carries the driver ids when not empty and each
      given bound in ISO form (which is never empty), and nothing else. */
  lemma ReportQuery(toIso: Params.DateToIso, driverIds: string, startTime: string, endTime: string, k: string)
    requires Params.TimeRange(toIso, Some(startTime), Some(endTime)).Ok?
    requires toIso(startTime).Some? ==> toIso(startTime).value != ""
    requires toIso(endTime).Some? ==> toIso(endTime).value != ""
    ensures var range := Params.TimeRange(toIso, Some(startTime), Some(endTime)).value;
            Get(Params.QueryString(ReportParams(driverIds, range)), k)
            == if k == "driverIds" then (if driverIds != "" then Str(driverIds) else Undefined)
               else if k == "startTime" && startTime != "" then Str(toIso(startTime).value)
               else if k == "endTime" && endTime != "" then Str(toIso(endTime).value)
               else Undefined
  {
    Params.TimeRangeBounds(toIso, Some(startTime), Some(endTime));
    BoundsQuery(driverIds, if startTime != "" then Some(toIso(startTime).value) else None,
                if endTime != "" then Some(toIso(endTime).value) else None, k);
  }

  /** The same, for bounds already in ISO form. */
  lemma BoundsQuery(driverIds: string, start: Option<string>, end: Option<string>, k: string)
    requires start.Some? ==> start.value != ""
    requires end.Some? ==> end.value != ""
    ensures Get(Params.QueryString(ReportParams(driverIds, Params.Bounds(start, end))), k)
            == if k == "driverIds" then (if driverIds != "" then Str(driverIds) else Undefined)
               else if k == "startTime" && start.Some? then Str(start.value)
               else if k == "endTime" && end.Some? then Str(end.value)
               else Undefined
  {
    var range := Params.Bounds(start, end);
    BoundsRendered(driverIds, start, end, k);
    if k != "driverIds" && k != "startTime" && k != "endTime" {
      Params.BoundsShape(start, end);
      RangeElsewhere(range, k);
    }
  }

  lemma BoundsRendered(driverIds: string, start: Option<string>, end: Option<string>, k: string)
    ensures Get(Params.QueryString(ReportParams(driverIds, Params.Bounds(start, end))), k)
            == if k == "driverIds" then Params.Rendered(Str(driverIds))
               else Params.Rendered(Get(Params.Bounds(start, end), k))
  {
    Params.BoundsShape(start, end);
    RangeQuery(driverIds, Params.Bounds(start, end), k);
  }

  /** Each report parameter appears in the query as it renders. */
  lemma RangeQuery(driverIds: string, range: Dict, k: string)
    requires Keys(range) == [] || Keys(range) == ["startTime"] || Keys(range) == ["endTime"]
             || Keys(range) == ["startTime", "endTime"]
    requires forall i :: 0 <= i < |range| ==> range[i].1.Str?
    ensures Get(Params.QueryString(ReportParams(driverIds, range)), k)
            == if k == "driverIds" then Params.Rendered(Str(driverIds)) else Params.Rendered(Get(range, k))
  {
    ReportParamsShape(driverIds, range);
    Params.FlatQueryGet(ReportParams(driverIds, range), k);
    ReportParamsGet(driverIds, range, k);
  }

  /** The driver ids come first; every other key reads from the range. */
  lemma ReportParamsGet(driverIds: string, range: Dict, k: string)
    ensures Get(ReportParams(driverIds, range), k) == if k == "driverIds" then Str(driverIds) else Get(range, k)
  {
    GetAppend([("driverIds", Str(driverIds))], range, k);
    if k != "driverIds" {
      assert !Has([("driverIds", Str(driverIds))], k);
    }
  }

  /** A range holds nothing but its bounds. */
  lemma RangeElsewhere(range: Dict, k: string)
    requires Keys(range) == [] || Keys(range) == ["startTime"] || Keys(range) == ["endTime"]
             || Keys(range) == ["startTime", "endTime"]
    requires k != "startTime" && k != "endTime"
    ensures Get(range, k) == Undefined
  {
    GetAbsent(range, k);
  }
}
