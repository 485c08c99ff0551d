# Samsara fleet connector: a Dafny model of its core

This project models the core of an n8n connector for the Samsara fleet
management API and proves properties of it. The model covers:

- the transport layer: a single authenticated request and the cursor-paged
  listing (`samsaraApiRequest`, `samsaraApiRequestAllItems`), and the
  query and parameter helpers (`buildQueryString`, `formatTimeRange`,
  `parseIdList`, `handleSamsaraError`);
- the trigger node: registering, finding and removing its webhook, and
  delivering incoming events;
- the formatting helpers (`simplifyOutput`, `formatGeofence`,
  `formatStopObject`) and the once-per-process licensing notice;
- the `tag`, `webhook` and `driver` resource handlers, which build request
  bodies from form fields and shape the API's answers.

JavaScript values are modelled by `Json.Value`. Objects are `Dict`s:
association lists in insertion order, so key order is part of every
contract. Reading a missing key gives `undefined`. Truthiness, `||` and
property reads on `null` or `undefined` follow JavaScript; `Has` sees
only an object's own keys. The HTTP client
is a function parameter `Server` from request options to a response or an
error message. Every handler is stated against the exact options it
sends.

Modules and files:

| file | module | models |
|---|---|---|
| json.dfy | Json | JavaScript values, objects as ordered key lists, truthiness |
| text.dfy | Text | `split`, `join` and `trim` on strings |
| params.dfy | Params | `buildQueryString`, `formatTimeRange`, `parseIdList`, `handleSamsaraError` |
| transport.dfy | Transport | `samsaraApiRequest` and `samsaraApiRequestAllItems` |
| bodies.dfy | Bodies | the body-building statements the handlers share: conditional assignment, id filters, copy loops, delete confirmations |
| utils.dfy | Utils | `simplifyOutput`, `formatGeofence`, `formatStopObject`, `logLicenseNotice` |
| trigger.dfy | Trigger | the trigger node's webhook lifecycle and event delivery |
| tags.dfy | Tags | the tag handler |
| webhooks.dfy | Webhooks | the webhook handler |
| drivers.dfy | Drivers | the driver handler |

Some behaviour the code shows, which the model keeps as written:

- The trigger's answer to Samsara's verification ping (`WebhookTest`) is
  emitted as a workflow item, like any other event (`Trigger.Delivered`).
- `buildQueryString` tests for blank values before joining an array. An
  array such as `['']` or `[null]` therefore joins to `''`, and that empty
  string is sent (`Params.EmptyJoinEmitted`).
- A negative listing limit is truthy. The listing then stops after the
  first page and returns `slice(0, limit)`, which drops items from the
  back of that page (`Transport.FetchNegativeLimit`).

## Model

| member | source | states |
|---|---|---|
| Transport.Options | nodes/Samsara/transport/index.ts:37-51 | the options carry the method, `BASE_URL` + endpoint and `json: true`; the body is left out exactly when it has no keys, and so is the query string |
| Transport.Request | nodes/Samsara/transport/index.ts:53-64 | a request succeeds exactly when the server answers, with that answer; a failure carries `Samsara API request failed: ` followed by the server's message |
| Transport.SamsaraApiRequest | nodes/Samsara/transport/index.ts:30-65 | the method sends exactly the request `Transport.Request` describes |
| Transport.PageItems | nodes/Samsara/transport/index.ts:88-91 | a page adds nothing when its `data` is falsy, the array's items when it is an array, and the value itself otherwise |
| Transport.SliceTo | nodes/Samsara/transport/index.ts:96 | `slice(0, end)`: the first `end` items, everything when `end` is past the end, and for a negative `end` all but the last `-end` |
| Transport.After | nodes/Samsara/transport/index.ts:82-84 | the next query holds the page's end cursor under `after` and is otherwise unchanged |
| Transport.FetchIsListing | nodes/Samsara/transport/index.ts:67-101 | the recursive listing yields a result exactly when that result is a trace of pages: each page answers its query, each next query follows the previous cursor, pages stop at the cap or at the last page, and the result is what the trace accumulates |
| Transport.FetchFuel | nodes/Samsara/transport/index.ts:81-98 | a listing that finishes within some number of pages gives the same result with any larger bound |
| Transport.FetchQueries | nodes/Samsara/transport/index.ts:79-84 | every page query has `limit` set to the caller's limit or 512, and every key other than `limit` and `after` is the caller's |
| Transport.FetchCursors | nodes/Samsara/transport/index.ts:82-93 | the first page uses the caller's `after`; every later page asks for the end cursor of the page before it, and that page succeeded |
| Transport.FetchGoesOnOnlyWithCursor | nodes/Samsara/transport/index.ts:98 | a page is followed by another only when it succeeded, said `hasNextPage`, and gave a truthy end cursor |
| Transport.FetchFailed | nodes/Samsara/transport/index.ts:86 | a failing page request ends the listing with that request's error |
| Transport.FetchCapped | nodes/Samsara/transport/index.ts:95-97 | once the items reach a nonzero cap, the listing stops and returns the sliced items |
| Transport.FetchDone | nodes/Samsara/transport/index.ts:98-100 | a page with no next page ends the listing with everything gathered |
| Transport.FetchContinues | nodes/Samsara/transport/index.ts:81-98 | a page below the cap that has a next page is followed by a listing from `After(query, page)` with the items so far |
| Transport.FetchUncapped | nodes/Samsara/transport/index.ts:67-101 | without a cap (or with cap 0), a successful listing is every item of every page read, and the last page read had no next page |
| Transport.FetchCappedPrefix | nodes/Samsara/transport/index.ts:95-97 | with a positive cap, the result is the first `limit` items read, or all of them when fewer; never more than `limit` |
| Transport.FetchNegativeLimit | nodes/Samsara/transport/index.ts:95-97 | with a negative cap exactly one page is read, and the result is `slice(0, limit)` of its items |
| Transport.SamsaraApiRequestAllItems | nodes/Samsara/transport/index.ts:67-101 | the loop returns the result and exchange trace of the recursive listing `FetchAll` |
| Transport.Answer | nodes/Samsara/actions/tag/index.ts:282-283 | a handler's answer is the response's `data`, or the request's error |
| Transport.AnswerOr | nodes/Samsara/actions/webhook/index.ts:422 | `response.data \|\| fallback`, or the request's error |
| Params.BuildQueryString | nodes/Samsara/transport/index.ts:103-126 | the loop builds the query `QueryString` describes |
| Params.SetNested | nodes/Samsara/transport/index.ts:114-118 | the inner loop writes each non-blank property of an object parameter under `key[nestedKey]` |
| Params.QueryStringValues | nodes/Samsara/transport/index.ts:107-121 | no emitted query value is `undefined` or `null`, and an emitted `''` comes only from an array parameter |
| Params.FlatQueryGet | nodes/Samsara/transport/index.ts:106-121 | for parameters that are not objects, each key of the query is the rendered parameter: blank ones absent, arrays comma-joined, empty arrays absent, others unchanged |
| Params.FlatQueryKeys | nodes/Samsara/transport/index.ts:103-126 | for parameters that are not objects, the query's keys are those of the parameters that render, in parameter order |
| Params.NestedQueryString | nodes/Samsara/transport/index.ts:112-118 | for a single object parameter, each `key[nestedKey]` holds the property's value unchanged, or is absent when that property is blank |
| Params.NestedQueryKeys | nodes/Samsara/transport/index.ts:112-118 | for a single object parameter, the query is exactly its non-blank properties under `key[nestedKey]`, in property order, each once |
| Params.EmptyJoinEmitted | nodes/Samsara/transport/index.ts:107-110 | the array `['']` passes the blank test and is sent as `''` |
| Params.BracketInjective | nodes/Samsara/transport/index.ts:116 | distinct nested keys give distinct flattened keys |
| Params.TimeRange | nodes/Samsara/transport/index.ts:128-140 | a key for exactly each given bound, holding its ISO form; the `RangeError` exactly when a given bound is not a date |
| Params.TimeRangeBounds | nodes/Samsara/transport/index.ts:128-140 | a successful range is the ordered object of the ISO forms of the given bounds |
| Params.BoundsShape | nodes/Samsara/transport/index.ts:129-139 | a range has no keys, `startTime`, `endTime`, or both in that order, and only string values |
| Params.FormatTimeRange | nodes/Samsara/transport/index.ts:128-140 | the method computes `TimeRange` |
| Params.ParseIdList | nodes/Samsara/transport/index.ts:142-147 | an array is returned as is; a string gives one id per piece of its comma split, in order, each the trimmed piece, so one more id than it has commas, none holding a comma |
| Params.ParseJoined | nodes/Samsara/transport/index.ts:146 | parsing ids written out with commas gives those ids back, when none holds a comma or surrounding space |
| Params.HandleSamsaraError | nodes/Samsara/transport/index.ts:149-154 | the message is `Samsara API Error: ` followed by the error's message, or by the unknown-error text for a non-`Error` |
| Text.JoinSplit | nodes/Samsara/transport/index.ts:146 | joining a split with the same separator gives back the string |
| Text.SplitJoin | nodes/Samsara/transport/index.ts:146 | splitting pieces joined with a separator they lack gives back the pieces |
| Text.SplitLength | nodes/Samsara/transport/index.ts:146 | a split has one more piece than the string has separators |
| Text.Trim | nodes/Samsara/transport/index.ts:146 | the trimmed string is the middle of the original, with only whitespace cut off, and starts and ends with non-whitespace |
| Text.TrimIdempotent | nodes/Samsara/transport/index.ts:146 | trimming twice is trimming once |
| Utils.SimplifyOutput | nodes/Samsara/utils/index.ts:10-22 | without fields the data itself; otherwise exactly the listed fields the data has, with their values, in listed order, each once |
| Utils.FormatGeofence | nodes/Samsara/utils/index.ts:24-45 | `{}` for a falsy geofence; otherwise the type (default `circle`) and either the circle (centre, radius or 100) or the polygon (vertices or `[]`) |
| Utils.GeofenceDefaults | nodes/Samsara/utils/index.ts:27-41 | a geofence without a type is a circle whose radius is the given one, or 100 when that is falsy; a polygon keeps its vertex array |
| Utils.PlaceStop | nodes/Samsara/utils/index.ts:48-57 | the statements build the name, then the address or else both coordinates |
| Utils.Place | nodes/Samsara/utils/index.ts:48-57 | the place holds the name and the address when set, else both coordinates when both are set, else nothing more |
| Utils.FormatStopObject | nodes/Samsara/utils/index.ts:47-74 | the method computes `FormattedStop`: the `RangeError` of a schedule time that is not a date, or the formatted stop |
| Utils.StopObjectKeys | nodes/Samsara/utils/index.ts:47-74 | the keys are the name, the place, then each given schedule time and the notes, in that order |
| Utils.StopPlaceFields | nodes/Samsara/utils/index.ts:48-57 | the name and the place fields are copied unchanged |
| Utils.StopArrival | nodes/Samsara/utils/index.ts:59-61 | the arrival is present exactly when given, in ISO form |
| Utils.StopDeparture | nodes/Samsara/utils/index.ts:63-67 | the departure is present exactly when given, in ISO form |
| Utils.StopNotes | nodes/Samsara/utils/index.ts:69-71 | the notes are present exactly when truthy, unchanged |
| Utils.NameOnlyStop | nodes/Samsara/utils/index.ts:47-74 | a stop with only a name formats to just its name |
| Utils.License.constructor | nodes/Samsara/utils/index.ts:141-143 | a fresh process has the flag unset and no notice written |
| Utils.License.LogLicenseNotice | nodes/Samsara/utils/index.ts:141-157 | the notice is written only when the flag is unset, then the flag is set; the notice is written at most once |
| Bodies.Cond | nodes/Samsara/actions/tag/index.ts:268-270 | `if (c) body[k] = v`: only `k` changes, and only when `c` holds |
| Bodies.CondKeys | nodes/Samsara/actions/tag/index.ts:268-270 | a conditional assignment appends its key exactly when it runs and the key is new |
| Bodies.IdFilter | nodes/Samsara/actions/webhook/index.ts:399-401 | a non-empty id string sets its key to the parsed id list; nothing else changes |
| Bodies.IdFiltersGet | nodes/Samsara/actions/webhook/index.ts:399-409 | each of `tagIds`, `vehicleIds`, `driverIds` is its parsed list when given; every other key is unchanged |
| Bodies.IdFiltersKeys | nodes/Samsara/actions/webhook/index.ts:399-409 | the given filters are appended in assignment order |
| Bodies.AssignEach | nodes/Samsara/actions/driver/index.ts:433-437 | the loop over the field names builds `ForEach` |
| Bodies.ForEachGet | nodes/Samsara/actions/driver/index.ts:433-437 | after the loop, a listed field is its converted value exactly when its test passes; every other key is unchanged |
| Bodies.ForEachKeys | nodes/Samsara/actions/driver/index.ts:433-437 | the loop appends, in list order, exactly the fields whose test passes |
| Bodies.Confirmation | nodes/Samsara/actions/tag/index.ts:322-323 | a delete answers `{success: true, <idKey>: id}` exactly when the request succeeded, and passes its error on otherwise |
| Trigger.Listed | nodes/Samsara/SamsaraTrigger.node.ts:203-206 | the listing iterated is the array `data`, or nothing when `data` is falsy |
| Trigger.FindByUrl | nodes/Samsara/SamsaraTrigger.node.ts:206-211 | the loop finds what `Lookup` describes |
| Trigger.LookupFirstMatch | nodes/Samsara/SamsaraTrigger.node.ts:206-211 | the id of the first webhook registered for the URL is adopted |
| Trigger.LookupSound | nodes/Samsara/SamsaraTrigger.node.ts:206-211 | an adopted id belongs to a webhook registered for the URL |
| Trigger.LookupStopsAtUnreadable | nodes/Samsara/SamsaraTrigger.node.ts:206-214 | a `null` entry before any match ends the search without a match |
| Trigger.CheckedStoredId | nodes/Samsara/SamsaraTrigger.node.ts:186-198 | with a stored id, the webhook exists exactly when reading it succeeds, and the id is forgotten otherwise |
| Trigger.CheckedAdopts | nodes/Samsara/SamsaraTrigger.node.ts:201-216 | without a stored id, the webhook exists only when the listing holds one registered for the URL, whose id is stored |
| Trigger.SamsaraTrigger.CheckExists | nodes/Samsara/SamsaraTrigger.node.ts:179-217 | logs the notice, then answers and updates the stored id as `Checked` says |
| Trigger.HookBaseFields | nodes/Samsara/SamsaraTrigger.node.ts:227-231 | the body names the webhook after the workflow and holds the URL and the event types |
| Trigger.HookBodyFilters | nodes/Samsara/SamsaraTrigger.node.ts:233-243 | each id filter is present exactly when given, as its parsed list |
| Trigger.HookBodyKeys | nodes/Samsara/SamsaraTrigger.node.ts:227-243 | the keys are `name`, `url`, `eventTypes`, then the given filters in order |
| Trigger.Registered | nodes/Samsara/SamsaraTrigger.node.ts:245-258 | success gives a truthy id, from `data.id` or else the top-level `id`; every failure carries the `Failed to create Samsara webhook: ` prefix |
| Trigger.RegisteredWithoutId | nodes/Samsara/SamsaraTrigger.node.ts:250-252 | an answer without an id fails with the missing-id message |
| Trigger.SamsaraTrigger.Create | nodes/Samsara/SamsaraTrigger.node.ts:219-259 | posts the built body; on success stores the returned id, on failure keeps the stored id and reports the prefixed error |
| Trigger.SamsaraTrigger.Delete | nodes/Samsara/SamsaraTrigger.node.ts:261-280 | always answers true; deletes the stored webhook when there is one and forgets its id, whatever the request's outcome |
| Trigger.Delivered | nodes/Samsara/SamsaraTrigger.node.ts:297-313 | a ping is answered with the acknowledgement; any other body is forwarded unchanged |
| Trigger.AcknowledgementIsPing | nodes/Samsara/SamsaraTrigger.node.ts:298-307 | the acknowledgement has its three keys and the given time, is itself a ping, and is delivered unchanged |
| Trigger.EventForwarded | nodes/Samsara/SamsaraTrigger.node.ts:311-313 | an event is forwarded with the same keys and values |
| Trigger.SamsaraTrigger.Webhook | nodes/Samsara/SamsaraTrigger.node.ts:284-314 | logs the notice and emits `Delivered` |
| Tags.BuildTagBody | nodes/Samsara/actions/tag/index.ts:266-280 | the statements build `TagBody` |
| Tags.TagBodyEntity | nodes/Samsara/actions/tag/index.ts:273-280 | each association is present exactly when set, as the parsed id list of its text |
| Tags.TagBodyOthers | nodes/Samsara/actions/tag/index.ts:266-270 | the body always names the tag, holds the parent tag only when set, and nothing else |
| Tags.TagBodyKeys | nodes/Samsara/actions/tag/index.ts:266-280 | the keys are `name`, the parent tag when set, then the set associations in loop order |
| Tags.CreateTag | nodes/Samsara/actions/tag/index.ts:262-285 | posts `TagBody` to `/tags` and answers its `data` |
| Tags.GetTag | nodes/Samsara/actions/tag/index.ts:287-292 | one GET of `/tags/<id>` with neither query nor body; its `data` or its error |
| Tags.GetAllTags | nodes/Samsara/actions/tag/index.ts:294-305 | the listing of `/tags` from an empty query, capped at `limit` unless `returnAll` |
| Tags.GetAllTagsItems | nodes/Samsara/actions/tag/index.ts:294-305 | uncapped, every item of every page; capped, at most `limit` items from the front |
| Tags.UpdateBodyFields | nodes/Samsara/actions/tag/index.ts:310-315 | the name and the parent tag appear exactly when set, in that order; with neither, the request has no body |
| Tags.UpdateTag | nodes/Samsara/actions/tag/index.ts:306-318 | patches the tag with `UpdateBody` and answers its `data` |
| Tags.DeleteTag | nodes/Samsara/actions/tag/index.ts:320-325 | one DELETE of `/tags/<id>`; on success `{success: true, tagId}`, else the request's error |
| Tags.AssignBody | nodes/Samsara/actions/tag/index.ts:332-335 | the body's only key is the entity type, holding one object `{id}` with no other key per parsed id, in order |
| Tags.AssignJoined | nodes/Samsara/actions/tag/index.ts:332-335 | assigning comma-joined plain ids sends exactly those ids |
| Tags.AssignTag | nodes/Samsara/actions/tag/index.ts:327-340 | one PATCH of `/tags/<id>` that always carries the assignment body; on success its `data`, on failure its error after the failure prefix |
| Tags.RemainingFails | nodes/Samsara/actions/tag/index.ts:351-353 | the filter fails exactly when some entity is `null` or `undefined` |
| Tags.RemainingMembers | nodes/Samsara/actions/tag/index.ts:351-353 | an entity is kept exactly when it is listed and its id is not removed |
| Tags.RemainingConcat | nodes/Samsara/actions/tag/index.ts:351-353 | filtering a concatenation filters each part, in order |
| Tags.UnassignAbsentList | nodes/Samsara/actions/tag/index.ts:349-357 | a tag without a list for the type is written back with an empty one |
| Tags.UnassignKeeps | nodes/Samsara/actions/tag/index.ts:349-357 | the list written back holds one object `{id}` per entity the filter keeps, in order, carrying that entity's id |
| Tags.RelistedIds | nodes/Samsara/actions/tag/index.ts:356 | relisting entities as `{id}` keeps their ids |
| Tags.UnassignTag | nodes/Samsara/actions/tag/index.ts:342-362 | a failed read gives its error after the failure prefix; a filter `TypeError` is the error; otherwise the filtered list is patched back to the same path, giving the PATCH's `data` or its prefixed error |
| Webhooks.BuildHeaders | nodes/Samsara/actions/webhook/index.ts:414-417 | the loop over header rows builds `HeaderMap` |
| Webhooks.HeaderPresent | nodes/Samsara/actions/webhook/index.ts:414-417 | a header is present exactly when some row names it |
| Webhooks.HeaderLastWins | nodes/Samsara/actions/webhook/index.ts:415-417 | a header holds the value of the last row naming it |
| Webhooks.HeaderAbsent | nodes/Samsara/actions/webhook/index.ts:414-417 | a header no row names is absent |
| Webhooks.HeaderMapWellFormed | nodes/Samsara/actions/webhook/index.ts:414-417 | the header object has each name once |
| Webhooks.AssignSettings | nodes/Samsara/actions/webhook/index.ts:395-420 | the statements build `WithSettings` |
| Webhooks.WithSettingsGet | nodes/Samsara/actions/webhook/index.ts:395-420 | the secret, each id filter and the custom headers are present exactly when given; every other key is unchanged |
| Webhooks.WithSettingsKeys | nodes/Samsara/actions/webhook/index.ts:395-420 | the given settings are appended in assignment order |
| Webhooks.CreateBodyRequired | nodes/Samsara/actions/webhook/index.ts:389-393 | the body always holds the name, the URL and the event types, and no other key outside the settings |
| Webhooks.CreateBodyKeys | nodes/Samsara/actions/webhook/index.ts:389-420 | the keys are `name`, `url`, `eventTypes`, then the given settings in order |
| Webhooks.CreateWebhook | nodes/Samsara/actions/webhook/index.ts:383-423 | posts `CreateBody` to `/webhooks` and answers `data \|\| {}` |
| Webhooks.GetWebhook | nodes/Samsara/actions/webhook/index.ts:425-428 | one GET of `/webhooks/<id>` with neither query nor body; `data \|\| {}` or its error |
| Webhooks.PageRequest | nodes/Samsara/actions/webhook/index.ts:437-439 | a single page is requested with `limit` as the only query parameter and no body |
| Webhooks.GetAllWebhooks | nodes/Samsara/actions/webhook/index.ts:430-442 | with `returnAll` the uncapped listing as an array; otherwise one page's `data \|\| []` |
| Webhooks.GetAllEveryPage | nodes/Samsara/actions/webhook/index.ts:434-435 | with `returnAll`, a successful listing is every item of every page, ending at a page with no next page |
| Webhooks.ChangeHeadGet | nodes/Samsara/actions/webhook/index.ts:450-464 | name and URL when non-empty, event types when non-empty, `enabled` whenever it was added |
| Webhooks.UpdateBodyKeys | nodes/Samsara/actions/webhook/index.ts:448-491 | the keys are the changed fields, then the given settings, in order; the request has no body exactly when nothing is given |
| Webhooks.UpdateBodyChanges | nodes/Samsara/actions/webhook/index.ts:448-464 | outside the settings, the body holds exactly the given changes |
| Webhooks.UpdateWebhook | nodes/Samsara/actions/webhook/index.ts:444-494 | patches the webhook with `UpdateBody` and answers `data \|\| {}` |
| Webhooks.DeleteWebhook | nodes/Samsara/actions/webhook/index.ts:496-500 | one DELETE of `/webhooks/<id>`; on success `{success: true, webhookId}`, else the request's error |
| Drivers.CreateBodyFails | nodes/Samsara/actions/driver/index.ts:416-421 | building the body fails exactly when `externalIds` is a non-empty string that does not parse, with the parser's error |
| Drivers.CreateHeadGet | nodes/Samsara/actions/driver/index.ts:410-421 | the name; the parsed tag ids when set; `externalIds` parsed when a string, as given otherwise |
| Drivers.CreateHeadKeys | nodes/Samsara/actions/driver/index.ts:410-421 | the keys are `name`, then `tagIds` and `externalIds` when set |
| Drivers.CreateBodyCopied | nodes/Samsara/actions/driver/index.ts:424-437 | each copied field is present exactly when neither `undefined` nor `''`, so `false` and `0` are copied |
| Drivers.CreateBodyHead | nodes/Samsara/actions/driver/index.ts:410-437 | the copy loop leaves every other key as the head set it |
| Drivers.CreateBodyKeys | nodes/Samsara/actions/driver/index.ts:410-437 | the keys are the head's, then the copied fields in list order |
| Drivers.CreateDriver | nodes/Samsara/actions/driver/index.ts:406-442 | a body that fails to build is the error; otherwise posts it to `/fleet/drivers` and answers its `data` |
| Drivers.GetDriver | nodes/Samsara/actions/driver/index.ts:444-449 | one GET of `/fleet/drivers/<id>` with neither query nor body; its `data` or its error |
| Drivers.GetAllDrivers | nodes/Samsara/actions/driver/index.ts:451-476 | the listing of `/fleet/drivers` from the built query, capped at `limit` unless `returnAll` |
| Drivers.GetAllFilters | nodes/Samsara/actions/driver/index.ts:453-473 | every page query carries each filter as it renders: set values as given, lists comma-joined, blank ones absent |
| Drivers.UpdateBodyGet | nodes/Samsara/actions/driver/index.ts:482-502 | the parsed tag ids when set; each copied field when neither `undefined` nor `''`; nothing else |
| Drivers.UpdateBodyKeys | nodes/Samsara/actions/driver/index.ts:482-502 | the keys are `tagIds` when set, then the copied fields in list order |
| Drivers.UpdateWithoutBody | nodes/Samsara/actions/driver/index.ts:482-509 | the request has no body exactly when no field is set |
| Drivers.UpdateDriver | nodes/Samsara/actions/driver/index.ts:478-512 | patches the driver with `UpdateBody` and answers its `data` |
| Drivers.DeactivateDriver | nodes/Samsara/actions/driver/index.ts:514-524 | one PATCH of `/fleet/drivers/<id>` whose body is only the deactivated status; its `data` or its error |
| Drivers.RunReport | nodes/Samsara/actions/driver/index.ts:526-584 | the statements of each report compute `ReportOf` |
| Drivers.ReportRangeError | nodes/Samsara/actions/driver/index.ts:528-530 | a given start or end time that is not a date fails the report with the `RangeError` |
| Drivers.ReportQuery | nodes/Samsara/actions/driver/index.ts:530-535 | the report's query holds the driver ids when non-empty, and the ISO form of each given bound, and nothing else |
| Drivers.ReportParamsShape | nodes/Samsara/actions/driver/index.ts:532-535 | the report parameters have distinct keys and no object values |

## Left out

- HTTP, authentication and the n8n runtime are not modelled; the server
  is a function parameter from request options to an answer or an error
  message. `NodeApiError`'s other fields are not modelled, only its
  message.
- `new Date(s).toISOString()` and `JSON.parse` are function parameters;
  date parsing and JSON syntax are not modelled.
- Numbers are mathematical integers; floating point and `NaN` are not
  modelled.
- Object keys keep insertion order; JavaScript's rule that integer-like
  keys come first is not modelled.
- The paged listing terminates only if the server ends it; a ghost page
  bound (`fuel`) stands in for that, and a listing that needs more pages
  than the bound is not described.
- Transport.SamsaraApiRequestAllItems: works on a copy of the query, so
  the caller's `query` object is not left holding the `limit` and `after`
  the loop writes into it; the tag, webhook and driver handlers build a
  fresh query for each call and do not read it afterwards.
- Trigger.Listed: answers are modelled as JSON objects, the declared
  `ISamsaraResponse`, so the fallback of `response.data || response` is
  never an array; a bare-array answer to `GET /webhooks`, which the code
  would iterate and could adopt an id from, is not modelled.
- Utils.SimplifyOutput: `field in data` also finds inherited properties
  such as `constructor`; the model's `Has` sees only own keys.
- `Trigger.SamsaraTrigger.Delete`: the warning it writes when the delete
  request fails is not modelled.
- The form hands the handlers typed values: the webhook settings and the
  trigger's id filters are strings, and an empty string or an empty list
  means "not set". A `customHeaders` collection without `headerValues`
  is modelled as an empty list of rows.
- `Bodies.Converted`: a set id field that is not a string becomes
  `undefined` in the model, where the code would throw a `TypeError`
  from `.split`.
- `Tags.TagBodyEntity`: stated only for associations whose value, when
  set, is a string; the `TypeError` of a non-string is not modelled.
- `Drivers.ReportQuery`: stated only when the ISO forms returned for the
  bounds are non-empty strings, which `toISOString` guarantees.
- `Trigger.SamsaraTrigger.Create`: the id filters are split before the
  `try`, so an error there would lack the failure prefix; with string
  inputs the split cannot fail, and the model has only string inputs.
- The signature header of incoming events is read but never checked, so
  it is not modelled; nor is the persistence of the stored webhook id.
- The `TypeError` messages are V8's wording.
- The node descriptions and UI schemas, the main node's dispatch, the
  other resource handlers and the option lists in the utility module are
  not part of this model.
