/** The tag resource handler: the request bodies of `create`, `update`,
    `assign` and `unassign` (a read-modify-write of the tag's entity
    list), and the result of `delete`. */
module Tags {

  import opened Json
  import Text
  import Transport
  import Params
  import Bodies

  /** The path of one tag, `/tags/${tagId}`. */
  function TagPath(tagId: string): string {
    "/tags/" + tagId
  }

  // ---------------------------------------------------------------------
  // create

  /** The entity associations `create` may carry, in the order it writes them. */
  const EntityTypes: seq<string> := ["addressIds", "assetIds", "driverIds", "vehicleIds"]

  /** The body before the loop: the name, then the parent tag when set. */
  function TagHead(name: string, fields: Dict): Dict {
    var parent := Get(fields, "parentTagId");
    Bodies.Cond([("name", Str(name))], Truthy(parent), "parentTagId", parent)
  }

  /** The body `create` sends: the head, then the loop over the
      association fields. */
  function TagBody(name: string, fields: Dict): Dict {
    Bodies.ForEach(TagHead(name, fields), fields, EntityTypes, Bodies.Split)
  }

  /** `create`'s body, built statement by statement. */
  method BuildTagBody(name: string, fields: Dict) returns (body: Dict)
    ensures body == TagBody(name, fields)
  {
    body := [("name", Str(name))];
    var parent := Get(fields, "parentTagId");
    body := Bodies.AssignIf(body, Truthy(parent), "parentTagId", parent);
    body := Bodies.AssignEach(body, fields, EntityTypes, Bodies.Split);
  }

  /** The body before the loop reads as the name and, when set, the
      parent tag. */
  lemma TagHeadGet(name: string, fields: Dict, k: string)
    ensures Get(TagHead(name, fields), k)
            == if k == "name" then Str(name)
               else if k == "parentTagId" && Truthy(Get(fields, "parentTagId")) then Get(fields, "parentTagId")
               else Undefined
  {
    var named := [("name", Str(name))];
    if k != "name" {
      GetAbsent(named, k);
    }
  }

  /** The body `create` sends carries each association only when set, as
      the trimmed comma-split list of its text (the `as string` before
      `.split` takes a set association to be text). */
  lemma TagBodyEntity(name: string, fields: Dict, k: string)
    requires k in EntityTypes
    requires Truthy(Get(fields, k)) ==> Get(fields, k).Str?
    ensures Get(TagBody(name, fields), k)
            == if Truthy(Get(fields, k)) then Params.IdListValue(Get(fields, k).s) else Undefined
  {
    Bodies.ForEachGet(TagHead(name, fields), fields, EntityTypes, Bodies.Split, k);
    TagHeadGet(name, fields, k);
  }

  /** It always names the tag, carries the parent tag only when set, and
      nothing besides these and the associations. */
  lemma TagBodyOthers(name: string, fields: Dict, k: string)
    requires k !in EntityTypes
    ensures Get(TagBody(name, fields), k)
            == if k == "name" then Str(name)
               else if k == "parentTagId" && Truthy(Get(fields, "parentTagId")) then Get(fields, "parentTagId")
               else Undefined
  {
    Bodies.ForEachGet(TagHead(name, fields), fields, EntityTypes, Bodies.Split, k);
    TagHeadGet(name, fields, k);
  }

  /** Its keys, in insertion order: the name, the parent tag when set, and
      the associations that are set, in the loop's order. */
  lemma TagBodyKeys(name: string, fields: Dict)
    ensures Keys(TagBody(name, fields))
            == ["name"] + (if Truthy(Get(fields, "parentTagId")) then ["parentTagId"] else [])
               + Bodies.WrittenNames(fields, EntityTypes, Bodies.Split)
  {
    var head := TagHead(name, fields);
    Bodies.CondKeys([("name", Str(name))], Truthy(Get(fields, "parentTagId")), "parentTagId",
                    Get(fields, "parentTagId"));
    assert Keys(head) == ["name"] + (if Truthy(Get(fields, "parentTagId")) then ["parentTagId"] else []);
    Bodies.ForEachKeys(head, fields, EntityTypes, Bodies.Split);
  }

  /** `create` */
  method CreateTag(server: Transport.Server, name: string, fields: Dict) returns (r: Result<Value>)
    ensures r == Transport.Answer(Transport.Request(server, Transport.POST, "/tags", TagBody(name, fields), []))
  {
    var body := BuildTagBody(name, fields);
    var response := Transport.SamsaraApiRequest(server, Transport.POST, "/tags", body, []);
    r := Transport.Answer(response);
  }

  // ---------------------------------------------------------------------
  // get and getAll

  /** `get`: one GET of the tag's path, with neither query nor body, whose
      `data` is handed back. */
  function GetTag(server: Transport.Server, tagId: string): (r: Result<Value>)
    ensures var sent := server(Transport.RequestOptions(Transport.GET, Transport.BaseUrl + TagPath(tagId),
                                                        None, None, true));
            && (r.Ok? <==> sent.Ok?)
            && (r.Ok? ==> r.value == Transport.Data(sent.value))
            && (r.Err? ==> r.error == Transport.RequestFailed + sent.error)
  {
    Transport.Answer(Transport.Request(server, Transport.GET, TagPath(tagId), [], []))
  }

  /** `getAll`: the listing of `/tags` from an empty query, capped at
      `limit` unless `returnAll`. The ghost `fuel` bounds the number of
      pages the server serves. */
  method GetAllTags(server: Transport.Server, returnAll: bool, limit: int, ghost fuel: nat)
    returns (r: Result<seq<Value>>, ghost exchanges: seq<Transport.Exchange>)
    requires Transport.FetchAll(server, Transport.GET, "/tags", [], [], Transport.Cap(returnAll, limit), fuel).Some?
    ensures Transport.FetchAll(server, Transport.GET, "/tags", [], [], Transport.Cap(returnAll, limit), fuel)
            == Some(Transport.Fetch(r, exchanges))
  {
    if returnAll {
      r, exchanges := Transport.SamsaraApiRequestAllItems(server, Transport.GET, "/tags", [], [], None, fuel);
    } else {
      r, exchanges := Transport.SamsaraApiRequestAllItems(server, Transport.GET, "/tags", [], [], Some(limit), fuel);
    }
  }

  /** A successful `getAll` hands back every item of every page read when
      it is not capped, and at most `limit` of them, from the front, when it
      is. */
  lemma GetAllTagsItems(server: Transport.Server, returnAll: bool, limit: int, fuel: nat, t: Transport.Fetch)
    requires Transport.FetchAll(server, Transport.GET, "/tags", [], [], Transport.Cap(returnAll, limit), fuel)
             == Some(t)
    requires t.result.Ok?
    ensures returnAll || limit == 0 ==> t.result.value == Transport.ItemsOf(t.exchanges)
    ensures !returnAll && limit > 0 ==>
              |t.result.value| <= limit && t.result.value <= Transport.ItemsOf(t.exchanges)
  {
    var cap := Transport.Cap(returnAll, limit);
    if returnAll || limit == 0 {
      Transport.FetchUncapped(server, Transport.GET, "/tags", [], [], cap, fuel, t);
    } else if limit > 0 {
      Transport.FetchCappedPrefix(server, Transport.GET, "/tags", [], [], cap, fuel, t);
    }
  }

  // ---------------------------------------------------------------------
  // update

  /** The body `update` sends: the name and the parent tag, each when set. */
  function UpdateBody(fields: Dict): Dict {
    var name := Get(fields, "name");
    var parent := Get(fields, "parentTagId");
    Bodies.Cond(Bodies.Cond([], Truthy(name), "name", name), Truthy(parent), "parentTagId", parent)
  }

  /** The update body holds the name and the parent tag exactly when each
      is set, in that order, and nothing else; with neither set, the
      request goes out without a body. */
  lemma UpdateBodyFields(fields: Dict, tagId: string)
    ensures var name := Get(fields, "name");
            var parent := Get(fields, "parentTagId");
            && Keys(UpdateBody(fields)) == (if Truthy(name) then ["name"] else [])
                                           + (if Truthy(parent) then ["parentTagId"] else [])
            && Get(UpdateBody(fields), "name") == (if Truthy(name) then name else Undefined)
            && Get(UpdateBody(fields), "parentTagId") == (if Truthy(parent) then parent else Undefined)
            && (Transport.Options(Transport.PATCH, TagPath(tagId), UpdateBody(fields), []).body.None?
                <==> !Truthy(name) && !Truthy(parent))
  {
    var name := Get(fields, "name");
    var first := Bodies.Cond([], Truthy(name), "name", name);
    Bodies.CondKeys([], Truthy(name), "name", name);
    Bodies.CondKeys(first, Truthy(Get(fields, "parentTagId")), "parentTagId", Get(fields, "parentTagId"));
  }

  /** `update` */
  method UpdateTag(server: Transport.Server, tagId: string, fields: Dict) returns (r: Result<Value>)
    ensures r == Transport.Answer(Transport.Request(server, Transport.PATCH, TagPath(tagId), UpdateBody(fields), []))
  {
    var body: Dict := [];
    var name := Get(fields, "name");
    var parent := Get(fields, "parentTagId");
    body := Bodies.AssignIf(body, Truthy(name), "name", name);
    body := Bodies.AssignIf(body, Truthy(parent), "parentTagId", parent);
    var response := Transport.SamsaraApiRequest(server, Transport.PATCH, TagPath(tagId), body, []);
    r := Transport.Answer(response);
  }

  // ---------------------------------------------------------------------
  // delete

  /** `delete`: `{success: true, tagId}` once the request succeeded. */
  function DeleteTag(server: Transport.Server, tagId: string): (r: Result<Dict>)
    ensures var sent := server(Transport.RequestOptions(Transport.DELETE, Transport.BaseUrl + TagPath(tagId),
                                                        None, None, true));
            && (r.Ok? <==> sent.Ok?)
            && (r.Ok? ==> && Keys(r.value) == ["success", "tagId"]
                          && Get(r.value, "success") == Bool(true)
                          && Get(r.value, "tagId") == Str(tagId))
            && (r.Err? ==> r.error == Transport.RequestFailed + sent.error)
  {
    Bodies.Confirmation(Transport.Request(server, Transport.DELETE, TagPath(tagId), [], []), "tagId", tagId)
  }

  // ---------------------------------------------------------------------
  // assign

  /** `ids.map((id) => ({ id }))` */
  function IdObjects(ids: seq<string>): (objs: seq<Value>)
    ensures |objs| == |ids|
    ensures forall i :: 0 <= i < |ids| ==> objs[i] == Obj([("id", Str(ids[i]))])
  {
    seq(|ids|, i requires 0 <= i < |ids| => Obj([("id", Str(ids[i]))]))
  }

  /** The ids a list of entity objects names, `entities.map((e) => e.id)`. */
  function IdsOf(entities: seq<Value>): (ids: seq<Value>)
    ensures |ids| == |entities|
    ensures forall i :: 0 <= i < |entities| ==> ids[i] == Member(entities[i], "id")
  {
    seq(|entities|, i requires 0 <= i < |entities| => Member(entities[i], "id"))
  }

  /** The body `assign` sends: the single key `entityType`, holding one
      `{id}` object per comma-separated id, trimmed, in order. */
  function AssignBody(entityType: string, entityIds: string): (body: Dict)
    ensures Keys(body) == [entityType]
    ensures Get(body, entityType).Arr?
    ensures IdsOf(Get(body, entityType).items)
            == StrArray(Params.ParseIdList(Params.IdText(entityIds))).items
    ensures Get(body, entityType) == Arr(IdObjects(Params.ParseIdList(Params.IdText(entityIds))))
  {
    var ids := Params.ParseIdList(Params.IdText(entityIds));
    var listed := IdObjects(ids);
    assert IdsOf(listed) == StrArray(ids).items;
    [(entityType, Arr(listed))]
  }

  /** Assigning ids written out with commas sends exactly those ids. */
  lemma AssignJoined(entityType: string, ids: seq<string>)
    requires |ids| >= 1
    requires forall i :: 0 <= i < |ids| ==> Params.PlainId(ids[i])
    ensures IdsOf(Get(AssignBody(entityType, Text.Join(ids, ",")), entityType).items) == StrArray(ids).items
  {
    Params.ParseJoined(ids);
  }

  /** `assign` */
  function AssignTag(server: Transport.Server, tagId: string, entityType: string, entityIds: string): (r: Result<Value>)
    ensures var sent := server(Transport.RequestOptions(Transport.PATCH, Transport.BaseUrl + TagPath(tagId),
                                                        None, Some(AssignBody(entityType, entityIds)), true));
            && (r.Ok? <==> sent.Ok?)
            && (r.Ok? ==> r.value == Transport.Data(sent.value))
            && (r.Err? ==> r.error == Transport.RequestFailed + sent.error)
  {
    Transport.Answer(Transport.Request(server, Transport.PATCH, TagPath(tagId), AssignBody(entityType, entityIds), []))
  }

  // ---------------------------------------------------------------------
  // unassign

  /** The message of the `TypeError` calling `.filter` on a value that is
      not an array raises. */
  const FilterNotFunction := "currentEntities.filter is not a function"

  /** The filter drops an entity whose `id` is one of the ids to remove;
      `includes` compares strictly, so only a string id can match. */
  predicate Removed(entity: Value, remove: seq<string>) {
    var id := Member(entity, "id");
    id.Str? && id.s in remove
  }

  /** `entities.filter((entity) => !remove.includes(entity.id))`: the kept
      entities in order, or the `TypeError` of the first `null` or
      `undefined` entity. */
  function Remaining(entities: seq<Value>, remove: seq<string>): Result<seq<Value>> {
    if entities == [] then Ok([])
    else if Nullish(entities[0]) then Err(ReadError(entities[0], "id"))
    else
      match Remaining(entities[1..], remove)
      case Err(message) => Err(message)
      case Ok(rest) => Ok((if Removed(entities[0], remove) then [] else [entities[0]]) + rest)
  }

  /** The filter fails exactly when some entity is `null` or `undefined`. */
  lemma {:induction false} RemainingFails(entities: seq<Value>, remove: seq<string>)
    ensures Remaining(entities, remove).Err? <==> exists i :: 0 <= i < |entities| && Nullish(entities[i])
  {
    if entities != [] {
      RemainingFails(entities[1..], remove);
      if exists i :: 0 <= i < |entities[1..]| && Nullish(entities[1..][i]) {
        var i :| 0 <= i < |entities[1..]| && Nullish(entities[1..][i]);
        assert Nullish(entities[i + 1]);
      }
      if exists i :: 0 <= i < |entities| && Nullish(entities[i]) {
        var i :| 0 <= i < |entities| && Nullish(entities[i]);
        if i > 0 {
          assert Nullish(entities[1..][i - 1]);
        }
      }
    }
  }

  /** An entity is kept exactly when it is listed and not removed: no
      removed id survives and every other entity stays. */
  lemma {:induction false} RemainingMembers(entities: seq<Value>, remove: seq<string>, x: Value)
    requires Remaining(entities, remove).Ok?
    ensures x in Remaining(entities, remove).value <==> x in entities && !Removed(x, remove)
  {
    if entities != [] {
      RemainingMembers(entities[1..], remove, x);
      assert entities == [entities[0]] + entities[1..];
    }
  }

  /** The filter works element by element: filtering a concatenation
      filters each part, in order. */
  lemma {:induction false} RemainingConcat(a: seq<Value>, b: seq<Value>, remove: seq<string>)
    requires Remaining(a, remove).Ok? && Remaining(b, remove).Ok?
    ensures Remaining(a + b, remove) == Ok(Remaining(a, remove).value + Remaining(b, remove).value)
  {
    if a == [] {
      assert a + b == b;
      assert [] + Remaining(b, remove).value == Remaining(b, remove).value;
    } else {
      assert (a + b)[0] == a[0];
      assert (a + b)[1..] == a[1..] + b;
      RemainingConcat(a[1..], b, remove);
      var head := if Removed(a[0], remove) then [] else [a[0]];
      var ra := Remaining(a[1..], remove).value;
      var rb := Remaining(b, remove).value;
      assert head + (ra + rb) == (head + ra) + rb;
    }
  }

  /** The body `unassign` sends, given the tag as read: the entity list
      under `entityType` (none when absent) without the removed ids, each
      as `{id}`; or the `TypeError` the filter raises. */
  function UnassignBody(data: Value, entityType: string, entityIds: string): Result<Dict> {
    var current := Or(Member(data, entityType), Arr([]));
    if !current.Arr? then Err(FilterNotFunction)
    else
      match Remaining(current.items, Params.ParseIdList(Params.IdText(entityIds)))
      case Err(message) => Err(message)
      case Ok(rest) => Ok([(entityType, Arr(Relisted(rest)))])
  }

  /** `remaining.map((entity) => ({ id: entity.id }))` */
  function Relisted(entities: seq<Value>): (objs: seq<Value>)
    ensures |objs| == |entities|
    ensures forall i :: 0 <= i < |entities| ==> objs[i] == Obj([("id", Member(entities[i], "id"))])
  {
    seq(|entities|, i requires 0 <= i < |entities| => Obj([("id", Member(entities[i], "id"))]))
  }

  /** A tag without a list for `entityType` is written back with an empty
      one. */
  lemma UnassignAbsentList(data: Value, entityType: string, entityIds: string)
    requires !Truthy(Member(data, entityType))
    ensures UnassignBody(data, entityType, entityIds) == Ok([(entityType, Arr([]))])
  {
    assert Remaining([], Params.ParseIdList(Params.IdText(entityIds))) == Ok([]);
    assert Relisted([]) == [];
  }

  /** The list written back names, in order, the ids of the entities the
      filter keeps. */
  lemma UnassignKeeps(data: Value, entityType: string, entityIds: string)
    requires Member(data, entityType).Arr?
    requires UnassignBody(data, entityType, entityIds).Ok?
    ensures var body := UnassignBody(data, entityType, entityIds).value;
            var kept := Remaining(Member(data, entityType).items, Params.ParseIdList(Params.IdText(entityIds)));
            && kept.Ok?
            && Keys(body) == [entityType]
            && Get(body, entityType).Arr?
            && IdsOf(Get(body, entityType).items) == IdsOf(kept.value)
            && Get(body, entityType).items == Relisted(kept.value)
  {
    var kept := Remaining(Member(data, entityType).items, Params.ParseIdList(Params.IdText(entityIds)));
    RelistedIds(kept.value);
  }

  /** Relisting an entity as `{id}` keeps its id. */
  lemma RelistedIds(entities: seq<Value>)
    ensures IdsOf(Relisted(entities)) == IdsOf(entities)
  {
    forall i | 0 <= i < |entities|
      ensures Member(Relisted(entities)[i], "id") == Member(entities[i], "id")
    {
      GetAt(Relisted(entities)[i].props, 0);
    }
  }

  /** `unassign`: read the tag, filter its list, write the list back. A
      failed read, the filter's `TypeError` and a failed write each end it
      with their error; otherwise the answer is the write's `data`. */
  function UnassignTag(server: Transport.Server, tagId: string, entityType: string, entityIds: string): (r: Result<Value>)
    ensures var uri := Transport.BaseUrl + TagPath(tagId);
            var read := server(Transport.RequestOptions(Transport.GET, uri, None, None, true));
            && (read.Err? ==> r == Err(Transport.RequestFailed + read.error))
            && (read.Ok? ==>
                  var body := UnassignBody(Transport.Data(read.value), entityType, entityIds);
                  && (body.Err? ==> r == Err(body.error))
                  && (body.Ok? ==>
                        var sent := server(Transport.RequestOptions(Transport.PATCH, uri, None, Some(body.value), true));
                        && (r.Ok? <==> sent.Ok?)
                        && (r.Ok? ==> r.value == Transport.Data(sent.value))
                        && (r.Err? ==> r.error == Transport.RequestFailed + sent.error)))
  {
    match Transport.Request(server, Transport.GET, TagPath(tagId), [], [])
    case Err(message) => Err(message)
    case Ok(current) =>
      match UnassignBody(Transport.Data(current), entityType, entityIds)
      case Err(message) => Err(message)
      case Ok(body) => Transport.Answer(Transport.Request(server, Transport.PATCH, TagPath(tagId), body, []))
  }
}
