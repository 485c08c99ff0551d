/** Objects built by a chain of conditional assignments,
    `if (condition) body.key = value`, as every request body of the
    resource handlers is. */
module Bodies {

  import opened Json
  import Params

  /** `if (c) d[k] = v`: reading any key afterwards gives `v` for `k` when
      the condition held, and what `d` held otherwise. */
  function Cond(d: Dict, c: bool, k: string, v: Value): (r: Dict)
    ensures forall k' :: Get(r, k') == if c && k' == k then v else Get(d, k')
  {
    if c then Set(d, k, v) else d
  }

  /** A conditional assignment adds its key, at the end, exactly when the
      condition held and the key was new. */
  lemma CondKeys(d: Dict, c: bool, k: string, v: Value)
    ensures Keys(Cond(d, c, k, v)) == if c && !Has(d, k) then Keys(d) + [k] else Keys(d)
  {
  }

  /** A conditional assignment of a new key appends it when the condition
      held. */
  lemma CondAppends(d: Dict, c: bool, k: string, v: Value)
    requires !Has(d, k)
    ensures Keys(Cond(d, c, k, v)) == Keys(d) + (if c then [k] else [])
  {
    if !c {
      assert Keys(d) + [] == Keys(d);
    }
  }

  /** A conditional assignment leaves the presence of every other key as
      it was. */
  lemma CondHas(d: Dict, c: bool, k: string, v: Value, k': string)
    requires k' != k
    ensures Has(Cond(d, c, k, v), k') <==> Has(d, k')
  {
  }

  /** The statement `if (c) body[k] = v`. */
  method AssignIf(body: Dict, c: bool, k: string, v: Value) returns (b: Dict)
    ensures b == Cond(body, c, k, v)
  {
    b := body;
    if c {
      b := Set(b, k, v);
    }
  }

  // ---------------------------------------------------------------------
  // The id filters: `if (ids) body[key] = ids.split(',').map((id) => id.trim())`

  /** The three optional id filters, in the order they are assigned. */
  function IdFilters(b: Dict, tagIds: string, vehicleIds: string, driverIds: string): Dict {
    var b := IdFilter(b, "tagIds", tagIds);
    var b := IdFilter(b, "vehicleIds", vehicleIds);
    IdFilter(b, "driverIds", driverIds)
  }

  /** `if (ids) body[key] = ids.split(',').map((id) => id.trim())` */
  function IdFilter(b: Dict, key: string, ids: string): (r: Dict)
    ensures forall k :: Get(r, k) == if ids != "" && k == key then Params.IdListValue(ids) else Get(b, k)
  {
    if ids != "" then Set(b, key, Params.IdListValue(ids)) else b
  }

  /** A filter onto an object without its key appends it when set. */
  lemma IdFilterAppends(b: Dict, key: string, ids: string)
    requires !Has(b, key)
    ensures Keys(IdFilter(b, key, ids)) == Keys(b) + (if ids != "" then [key] else [])
  {
    if ids == "" {
      assert Keys(b) + [] == Keys(b);
    }
  }

  /** A filter leaves the presence of every other key as it was. */
  lemma IdFilterHas(b: Dict, key: string, ids: string, k: string)
    requires k != key
    ensures Has(IdFilter(b, key, ids), k) <==> Has(b, k)
  {
  }

  /** The filters leave the presence of every other key as it was. */
  lemma IdFiltersHas(b: Dict, tagIds: string, vehicleIds: string, driverIds: string, k: string)
    requires k != "tagIds" && k != "vehicleIds" && k != "driverIds"
    ensures Has(IdFilters(b, tagIds, vehicleIds, driverIds), k) <==> Has(b, k)
  {
    var b1 := IdFilter(b, "tagIds", tagIds);
    var b2 := IdFilter(b1, "vehicleIds", vehicleIds);
    IdFilterHas(b, "tagIds", tagIds, k);
    IdFilterHas(b1, "vehicleIds", vehicleIds, k);
    IdFilterHas(b2, "driverIds", driverIds, k);
  }

  /** Each id filter is written, as the list its option parses to, exactly
      when the option is set; every other key keeps its value. */
  lemma IdFiltersGet(b: Dict, tagIds: string, vehicleIds: string, driverIds: string, k: string)
    ensures Get(IdFilters(b, tagIds, vehicleIds, driverIds), k)
            == if k == "tagIds" && tagIds != "" then Params.IdListValue(tagIds)
               else if k == "vehicleIds" && vehicleIds != "" then Params.IdListValue(vehicleIds)
               else if k == "driverIds" && driverIds != "" then Params.IdListValue(driverIds)
               else Get(b, k)
  {
  }

  /** The keys of the filters that are set, in assignment order. */
  function FilterKeys(tagIds: string, vehicleIds: string, driverIds: string): seq<string> {
    (if tagIds != "" then ["tagIds"] else [])
    + (if vehicleIds != "" then ["vehicleIds"] else [])
    + (if driverIds != "" then ["driverIds"] else [])
  }

  /** Onto an object without them, the filters that are set are appended in
      assignment order. */
  lemma IdFiltersKeys(b: Dict, tagIds: string, vehicleIds: string, driverIds: string)
    requires !Has(b, "tagIds") && !Has(b, "vehicleIds") && !Has(b, "driverIds")
    ensures Keys(IdFilters(b, tagIds, vehicleIds, driverIds)) == Keys(b) + FilterKeys(tagIds, vehicleIds, driverIds)
  {
    var b1 := IdFilter(b, "tagIds", tagIds);
    var b2 := IdFilter(b1, "vehicleIds", vehicleIds);
    IdFilterHas(b, "tagIds", tagIds, "vehicleIds");
    IdFilterHas(b, "tagIds", tagIds, "driverIds");
    IdFilterHas(b1, "vehicleIds", vehicleIds, "driverIds");
    IdFilterAppends(b, "tagIds", tagIds);
    IdFilterAppends(b1, "vehicleIds", vehicleIds);
    IdFilterAppends(b2, "driverIds", driverIds);
    var t := if tagIds != "" then ["tagIds"] else [];
    var v := if vehicleIds != "" then ["vehicleIds"] else [];
    var d := if driverIds != "" then ["driverIds"] else [];
    assert Keys(IdFilters(b, tagIds, vehicleIds, driverIds)) == Keys(b) + t + v + d;
    Regroup(Keys(b), t, v, d);
  }

  lemma Regroup(a: seq<string>, b: seq<string>, c: seq<string>, d: seq<string>)
    ensures a + b + c + d == a + (b + c + d)
  {
  }

  /** The statement `if (ids) body[key] = ids.split(',').map((id) => id.trim())`. */
  method AssignIds(body: Dict, key: string, ids: string) returns (b: Dict)
    ensures b == IdFilter(body, key, ids)
  {
    b := body;
    if ids != "" {
      b := Set(b, key, Params.IdListValue(ids));
    }
  }


  // ---------------------------------------------------------------------
  // Loops over a list of field names:
  // `for (const name of names) if (<set>) body[name] = <value>`

  /** How a loop reads each field: `Copy` writes any value other than
      `undefined` and `''` as it is (`!== undefined && !== ''`); `Split`
      writes a truthy string as its trimmed comma-split list. */
  datatype Rule = Copy | Split

  /** Whether the loop writes a field holding `v`. */
  predicate Written(rule: Rule, v: Value) {
    match rule
    case Copy => !v.Undefined? && v != Str("")
    case Split => Truthy(v)
  }

  /** What the loop writes for a field holding `v`. */
  function Converted(rule: Rule, v: Value): Value {
    match rule
    case Copy => v
    case Split => if v.Str? then Params.IdListValue(v.s) else Undefined
  }

  /** The object after the loop over `names` reading `fields`. */
  function ForEach(b: Dict, fields: Dict, names: seq<string>, rule: Rule): Dict
    decreases |names|
  {
    if names == [] then b
    else
      var t := names[|names| - 1];
      Cond(ForEach(b, fields, names[..|names| - 1], rule), Written(rule, Get(fields, t)), t,
           Converted(rule, Get(fields, t)))
  }

  /** The names among `names` the loop writes, in order. */
  function WrittenNames(fields: Dict, names: seq<string>, rule: Rule): (ws: seq<string>)
    ensures forall t :: t in ws ==> t in names
  {
    if names == [] then []
    else
      var t := names[|names| - 1];
      WrittenNames(fields, names[..|names| - 1], rule) + (if Written(rule, Get(fields, t)) then [t] else [])
  }

  /** One more round of the loop. */
  lemma ForEachStep(b: Dict, fields: Dict, names: seq<string>, rule: Rule, j: nat)
    requires j < |names|
    ensures ForEach(b, fields, names[..j + 1], rule)
            == Cond(ForEach(b, fields, names[..j], rule), Written(rule, Get(fields, names[j])), names[j],
                    Converted(rule, Get(fields, names[j])))
  {
    assert names[..j + 1][..j] == names[..j];
  }

  /** The loop as statements. */
  method AssignEach(body: Dict, fields: Dict, names: seq<string>, rule: Rule) returns (b: Dict)
    ensures b == ForEach(body, fields, names, rule)
  {
    b := body;
    for j := 0 to |names|
      invariant b == ForEach(body, fields, names[..j], rule)
    {
      var name := names[j];
      ForEachStep(body, fields, names, rule, j);
      var v := Get(fields, name);
      if Written(rule, v) {
        b := Set(b, name, Converted(rule, v));
      }
    }
    assert names[..|names|] == names;
  }

  /** After the loop, a listed field reads as its converted value exactly
      when the loop writes it; every other key keeps its value. */
  lemma {:induction false} ForEachGet(b: Dict, fields: Dict, names: seq<string>, rule: Rule, k: string)
    ensures Get(ForEach(b, fields, names, rule), k)
            == if k in names && Written(rule, Get(fields, k)) then Converted(rule, Get(fields, k)) else Get(b, k)
    decreases |names|
  {
    if names != [] {
      var n := |names| - 1;
      var init, t := names[..n], names[n];
      assert names == init + [t];
      assert k in names <==> k in init || k == t;
      ForEachGet(b, fields, init, rule, k);
      var v := Get(fields, t);
      assert Get(ForEach(b, fields, names, rule), k)
             == if Written(rule, v) && k == t then Converted(rule, v) else Get(ForEach(b, fields, init, rule), k);
    }
  }

  /** Onto an object holding none of them, the loop appends the names it
      writes, in the loop's order. */
  lemma {:induction false} ForEachKeys(b: Dict, fields: Dict, names: seq<string>, rule: Rule)
    requires Distinct(names)
    requires forall i :: 0 <= i < |names| ==> !Has(b, names[i])
    ensures Keys(ForEach(b, fields, names, rule)) == Keys(b) + WrittenNames(fields, names, rule)
    decreases |names|
  {
    if names != [] {
      var n := |names| - 1;
      var t := names[n];
      var present := Written(rule, Get(fields, t));
      var before := ForEach(b, fields, names[..n], rule);
      var w := WrittenNames(fields, names[..n], rule);
      ForEachKeys(b, fields, names[..n], rule);
      NextFresh(b, Keys(before), w, names);
      CondAppends(before, present, t, Converted(rule, Get(fields, t)));
      AppendAssoc(Keys(b), w, if present then [t] else []);
    }
  }

  lemma AppendAssoc(a: seq<string>, b: seq<string>, c: seq<string>)
    ensures (a + b) + c == a + (b + c)
  {
  }

  /** The next name the loop writes is not in the object yet. */
  lemma NextFresh(b: Dict, before: seq<string>, w: seq<string>, names: seq<string>)
    requires names != [] && Distinct(names)
    requires forall i :: 0 <= i < |names| ==> !Has(b, names[i])
    requires before == Keys(b) + w && forall t :: t in w ==> t in names[..|names| - 1]
    ensures names[|names| - 1] !in before
  {
    var n := |names| - 1;
    assert names[n] !in names[..n];
  }

  // ---------------------------------------------------------------------
  // The answer of a `delete`: `{ success: true, <idKey>: id }`

  /** What a `delete` hands back once its request has succeeded: exactly
      `success: true` and the id it was given, under `idKey`; a failed
      request is passed on unchanged. */
  function Confirmation(response: Result<Dict>, idKey: string, id: string): (r: Result<Dict>)
    requires idKey != "success"
    ensures r.Ok? <==> response.Ok?
    ensures r.Ok? ==> && Keys(r.value) == ["success", idKey]
                      && Get(r.value, "success") == Bool(true)
                      && Get(r.value, idKey) == Str(id)
    ensures r.Err? ==> r.error == response.error
  {
    match response
    case Err(message) => Err(message)
    case Ok(_) =>
      var deleted := [("success", Bool(true)), (idKey, Str(id))];
      GetAt(deleted, 1);
      Ok(deleted)
  }
}
