/** The parameter normalisers of the transport layer: `buildQueryString`,
    which flattens request parameters into a query object, `formatTimeRange`,
    `parseIdList` and `handleSamsaraError`. */
module Params {

  import opened Json
  import Text

  // ---------------------------------------------------------------------
  // buildQueryString

  /** `value !== undefined && value !== null && value !== ''` fails. */
  predicate Blank(v: Value) {
    v.Undefined? || v.Null? || v == Str("")
  }

  /** The query key of a nested property: `${key}[${nestedKey}]`. */
  function Bracket(key: string, nestedKey: string): string {
    key + "[" + nestedKey + "]"
  }

  /** The assignments the inner loop makes for an object-valued parameter:
      one per non-blank property, in property order. */
  function NestedWrites(key: string, props: Dict): Dict {
    if props == [] then []
    else
      var last := props[|props| - 1];
      NestedWrites(key, props[..|props| - 1])
      + (if Blank(last.1) then [] else [(Bracket(key, last.0), last.1)])
  }

  /** The assignments made for one parameter. */
  function EntryWrites(key: string, value: Value): Dict {
    if Blank(value) then []
    else if value.Arr? then (if |value.items| > 0 then [(key, Str(JoinValues(value.items)))] else [])
    else if value.Obj? then NestedWrites(key, value.props)
    else [(key, value)]
  }

  /** All assignments, in the order the loops make them. */
  function Writes(params: Dict): Dict {
    if params == [] then []
    else
      var last := params[|params| - 1];
      Writes(params[..|params| - 1]) + EntryWrites(last.0, last.1)
  }

  /** Performing assignments `query[k] = v` one after the other. */
  function Apply(d: Dict, ws: Dict): Dict {
    if ws == [] then d
    else Set(Apply(d, ws[..|ws| - 1]), ws[|ws| - 1].0, ws[|ws| - 1].1)
  }

  /** The object `buildQueryString(params)` returns. */
  function QueryString(params: Dict): Dict {
    Apply([], Writes(params))
  }

  /** The value last assigned to `k`, if any. */
  function LastWrite(ws: Dict, k: string): Option<Value> {
    if ws == [] then None
    else if ws[|ws| - 1].0 == k then Some(ws[|ws| - 1].1)
    else LastWrite(ws[..|ws| - 1], k)
  }

  lemma ApplySnoc(d: Dict, ws: Dict, w: (string, Value))
    ensures Apply(d, ws + [w]) == Set(Apply(d, ws), w.0, w.1)
  {
    assert (ws + [w])[..|ws|] == ws;
  }

  lemma WritesSnoc(params: Dict, i: nat)
    requires i < |params|
    ensures Writes(params[..i + 1]) == Writes(params[..i]) + EntryWrites(params[i].0, params[i].1)
  {
    assert params[..i + 1][..i] == params[..i];
  }

  lemma NestedWritesSnoc(key: string, props: Dict, j: nat)
    requires j < |props|
    ensures NestedWrites(key, props[..j + 1])
            == NestedWrites(key, props[..j])
               + (if Blank(props[j].1) then [] else [(Bracket(key, props[j].0), props[j].1)])
  {
    assert props[..j + 1][..j] == props[..j];
  }

  lemma {:induction false} ApplyConcat(d: Dict, ws: Dict, vs: Dict)
    ensures Apply(d, ws + vs) == Apply(Apply(d, ws), vs)
    decreases |vs|
  {
    if vs == [] {
      assert ws + vs == ws;
    } else {
      assert ws + vs == (ws + vs[..|vs| - 1]) + [vs[|vs| - 1]];
      ApplySnoc(d, ws + vs[..|vs| - 1], vs[|vs| - 1]);
      ApplyConcat(d, ws, vs[..|vs| - 1]);
    }
  }

  /** One parameter's assignments, applied to the query built so far. */
  lemma EntryStep(params: Dict, i: nat)
    requires i < |params|
    ensures Apply([], Writes(params[..i + 1]))
            == Apply(Apply([], Writes(params[..i])), EntryWrites(params[i].0, params[i].1))
  {
    WritesSnoc(params, i);
    ApplyConcat([], Writes(params[..i]), EntryWrites(params[i].0, params[i].1));
  }

  /** The inner loop of `buildQueryString`, over an object-valued parameter. */
  method SetNested(query: Dict, key: string, props: Dict) returns (q: Dict)
    ensures q == Apply(query, NestedWrites(key, props))
  {
    q := query;
    for j := 0 to |props|
      invariant q == Apply(query, NestedWrites(key, props[..j]))
    {
      NestedWritesSnoc(key, props, j);
      if !Blank(props[j].1) {
        ApplySnoc(query, NestedWrites(key, props[..j]), (Bracket(key, props[j].0), props[j].1));
        q := Set(q, Bracket(key, props[j].0), props[j].1);
      } else {
        assert NestedWrites(key, props[..j]) + [] == NestedWrites(key, props[..j]);
      }
    }
    assert props[..|props|] == props;
  }

  /** `buildQueryString(params)` */
  method BuildQueryString(params: Dict) returns (query: Dict)
    ensures query == QueryString(params)
  {
    query := [];
    for i := 0 to |params|
      invariant query == Apply([], Writes(params[..i]))
    {
      var key := params[i].0;
      var value := params[i].1;
      EntryStep(params, i);
      if !Blank(value) {
        if value.Arr? {
          if |value.items| > 0 {
            assert [(key, Str(JoinValues(value.items)))][..0] == [];
            query := Set(query, key, Str(JoinValues(value.items)));
          }
        } else if value.Obj? {
          query := SetNested(query, key, value.props);
        } else {
          assert [(key, value)][..0] == [];
          query := Set(query, key, value);
        }
      }
    }
    assert params[..|params|] == params;
  }

  /** Reading a key after a run of assignments: the last value assigned to
      it, or what was there before. */
  lemma {:induction false} ApplyGet(d: Dict, ws: Dict, k: string)
    ensures Get(Apply(d, ws), k) == if LastWrite(ws, k).Some? then LastWrite(ws, k).value else Get(d, k)
    ensures Has(Apply(d, ws), k) <==> Has(d, k) || LastWrite(ws, k).Some?
  {
    if ws != [] {
      ApplyGet(d, ws[..|ws| - 1], k);
    }
  }

  lemma {:induction false} LastWriteAppend(ws: Dict, vs: Dict, k: string)
    ensures LastWrite(ws + vs, k) == if LastWrite(vs, k).Some? then LastWrite(vs, k) else LastWrite(ws, k)
    decreases |vs|
  {
    if vs == [] {
      assert ws + vs == ws;
    } else {
      assert (ws + vs)[..|ws + vs| - 1] == ws + vs[..|vs| - 1];
      LastWriteAppend(ws, vs[..|vs| - 1], k);
    }
  }

  /** A value that is neither `undefined` nor `null`. */
  predicate Clean(v: Value) {
    !v.Undefined? && !v.Null?
  }

  /** The keys of the parameters whose value is an array. */
  function ArrayKeys(params: Dict): set<string> {
    if params == [] then {}
    else
      var last := params[|params| - 1];
      ArrayKeys(params[..|params| - 1]) + (if last.1.Arr? then {last.0} else {})
  }

  lemma {:induction false} NestedWritesClean(key: string, props: Dict, k: string)
    ensures LastWrite(NestedWrites(key, props), k).Some? ==>
              !Blank(LastWrite(NestedWrites(key, props), k).value)
  {
    if props != [] {
      var last := props[|props| - 1];
      NestedWritesClean(key, props[..|props| - 1], k);
      LastWriteAppend(NestedWrites(key, props[..|props| - 1]),
                      if Blank(last.1) then [] else [(Bracket(key, last.0), last.1)], k);
    }
  }

  lemma {:induction false} WritesValues(params: Dict, k: string)
    ensures LastWrite(Writes(params), k).Some? ==> Clean(LastWrite(Writes(params), k).value)
    ensures LastWrite(Writes(params), k) == Some(Str("")) ==> k in ArrayKeys(params)
  {
    if params != [] {
      var n := |params| - 1;
      var last := params[n];
      WritesValues(params[..n], k);
      LastWriteAppend(Writes(params[..n]), EntryWrites(last.0, last.1), k);
      if !Blank(last.1) && last.1.Obj? {
        NestedWritesClean(last.0, last.1.props, k);
      }
    }
  }

  /** Every value `buildQueryString` emits is defined and not `null`; it is
      `''` only for a key whose parameter is an array (one whose elements all
      render as `''`, such as `['']` or `[null]`). */
  lemma QueryStringValues(params: Dict, k: string)
    ensures Has(QueryString(params), k) ==> Clean(Get(QueryString(params), k))
    ensures Get(QueryString(params), k) == Str("") ==> k in ArrayKeys(params)
  {
    WritesValues(params, k);
    ApplyGet([], Writes(params), k);
  }

  /** What a parameter that is not an object becomes in the query: nothing
      when blank or an empty array, the comma-joined elements of an array,
      the value itself otherwise (`0` and `false` included). */
  function Rendered(v: Value): Value {
    if Blank(v) then Undefined
    else if v.Arr? then (if |v.items| > 0 then Str(JoinValues(v.items)) else Undefined)
    else v
  }

  /** No parameter value is an object. */
  predicate Flat(params: Dict) {
    forall i :: 0 <= i < |params| ==> !params[i].1.Obj?
  }

  /** The keys of a flat parameter object that survive, in order. */
  function KeptKeys(params: Dict): seq<string> {
    if params == [] then []
    else
      var last := params[|params| - 1];
      KeptKeys(params[..|params| - 1]) + (if Rendered(last.1).Undefined? then [] else [last.0])
  }

  /** For parameters without object values, the last assignment to a key
      is its rendered value, when that is defined. */
  lemma {:induction false} FlatLastWrite(params: Dict, k: string)
    requires WellFormed(params) && Flat(params)
    ensures LastWrite(Writes(params), k)
            == if Rendered(Get(params, k)).Undefined? then None else Some(Rendered(Get(params, k)))
  {
    if params != [] {
      var init := params[..|params| - 1];
      var last := params[|params| - 1];
      assert WellFormed(init) && Flat(init) && !Has(init, last.0) by {
        InitWellFormed(params);
      }
      FlatLastWrite(init, k);
      FlatWritesLast(params, k);
      GetLast(params, k);
      if last.0 == k {
        GetAbsent(init, k);
      }
    }
  }

  /** The last parameter's assignment, if any, is the last word on its key. */
  lemma FlatWritesLast(params: Dict, k: string)
    requires params != [] && !params[|params| - 1].1.Obj?
    ensures var init := params[..|params| - 1];
            var last := params[|params| - 1];
            LastWrite(Writes(params), k)
            == if last.0 == k && !Rendered(last.1).Undefined? then Some(Rendered(last.1)) else LastWrite(Writes(init), k)
  {
    var init := params[..|params| - 1];
    var last := params[|params| - 1];
    var ew := EntryWrites(last.0, last.1);
    assert ew == if Rendered(last.1).Undefined? then [] else [(last.0, Rendered(last.1))];
    LastWriteAppend(Writes(init), ew, k);
  }

  /** Looking up a key in a well-formed object: the last entry, or the rest. */
  lemma GetLast(d: Dict, k: string)
    requires WellFormed(d) && d != []
    ensures Get(d, k) == if d[|d| - 1].0 == k then d[|d| - 1].1 else Get(d[..|d| - 1], k)
  {
    var init := d[..|d| - 1];
    assert d == init + [d[|d| - 1]];
    InitWellFormed(d);
    GetAppend(init, [d[|d| - 1]], k);
    if d[|d| - 1].0 == k {
      GetAbsent(init, k);
    } else if !Has(init, k) {
      GetAbsent(init, k);
    }
  }

  /** For parameters without object values, each key maps to its rendered
      value. */
  lemma FlatQueryGet(params: Dict, k: string)
    requires WellFormed(params) && Flat(params)
    ensures Get(QueryString(params), k) == Rendered(Get(params, k))
  {
    FlatLastWrite(params, k);
    ApplyGet([], Writes(params), k);
  }

  /** For parameters without object values, the query keeps exactly the
      keys whose rendered value is defined, in their original order. */
  lemma {:induction false} FlatQueryKeys(params: Dict)
    requires WellFormed(params) && Flat(params)
    ensures Keys(QueryString(params)) == KeptKeys(params)
  {
    if params != [] {
      var n := |params| - 1;
      var init := params[..n];
      var last := params[n];
      InitWellFormed(params);
      FlatQueryKeys(init);
      var ew := EntryWrites(last.0, last.1);
      assert ew == if Rendered(last.1).Undefined? then [] else [(last.0, Rendered(last.1))];
      ApplyAppendFlat(Writes(init), last.0, Rendered(last.1));
      GetAbsent(init, last.0);
      FlatLastWrite(init, last.0);
      ApplyGet([], Writes(init), last.0);
      assert !Has(QueryString(init), last.0);
    }
  }

  /** The last assignment of a flat parameter adds at most one key. */
  lemma ApplyAppendFlat(ws: Dict, k: string, v: Value)
    ensures Apply([], ws + (if v.Undefined? then [] else [(k, v)]))
            == if v.Undefined? then Apply([], ws) else Set(Apply([], ws), k, v)
  {
    if v.Undefined? {
      assert ws + [] == ws;
    } else {
      ApplySnoc([], ws, (k, v));
    }
  }

  lemma BracketInjective(key: string, a: string, b: string)
    requires Bracket(key, a) == Bracket(key, b)
    ensures a == b
  {
    var x := Bracket(key, a);
    assert a == x[|key| + 1..|x| - 1];
  }

  lemma {:induction false} NestedLastWrite(key: string, props: Dict, nestedKey: string)
    requires WellFormed(props)
    ensures LastWrite(NestedWrites(key, props), Bracket(key, nestedKey))
            == if Blank(Get(props, nestedKey)) then None else Some(Get(props, nestedKey))
  {
    if props != [] {
      var n := |props| - 1;
      var init := props[..n];
      var last := props[n];
      assert props == init + [last];
      InitWellFormed(props);
      NestedLastWrite(key, init, nestedKey);
      LastWriteAppend(NestedWrites(key, init),
                      if Blank(last.1) then [] else [(Bracket(key, last.0), last.1)], Bracket(key, nestedKey));
      GetAppend(init, [last], nestedKey);
      if !Has(init, nestedKey) {
        GetAbsent(init, nestedKey);
      }
      if Bracket(key, last.0) == Bracket(key, nestedKey) {
        BracketInjective(key, last.0, nestedKey);
      }
    }
  }

  /** An object-valued parameter is flattened to `key[nestedKey]` entries,
      one per property that is not blank, each holding the property's
      value unchanged. */
  lemma NestedQueryString(key: string, props: Dict, nestedKey: string)
    requires WellFormed(props)
    ensures Get(QueryString([(key, Obj(props))]), Bracket(key, nestedKey))
            == if Blank(Get(props, nestedKey)) then Undefined else Get(props, nestedKey)
  {
    assert [(key, Obj(props))][..0] == [];
    assert Writes([(key, Obj(props))]) == NestedWrites(key, props);
    NestedLastWrite(key, props, nestedKey);
    ApplyGet([], NestedWrites(key, props), Bracket(key, nestedKey));
  }

  /** The query keys an object-valued parameter flattens to: the bracketed
      key of each non-blank property, in property order. */
  function NestedKeys(key: string, props: Dict): seq<string> {
    if props == [] then []
    else
      var last := props[|props| - 1];
      NestedKeys(key, props[..|props| - 1]) + (if Blank(last.1) then [] else [Bracket(key, last.0)])
  }

  /** An object-valued parameter alone is flattened to exactly its inner
      loop's assignments, in order: the query's keys are the bracketed keys
      of its non-blank properties, in property order, each once. */
  lemma NestedQueryKeys(key: string, props: Dict)
    requires WellFormed(props)
    ensures QueryString([(key, Obj(props))]) == NestedWrites(key, props)
    ensures Keys(QueryString([(key, Obj(props))])) == NestedKeys(key, props)
    ensures WellFormed(QueryString([(key, Obj(props))]))
  {
    assert [(key, Obj(props))][..0] == [];
    assert Writes([(key, Obj(props))]) == NestedWrites(key, props);
    NestedWritesWellFormed(key, props);
    ApplyDistinct(NestedWrites(key, props));
    NestedWritesKeys(key, props);
  }

  /** The keys of the inner loop's assignments. */
  lemma {:induction false} NestedWritesKeys(key: string, props: Dict)
    ensures Keys(NestedWrites(key, props)) == NestedKeys(key, props)
    decreases |props|
  {
    if props != [] {
      var last := props[|props| - 1];
      NestedWritesKeys(key, props[..|props| - 1]);
      KeysAppend(NestedWrites(key, props[..|props| - 1]),
                 if Blank(last.1) then [] else [(Bracket(key, last.0), last.1)]);
    }
  }

  /** The inner loop assigns each bracketed key at most once. */
  lemma {:induction false} NestedWritesWellFormed(key: string, props: Dict)
    requires WellFormed(props)
    ensures WellFormed(NestedWrites(key, props))
    decreases |props|
  {
    if props != [] {
      var init := props[..|props| - 1];
      var last := props[|props| - 1];
      InitWellFormed(props);
      NestedWritesWellFormed(key, init);
      if !Blank(last.1) {
        var before := NestedWrites(key, init);
        var b := Bracket(key, last.0);
        GetAbsent(init, last.0);
        NestedLastWrite(key, init, last.0);
        LastWriteHas(before, b);
        SetAppends(before, b, last.1);
        SetWellFormed(before, b, last.1);
      }
    }
  }

  /** A key has been assigned exactly when it is among the assigned keys. */
  lemma {:induction false} LastWriteHas(ws: Dict, k: string)
    ensures LastWrite(ws, k).Some? <==> Has(ws, k)
    decreases |ws|
  {
    if ws != [] {
      var init := ws[..|ws| - 1];
      LastWriteHas(init, k);
      assert ws == init + [ws[|ws| - 1]];
      KeysAppend(init, [ws[|ws| - 1]]);
    }
  }

  /** Assignments to distinct keys, made onto an empty object, build
      exactly the object that lists them in order. */
  lemma {:induction false} ApplyDistinct(ws: Dict)
    requires WellFormed(ws)
    ensures Apply([], ws) == ws
    decreases |ws|
  {
    if ws != [] {
      var init := ws[..|ws| - 1];
      var last := ws[|ws| - 1];
      assert ws == init + [last];
      assert Apply([], init) == init by {
        InitWellFormed(ws);
        ApplyDistinct(init);
      }
      assert !Has(init, last.0) by {
        InitWellFormed(ws);
      }
      SetAppends(init, last.0, last.1);
    }
  }

  /** An array of a single empty string passes the blank test and joins to
      `''`, which is then emitted. */
  lemma EmptyJoinEmitted()
    ensures QueryString([("tagIds", Arr([Str("")]))]) == [("tagIds", Str(""))]
  {
    var p := [("tagIds", Arr([Str("")]))];
    assert p[..0] == [];
    assert JoinValues([Str("")]) == "";
    assert Writes(p) == [("tagIds", Str(""))];
    assert Writes(p)[..0] == [];
  }

  // ---------------------------------------------------------------------
  // formatTimeRange

  /** `new Date(s).toISOString()`: the ISO form of a date string, or `None`
      when the string is not a valid date (a `RangeError`). */
  type DateToIso = string -> Option<string>

  const InvalidTimeValue := "Invalid time value"

  /** An optional string parameter is given when it is present and not empty. */
  predicate Given(s: Option<string>) {
    s.Some? && s.value != ""
  }

  /** The object `formatTimeRange(startTime, endTime)` returns, or the
      `RangeError` it throws: a `startTime` or `endTime` key exactly for each
      given bound, holding its ISO form, and an error as soon as a given
      bound is not a date. */
  function TimeRange(toIso: DateToIso, startTime: Option<string>, endTime: Option<string>): (r: Result<Dict>)
    ensures r.Err? <==> (Given(startTime) && toIso(startTime.value).None?)
                        || (Given(endTime) && toIso(endTime.value).None?)
    ensures r.Err? ==> r.error == InvalidTimeValue
    ensures r.Ok? ==> Keys(r.value) == (if Given(startTime) then ["startTime"] else [])
                                       + (if Given(endTime) then ["endTime"] else [])
    ensures r.Ok? ==> Get(r.value, "startTime")
                      == if Given(startTime) then Str(toIso(startTime.value).value) else Undefined
    ensures r.Ok? ==> Get(r.value, "endTime")
                      == if Given(endTime) then Str(toIso(endTime.value).value) else Undefined
  {
    if Given(startTime) && toIso(startTime.value).None? then Err(InvalidTimeValue)
    else if Given(endTime) && toIso(endTime.value).None? then Err(InvalidTimeValue)
    else
      Ok(Bounds(if Given(startTime) then Some(toIso(startTime.value).value) else None,
                if Given(endTime) then Some(toIso(endTime.value).value) else None))
  }

  /** The time-range object for bounds already in ISO form. */
  function Bounds(start: Option<string>, end: Option<string>): (d: Dict)
    ensures Keys(d) == (if start.Some? then ["startTime"] else []) + (if end.Some? then ["endTime"] else [])
    ensures Get(d, "startTime") == if start.Some? then Str(start.value) else Undefined
    ensures Get(d, "endTime") == if end.Some? then Str(end.value) else Undefined
  {
    var s := Entry(start.Some?, "startTime", if start.Some? then Str(start.value) else Undefined);
    var e := Entry(end.Some?, "endTime", if end.Some? then Str(end.value) else Undefined);
    KeysAppend(s, e);
    GetAppend(s, e, "startTime");
    GetAppend(s, e, "endTime");
    s + e
  }

  /** A time range has at most the two bounds, in order, each a string. */
  lemma BoundsShape(start: Option<string>, end: Option<string>)
    ensures var d := Bounds(start, end);
            && (Keys(d) == [] || Keys(d) == ["startTime"] || Keys(d) == ["endTime"]
                || Keys(d) == ["startTime", "endTime"])
            && forall i :: 0 <= i < |d| ==> d[i].1.Str?
  {
  }

  /** A time range that was formed is the object of its ISO bounds. */
  lemma TimeRangeBounds(toIso: DateToIso, startTime: Option<string>, endTime: Option<string>)
    requires TimeRange(toIso, startTime, endTime).Ok?
    ensures TimeRange(toIso, startTime, endTime).value
            == Bounds(if Given(startTime) then Some(toIso(startTime.value).value) else None,
                      if Given(endTime) then Some(toIso(endTime.value).value) else None)
  {
  }

  /** `formatTimeRange(startTime, endTime)` */
  method FormatTimeRange(toIso: DateToIso, startTime: Option<string>, endTime: Option<string>)
    returns (r: Result<Dict>)
    ensures r == TimeRange(toIso, startTime, endTime)
  {
    var timeRange: Dict := [];
    ghost var start: Dict := [];
    if Given(startTime) {
      var iso := toIso(startTime.value);
      if iso.None? {
        return Err(InvalidTimeValue);
      }
      SetAppends(timeRange, "startTime", Str(iso.value));
      timeRange := Set(timeRange, "startTime", Str(iso.value));
      assert timeRange == [("startTime", Str(iso.value))];
      start := timeRange;
    }
    if Given(endTime) {
      var iso := toIso(endTime.value);
      if iso.None? {
        return Err(InvalidTimeValue);
      }
      SetAppends(timeRange, "endTime", Str(iso.value));
      timeRange := Set(timeRange, "endTime", Str(iso.value));
      assert timeRange == start + [("endTime", Str(iso.value))];
    } else {
      assert timeRange == start + [];
    }
    return Ok(timeRange);
  }

  // ---------------------------------------------------------------------
  // parseIdList

  /** The argument of `parseIdList`: an array of ids or a comma-separated string. */
  datatype Ids = IdArray(ids: seq<string>) | IdText(text: string)

  /** `parseIdList(ids)` */
  function ParseIdList(ids: Ids): (r: seq<string>)
    ensures ids.IdArray? ==> r == ids.ids
    ensures ids.IdText? ==> |r| == Text.Count(ids.text, ',') + 1
    ensures ids.IdText? ==> forall i :: 0 <= i < |r| ==> ',' !in r[i] && r[i] == Text.Trim(r[i])
    ensures ids.IdText? ==> |r| == |Text.Split(ids.text, ',')|
    ensures ids.IdText? ==> forall i :: 0 <= i < |r| ==> r[i] == Text.Trim(Text.Split(ids.text, ',')[i])
  {
    match ids
    case IdArray(xs) => xs
    case IdText(s) =>
      Text.SplitLength(s, ',');
      var r := Text.SplitTrim(s, ',');
      forall i | 0 <= i < |r| ensures ',' !in r[i] && r[i] == Text.Trim(r[i]) {
        Text.TrimIdempotent(Text.Split(s, ',')[i]);
        TrimKeepsOut(Text.Split(s, ',')[i], ',');
      }
      r
  }

  lemma TrimKeepsOut(s: string, c: char)
    requires c !in s
    ensures c !in Text.Trim(s)
  {
    var r := Text.Trim(s);
    var lead := Text.LeadingSpaces(s);
    forall j | 0 <= j < |r|
      ensures r[j] != c
    {
      assert r[j] == s[lead + j];
    }
  }

  /** `s.split(',').map((id) => id.trim())` as a JSON array, the form every
      comma-separated id field takes in a request body. */
  function IdListValue(s: string): Value {
    StrArray(ParseIdList(IdText(s)))
  }

  /** An id is listed as itself: no comma, no surrounding whitespace. */
  predicate PlainId(id: string) {
    ',' !in id && Text.Trim(id) == id
  }

  /** Joining plain ids with commas and parsing the string gives them back. */
  lemma ParseJoined(ids: seq<string>)
    requires |ids| >= 1
    requires forall i :: 0 <= i < |ids| ==> PlainId(ids[i])
    ensures ParseIdList(IdText(Text.Join(ids, ","))) == ids
  {
    Text.SplitJoin(ids, ',');
  }

  // ---------------------------------------------------------------------
  // handleSamsaraError

  /** What a `catch` receives: an `Error` with its message, or any other value. */
  datatype Thrown = ErrorObject(message: string) | OtherThrown(value: Value)

  const ErrorPrefix := "Samsara API Error: "
  const UnknownError := "An unknown error occurred"

  /** The message of the `Error` `handleSamsaraError` always throws. */
  function HandleSamsaraError(thrown: Thrown): (message: string)
    ensures |message| >= |ErrorPrefix| && message[..|ErrorPrefix|] == ErrorPrefix
    ensures thrown.ErrorObject? ==> message[|ErrorPrefix|..] == thrown.message
    ensures thrown.OtherThrown? ==> message[|ErrorPrefix|..] == UnknownError
  {
    match thrown
    case ErrorObject(m) => ErrorPrefix + m
    case OtherThrown(_) => ErrorPrefix + UnknownError
  }
}
