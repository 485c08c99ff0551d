/** The shared formatting helpers: output simplification, the geofence and
    route-stop shapes the API expects, and the once-per-process licensing
    notice. */
module Utils {

  import opened Json

  // ---------------------------------------------------------------------
  // simplifyOutput

  /** The listed fields present in `data`, each once, in the order of their
      first mention. */
  function Selected(data: Dict, fields: seq<string>): seq<string> {
    if fields == [] then []
    else
      var s := Selected(data, fields[..|fields| - 1]);
      var f := fields[|fields| - 1];
      if Has(data, f) && f !in s then s + [f] else s
  }

  /** `simplifyOutput(data, fields)`: with no field list (or an empty one)
      the data itself; otherwise exactly the listed fields that `data` has,
      with their values, in the order they are listed. */
  method SimplifyOutput(data: Dict, fields: Option<seq<string>>) returns (r: Dict)
    ensures fields.None? || |fields.value| == 0 ==> r == data
    ensures fields.Some? && |fields.value| > 0 ==>
              && WellFormed(r)
              && Keys(r) == Selected(data, fields.value)
              && (forall k :: Has(r, k) <==> k in fields.value && Has(data, k))
              && (forall k :: Get(r, k) == if k in fields.value then Get(data, k) else Undefined)
  {
    if fields.None? || |fields.value| == 0 {
      return data;
    }
    var fs := fields.value;
    r := [];
    for i := 0 to |fs|
      invariant WellFormed(r)
      invariant Keys(r) == Selected(data, fs[..i])
      invariant forall k :: Has(r, k) <==> k in fs[..i] && Has(data, k)
      invariant forall k :: Get(r, k) == if k in fs[..i] then Get(data, k) else Undefined
    {
      var field := fs[i];
      assert fs[..i + 1] == fs[..i] + [field];
      assert fs[..i + 1][..i] == fs[..i];
      if Has(data, field) {
        SetWellFormed(r, field, Get(data, field));
        r := Set(r, field, Get(data, field));
      } else {
        GetAbsent(data, field);
      }
    }
    assert fs[..|fs|] == fs;
  }

  // ---------------------------------------------------------------------
  // formatGeofence

  const DefaultRadiusMeters := 100

  /** The effective geofence type: the given one, or `'circle'` when falsy. */
  function GeofenceType(geofence: Value): Value {
    Or(Member(geofence, "type"), Str("circle"))
  }

  /** The `circle` member: the centre, and the radius or its default. */
  function Circle(geofence: Value): (c: Dict)
    ensures Keys(c) == ["latitude", "longitude", "radiusMeters"]
    ensures Get(c, "latitude") == Member(geofence, "latitude")
    ensures Get(c, "longitude") == Member(geofence, "longitude")
    ensures Get(c, "radiusMeters")
            == if Truthy(Member(geofence, "radiusMeters")) then Member(geofence, "radiusMeters")
               else Num(DefaultRadiusMeters)
  {
    var c := [("latitude", Member(geofence, "latitude")),
              ("longitude", Member(geofence, "longitude")),
              ("radiusMeters", Or(Member(geofence, "radiusMeters"), Num(DefaultRadiusMeters)))];
    GetAt(c, 0);
    GetAt(c, 1);
    GetAt(c, 2);
    c
  }

  /** The `polygon` member: the vertices, or none. */
  function Polygon(geofence: Value): (p: Dict)
    ensures Keys(p) == ["vertices"]
    ensures Get(p, "vertices")
            == if Truthy(Member(geofence, "vertices")) then Member(geofence, "vertices") else Arr([])
  {
    [("vertices", Or(Member(geofence, "vertices"), Arr([])))]
  }

  /** A two-member object `{type, <shape>}`. */
  function Shaped(kind: Value, shape: string, body: Dict): (r: Dict)
    requires shape != "type"
    ensures Keys(r) == ["type", shape]
    ensures Get(r, "type") == kind && Get(r, shape) == Obj(body)
  {
    var r := [("type", kind), (shape, Obj(body))];
    GetAt(r, 1);
    r
  }

  /** `formatGeofence(geofence)` */
  function FormatGeofence(geofence: Value): (r: Value)
    ensures !Truthy(geofence) ==> r == Obj([])
    ensures Truthy(geofence) ==> r.Obj? && Get(r.props, "type") == GeofenceType(geofence)
    ensures Truthy(geofence) && GeofenceType(geofence) == Str("circle") ==>
              && Keys(r.props) == ["type", "circle"]
              && Member(Get(r.props, "circle"), "latitude") == Member(geofence, "latitude")
              && Member(Get(r.props, "circle"), "longitude") == Member(geofence, "longitude")
              && Member(Get(r.props, "circle"), "radiusMeters")
                 == (if Truthy(Member(geofence, "radiusMeters")) then Member(geofence, "radiusMeters")
                     else Num(DefaultRadiusMeters))
    ensures Truthy(geofence) && GeofenceType(geofence) != Str("circle") ==>
              && Keys(r.props) == ["type", "polygon"]
              && Member(Get(r.props, "polygon"), "vertices")
                 == (if Truthy(Member(geofence, "vertices")) then Member(geofence, "vertices") else Arr([]))
  {
    if !Truthy(geofence) then Obj([])
    else
      var kind := GeofenceType(geofence);
      if kind == Str("circle") then Obj(Shaped(kind, "circle", Circle(geofence)))
      else Obj(Shaped(kind, "polygon", Polygon(geofence)))
  }

  /** A geofence without a type is a circle, whose radius is the given one
      or else the default, and one whose vertices are given keeps them all,
      in order. */
  lemma GeofenceDefaults(geofence: Dict)
    ensures !Has(geofence, "type") ==>
              var r := FormatGeofence(Obj(geofence));
              && Get(r.props, "type") == Str("circle")
              && Member(Get(r.props, "circle"), "radiusMeters")
                 == if Truthy(Get(geofence, "radiusMeters")) then Get(geofence, "radiusMeters")
                    else Num(DefaultRadiusMeters)
    ensures Get(geofence, "type") == Str("polygon") && Get(geofence, "vertices").Arr? ==>
              Member(Get(FormatGeofence(Obj(geofence)).props, "polygon"), "vertices") == Get(geofence, "vertices")
  {
    var r := FormatGeofence(Obj(geofence));
    if !Has(geofence, "type") {
      GetAbsent(geofence, "type");
      assert GeofenceType(Obj(geofence)) == Str("circle");
    }
  }

  // ---------------------------------------------------------------------
  // formatStopObject

  /** `new Date(v as string).toISOString()`, or `None` for an invalid date
      (a `RangeError`). */
  type ValueToIso = Value -> Option<string>

  const InvalidTimeValue := "Invalid time value"

  /** A time field's ISO form, when it is given and is a date. */
  function IsoOf(toIso: ValueToIso, v: Value): Value {
    if Truthy(v) && toIso(v).Some? then Str(toIso(v).value) else Undefined
  }

  /** A time field that is given but is not a date. */
  predicate BadTime(toIso: ValueToIso, v: Value) {
    Truthy(v) && toIso(v).None?
  }

  /** The fields of a route stop that `formatStopObject` reads. */
  datatype Stop = Stop(name: Value, addressId: Value, latitude: Value, longitude: Value,
                       arrival: Value, departure: Value, notes: Value)

  function ReadStop(stop: Dict): Stop {
    Stop(Get(stop, "name"), Get(stop, "addressId"), Get(stop, "latitude"), Get(stop, "longitude"),
         Get(stop, "scheduledArrivalTime"), Get(stop, "scheduledDepartureTime"), Get(stop, "notes"))
  }

  /** The field of a stop stored under key `k`. */
  function StopField(s: Stop, k: string): Value {
    if k == "name" then s.name
    else if k == "addressId" then s.addressId
    else if k == "latitude" then s.latitude
    else if k == "longitude" then s.longitude
    else if k == "scheduledArrivalTime" then s.arrival
    else if k == "scheduledDepartureTime" then s.departure
    else if k == "notes" then s.notes
    else Undefined
  }

  /** Where a stop is placed: by its address when one is given, or else by
      its coordinates when both are given, or not at all. */
  function PlaceKeys(s: Stop): seq<string> {
    if Truthy(s.addressId) then ["addressId"]
    else if Truthy(s.latitude) && Truthy(s.longitude) then ["latitude", "longitude"]
    else []
  }

  /** The keys of a formatted stop: always `name`; then its place; then each
      schedule time and the notes that are given. */
  function StopKeys(s: Stop): seq<string> {
    ["name"] + PlaceKeys(s)
    + (if Truthy(s.arrival) then ["scheduledArrivalTime"] else [])
    + (if Truthy(s.departure) then ["scheduledDepartureTime"] else [])
    + (if Truthy(s.notes) then ["notes"] else [])
  }

  /** The name, then the address or else both coordinates. */
  function Place(s: Stop): (r: Dict)
    ensures Keys(r) == ["name"] + PlaceKeys(s)
    ensures forall k :: Get(r, k) == if k in Keys(r) then StopField(s, k) else Undefined
  {
    var r := [("name", s.name)]
             + if Truthy(s.addressId) then [("addressId", s.addressId)]
               else if Truthy(s.latitude) && Truthy(s.longitude) then
                 [("latitude", s.latitude), ("longitude", s.longitude)]
               else [];
    forall i | 0 <= i < |r|
      ensures Get(r, r[i].0) == StopField(s, r[i].0)
    {
      GetAt(r, i);
    }
    forall k | k !in Keys(r)
      ensures Get(r, k) == Undefined
    {
      GetAbsent(r, k);
    }
    r
  }

  /** The object `formatStopObject` builds, given the ISO forms of the
      schedule times: its place, then each schedule time that is given,
      then the notes when given. */
  function StopObject(s: Stop, arrival: Value, departure: Value): Dict {
    DeparturePart(s, arrival, departure) + Entry(Truthy(s.notes), "notes", s.notes)
  }

  function ArrivalPart(s: Stop, arrival: Value): Dict {
    Place(s) + Entry(Truthy(s.arrival), "scheduledArrivalTime", arrival)
  }

  function DeparturePart(s: Stop, arrival: Value, departure: Value): Dict {
    ArrivalPart(s, arrival) + Entry(Truthy(s.departure), "scheduledDepartureTime", departure)
  }

  /** The outcome of `formatStopObject`: the `RangeError` of a schedule time
      that is not a date, or the formatted object. */
  function FormattedStop(toIso: ValueToIso, s: Stop): Result<Dict> {
    if BadTime(toIso, s.arrival) || BadTime(toIso, s.departure) then Err(InvalidTimeValue)
    else Ok(StopObject(s, IsoOf(toIso, s.arrival), IsoOf(toIso, s.departure)))
  }

  /** The keys each later assignment of `formatStopObject` writes are new. */
  lemma ArrivalFresh(s: Stop)
    ensures !Has(Place(s), "scheduledArrivalTime")
  {
  }

  lemma DepartureFresh(s: Stop, arrival: Value)
    ensures !Has(ArrivalPart(s, arrival), "scheduledDepartureTime")
  {
    KeysAppend(Place(s), Entry(Truthy(s.arrival), "scheduledArrivalTime", arrival));
  }

  lemma NotesFresh(s: Stop, arrival: Value, departure: Value)
    ensures !Has(DeparturePart(s, arrival, departure), "notes")
  {
    assert !Has(Place(s), "notes");
    AbsentFromParts(Place(s), Entry(Truthy(s.arrival), "scheduledArrivalTime", arrival),
                    Entry(Truthy(s.departure), "scheduledDepartureTime", departure), "notes");
  }

  lemma AbsentFromParts(p: Dict, a: Dict, d: Dict, k: string)
    requires !Has(p, k) && !Has(a, k) && !Has(d, k)
    ensures !Has(p + a + d, k)
  {
    KeysAppend(p, a);
    KeysAppend(p + a, d);
  }

  /** A conditional assignment of a new key appends an entry. */
  lemma AssignNew(d: Dict, present: bool, k: string, v: Value)
    requires !Has(d, k)
    ensures (if present then Set(d, k, v) else d) == d + Entry(present, k, v)
  {
    if present {
      SetAppends(d, k, v);
    } else {
      assert d + [] == d;
    }
  }

  /** The first statements of `formatStopObject`: the name, then the
      address or else both coordinates. */
  method PlaceStop(s: Stop) returns (formatted: Dict)
    ensures formatted == Place(s)
  {
    SetAppends([], "name", s.name);
    formatted := Set([], "name", s.name);
    assert Keys(formatted) == ["name"];
    if Truthy(s.addressId) {
      SetAppends(formatted, "addressId", s.addressId);
      formatted := Set(formatted, "addressId", s.addressId);
    } else if Truthy(s.latitude) && Truthy(s.longitude) {
      SetAppends(formatted, "latitude", s.latitude);
      formatted := Set(formatted, "latitude", s.latitude);
      assert Keys(formatted) == ["name", "latitude"];
      SetAppends(formatted, "longitude", s.longitude);
      formatted := Set(formatted, "longitude", s.longitude);
    }
  }

  /** `formatStopObject(stop)`: every assignment writes a key the object
      does not hold yet. */
  method FormatStopObject(toIso: ValueToIso, s: Stop) returns (r: Result<Dict>)
    ensures r == FormattedStop(toIso, s)
  {
    var arrival := IsoOf(toIso, s.arrival);
    var departure := IsoOf(toIso, s.departure);
    var formatted := PlaceStop(s);
    ArrivalFresh(s);
    AssignNew(formatted, Truthy(s.arrival), "scheduledArrivalTime", arrival);
    if Truthy(s.arrival) {
      var iso := toIso(s.arrival);
      if iso.None? {
        return Err(InvalidTimeValue);
      }
      formatted := Set(formatted, "scheduledArrivalTime", Str(iso.value));
    }
    assert formatted == ArrivalPart(s, arrival);
    DepartureFresh(s, arrival);
    AssignNew(formatted, Truthy(s.departure), "scheduledDepartureTime", departure);
    if Truthy(s.departure) {
      var iso := toIso(s.departure);
      if iso.None? {
        return Err(InvalidTimeValue);
      }
      formatted := Set(formatted, "scheduledDepartureTime", Str(iso.value));
    }
    assert formatted == DeparturePart(s, arrival, departure);
    NotesFresh(s, arrival, departure);
    AssignNew(formatted, Truthy(s.notes), "notes", s.notes);
    if Truthy(s.notes) {
      formatted := Set(formatted, "notes", s.notes);
    }
    assert formatted == StopObject(s, arrival, departure);
    return Ok(formatted);
  }

  /** Reading a key that only the second of four parts may hold. */
  lemma GetSecond(p: Dict, a: Dict, d: Dict, n: Dict, k: string)
    requires !Has(p, k) && !Has(d, k) && !Has(n, k)
    ensures Get(p + a + d + n, k) == Get(a, k)
  {
    GetAppend(p, a, k);
    GetAppend(p + a, d, k);
    GetAppend(p + a + d, n, k);
    KeysAppend(p, a);
    KeysAppend(p + a, d);
    if !Has(a, k) {
      GetAbsent(a, k);
      GetAbsent(n, k);
    }
  }

  /** The formatted stop holds exactly `StopKeys`, in that order. */
  lemma StopObjectKeys(s: Stop, arrival: Value, departure: Value)
    ensures Keys(StopObject(s, arrival, departure)) == StopKeys(s)
  {
    KeysAppend(Place(s), Entry(Truthy(s.arrival), "scheduledArrivalTime", arrival));
    KeysAppend(ArrivalPart(s, arrival), Entry(Truthy(s.departure), "scheduledDepartureTime", departure));
    KeysAppend(DeparturePart(s, arrival, departure), Entry(Truthy(s.notes), "notes", s.notes));
  }

  /** The name, and the address or the coordinates, keep the stop's values. */
  lemma StopPlaceFields(s: Stop, arrival: Value, departure: Value, k: string)
    requires k in ["name"] + PlaceKeys(s)
    ensures Get(StopObject(s, arrival, departure), k) == StopField(s, k)
  {
    var placed := Place(s);
    var a := Entry(Truthy(s.arrival), "scheduledArrivalTime", arrival);
    var d := Entry(Truthy(s.departure), "scheduledDepartureTime", departure);
    var n := Entry(Truthy(s.notes), "notes", s.notes);
    GetAppend(placed, a, k);
    GetAppend(placed + a, d, k);
    GetAppend(placed + a + d, n, k);
    KeysAppend(placed, a);
    KeysAppend(placed + a, d);
  }

  /** Each schedule time is written, in ISO form, exactly when it is given. */
  lemma StopArrival(s: Stop, arrival: Value, departure: Value)
    ensures Get(StopObject(s, arrival, departure), "scheduledArrivalTime")
            == if Truthy(s.arrival) then arrival else Undefined
  {
    ArrivalFresh(s);
    GetSecond(Place(s), Entry(Truthy(s.arrival), "scheduledArrivalTime", arrival),
              Entry(Truthy(s.departure), "scheduledDepartureTime", departure),
              Entry(Truthy(s.notes), "notes", s.notes), "scheduledArrivalTime");
  }

  lemma StopDeparture(s: Stop, arrival: Value, departure: Value)
    ensures Get(StopObject(s, arrival, departure), "scheduledDepartureTime")
            == if Truthy(s.departure) then departure else Undefined
  {
    var a := Entry(Truthy(s.arrival), "scheduledArrivalTime", arrival);
    var d := Entry(Truthy(s.departure), "scheduledDepartureTime", departure);
    DepartureFresh(s, arrival);
    KeysAppend(Place(s) + a, d);
    GetAppend(Place(s) + a, d, "scheduledDepartureTime");
    GetAppend(Place(s) + a + d, Entry(Truthy(s.notes), "notes", s.notes), "scheduledDepartureTime");
  }

  /** The notes are copied exactly when they are given. */
  lemma StopNotes(s: Stop, arrival: Value, departure: Value)
    ensures Get(StopObject(s, arrival, departure), "notes") == if Truthy(s.notes) then s.notes else Undefined
  {
    NotesFresh(s, arrival, departure);
    GetAppend(DeparturePart(s, arrival, departure), Entry(Truthy(s.notes), "notes", s.notes), "notes");
  }

  /** A stop holding only a name formats to exactly `{name}`. */
  lemma NameOnlyStop(toIso: ValueToIso, stop: Dict)
    requires Keys(stop) == ["name"]
    ensures FormattedStop(toIso, ReadStop(stop)) == Ok([("name", Get(stop, "name"))])
  {
    assert Keys(stop)[0] == stop[0].0;
    forall k | k != "name"
      ensures Get(stop, k) == Undefined
    {
      GetAbsent(stop, k);
    }
    var only := ReadStop(stop);
    assert only == Stop(Get(stop, "name"), Undefined, Undefined, Undefined, Undefined, Undefined, Undefined);
    assert StopKeys(only) == ["name"];
    var r := StopObject(only, Undefined, Undefined);
    StopObjectKeys(only, Undefined, Undefined);
    StopPlaceFields(only, Undefined, Undefined, "name");
    GetAt(r, 0);
    assert r == [r[0]];
  }

  // ---------------------------------------------------------------------
  // logLicenseNotice

  const LicenseNotice :=
    "\n[Velocity BPA Licensing Notice]\n\n"
    + "This n8n node is licensed under the Business Source License 1.1 (BSL 1.1).\n\n"
    + "Use of this node by for-profit organizations in production environments requires a commercial license from Velocity BPA.\n\n"
    + "For licensing information, visit https://velobpa.com/licensing or contact licensing@velobpa.com.\n"

  /** The process-wide licensing state: the global `__samsaraLicenseLogged`
      flag, and the warnings written to the console. */
  class License {
    var licenseLogged: bool
    var warnings: seq<string>

    /** The notice has been written exactly when the flag is set, and at
        most once. */
    predicate Valid()
      reads this
    {
      && |warnings| <= 1
      && (licenseLogged <==> |warnings| == 1)
      && (|warnings| == 1 ==> warnings[0] == LicenseNotice)
    }

    /** A fresh process: the flag is unset and nothing was written. */
    constructor()
      ensures Valid() && !licenseLogged && warnings == []
    {
      licenseLogged := false;
      warnings := [];
    }

    /** `logLicenseNotice()`: write the notice unless the flag says it was
        written, then set the flag. */
    method LogLicenseNotice()
      requires Valid()
      modifies this
      ensures Valid() && licenseLogged
      ensures warnings == if old(licenseLogged) then old(warnings) else old(warnings) + [LicenseNotice]
    {
      if !licenseLogged {
        warnings := warnings + [LicenseNotice];
        licenseLogged := true;
      }
    }
  }
}
