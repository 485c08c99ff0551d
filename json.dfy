/** JavaScript values as the connector sees them: the JSON it sends and
    receives, and the plain objects (`IDataObject`) it builds key by key.
    An object is an association list in insertion order, which is the order
    in which JavaScript enumerates string keys and serialises them. */
module Json {

  import Text

  datatype Option<+T> = None | Some(value: T)

  /** The outcome of an operation that may throw; `Err` carries the message
      of the thrown `Error`. */
  datatype Result<+T> = Ok(value: T) | Err(error: string)

  datatype Value =
    | Undefined
    | Null
    | Bool(b: bool)
    | Num(n: int)
    | Str(s: string)
    | Arr(items: seq<Value>)
    | Obj(props: Dict)

  /** A JavaScript object: its own enumerable properties, in insertion order. */
  type Dict = seq<(string, Value)>

  /** JavaScript truthiness: `undefined`, `null`, `false`, `0` and `''` are falsy. */
  predicate Truthy(v: Value) {
    match v
    case Undefined | Null => false
    case Bool(b) => b
    case Num(n) => n != 0
    case Str(s) => s != ""
    case Arr(_) | Obj(_) => true
  }

  /** `undefined` or `null`: reading a property of it throws a `TypeError`. */
  predicate Nullish(v: Value) {
    v.Undefined? || v.Null?
  }

  /** The message of the `TypeError` reading property `k` of a nullish value
      throws. */
  function ReadError(v: Value, k: string): string {
    "Cannot read properties of " + (if v.Null? then "null" else "undefined") + " (reading '" + k + "')"
  }

  /** `a || b` */
  function Or(a: Value, b: Value): Value {
    if Truthy(a) then a else b
  }

  /** `Object.keys(d)` */
  function Keys(d: Dict): (ks: seq<string>)
    ensures |ks| == |d|
    ensures forall i :: 0 <= i < |d| ==> ks[i] == d[i].0
  {
    seq(|d|, i requires 0 <= i < |d| => d[i].0)
  }

  /** `k in d` (own properties only) */
  predicate Has(d: Dict, k: string) {
    k in Keys(d)
  }

  predicate Distinct(ks: seq<string>) {
    forall i, j :: 0 <= i < j < |ks| ==> ks[i] != ks[j]
  }

  /** A well-formed object has each key at most once. */
  predicate WellFormed(d: Dict) {
    Distinct(Keys(d))
  }

  /** `d[k]`: the value stored under `k`, or `undefined` when there is none. */
  function Get(d: Dict, k: string): Value {
    if d == [] then Undefined
    else if d[0].0 == k then d[0].1
    else Get(d[1..], k)
  }

  lemma {:induction false} GetAbsent(d: Dict, k: string)
    requires !Has(d, k)
    ensures Get(d, k) == Undefined
  {
    if d != [] {
      assert Keys(d) == [d[0].0] + Keys(d[1..]);
      GetAbsent(d[1..], k);
    }
  }

  /** `d[k] = v`: an existing key keeps its place and takes the new value,
      a new key is appended. */
  function Set(d: Dict, k: string, v: Value): (r: Dict)
    ensures Get(r, k) == v
    ensures forall k' :: k' != k ==> Get(r, k') == Get(d, k')
    ensures Keys(r) == if Has(d, k) then Keys(d) else Keys(d) + [k]
  {
    if Has(d, k) then Replace(d, k, v)
    else
      GetAppend(d, [(k, v)], k);
      assert forall k' :: k' != k ==> Get(d + [(k, v)], k') == Get(d, k') by {
        forall k' | k' != k
          ensures Get(d + [(k, v)], k') == Get(d, k')
        {
          GetAppend(d, [(k, v)], k');
          if !Has(d, k') {
            GetAbsent(d, k');
          }
        }
      }
      assert Keys(d + [(k, v)]) == Keys(d) + [k];
      d + [(k, v)]
  }

  /** Overwriting the value of a key that is present. */
  function Replace(d: Dict, k: string, v: Value): (r: Dict)
    requires Has(d, k)
    ensures Get(r, k) == v
    ensures forall k' :: k' != k ==> Get(r, k') == Get(d, k')
    ensures Keys(r) == Keys(d)
  {
    if d[0].0 == k then
      ReplaceHead(d, k, v);
      [(k, v)] + d[1..]
    else
      assert Keys(d) == [d[0].0] + Keys(d[1..]);
      var rest := Replace(d[1..], k, v);
      KeepHead(d, k, v, rest);
      [d[0]] + rest
  }

  lemma ReplaceHead(d: Dict, k: string, v: Value)
    requires d != [] && d[0].0 == k
    ensures Get([(k, v)] + d[1..], k) == v
    ensures forall k' :: k' != k ==> Get([(k, v)] + d[1..], k') == Get(d, k')
    ensures Keys([(k, v)] + d[1..]) == Keys(d)
  {
    var r := [(k, v)] + d[1..];
    assert r[1..] == d[1..];
    assert Keys(r) == Keys(d);
  }

  lemma KeepHead(d: Dict, k: string, v: Value, rest: Dict)
    requires d != [] && d[0].0 != k
    requires Get(rest, k) == v
    requires forall k' :: k' != k ==> Get(rest, k') == Get(d[1..], k')
    requires Keys(rest) == Keys(d[1..])
    ensures Get([d[0]] + rest, k) == v
    ensures forall k' :: k' != k ==> Get([d[0]] + rest, k') == Get(d, k')
    ensures Keys([d[0]] + rest) == Keys(d)
  {
    var r := [d[0]] + rest;
    assert r[0] == d[0] && r[1..] == rest;
    assert Keys(d) == [d[0].0] + Keys(d[1..]);
    assert Keys(r) == [d[0].0] + Keys(rest);
  }

  /** `v?.[k]` and `v.k` on an object: the property, or `undefined` when `v`
      is not an object. */
  function Member(v: Value, k: string): (r: Value)
    ensures !v.Obj? ==> r == Undefined
  {
    match v
    case Obj(ps) => Get(ps, k)
    case _ => Undefined
  }

  /** Assignment keeps an object's keys distinct. */
  lemma {:induction false} SetWellFormed(d: Dict, k: string, v: Value)
    requires WellFormed(d)
    ensures WellFormed(Set(d, k, v))
  {
    var r := Set(d, k, v);
    if !Has(d, k) {
      assert Keys(r) == Keys(d) + [k];
    }
  }

  /** `String(v)`, as a template literal or a property key renders `v`;
      an array renders as `v.join(',')`, where `undefined` and `null`
      elements render as `''`. */
  function Display(v: Value): string {
    match v
    case Undefined => "undefined"
    case Null => "null"
    case Bool(b) => if b then "true" else "false"
    case Num(n) => Text.IntToString(n)
    case Str(s) => s
    case Arr(xs) =>
      Text.Join(seq(|xs|, i requires 0 <= i < |xs| =>
                      if xs[i].Undefined? || xs[i].Null? then "" else Display(xs[i])), ",")
    case Obj(_) => "[object Object]"
  }

  /** `xs.join(',')` */
  function JoinValues(xs: seq<Value>): string {
    Display(Arr(xs))
  }

  /** A JSON array of strings. */
  function StrArray(xs: seq<string>): (v: Value)
    ensures v.Arr? && |v.items| == |xs|
    ensures forall i :: 0 <= i < |xs| ==> v.items[i] == Str(xs[i])
  {
    Arr(seq(|xs|, i requires 0 <= i < |xs| => Str(xs[i])))
  }

  /** Assigning a new key appends it. */
  lemma SetAppends(d: Dict, k: string, v: Value)
    requires !Has(d, k)
    ensures Set(d, k, v) == d + [(k, v)]
  {
  }

  /** Dropping the last entry of a well-formed object leaves a well-formed
      object that lacks the last key. */
  lemma InitWellFormed(d: Dict)
    requires WellFormed(d) && d != []
    ensures WellFormed(d[..|d| - 1])
    ensures !Has(d[..|d| - 1], d[|d| - 1].0)
  {
    var init := d[..|d| - 1];
    forall j | 0 <= j < |Keys(init)|
      ensures Keys(init)[j] != d[|d| - 1].0
    {
      assert Keys(init)[j] == Keys(d)[j];
    }
  }

  /** In a well-formed object, each entry is what its key reads as. */
  lemma {:induction false} GetAt(d: Dict, i: int)
    requires WellFormed(d) && 0 <= i < |d|
    ensures Get(d, d[i].0) == d[i].1
  {
    if i > 0 {
      assert Keys(d)[0] != Keys(d)[i];
      assert forall j :: 0 <= j < |d| - 1 ==> Keys(d[1..])[j] == Keys(d)[j + 1];
      assert d[1..][i - 1] == d[i];
      GetAt(d[1..], i - 1);
    }
  }

  /** The keys of an object built by appending. */
  lemma KeysAppend(d: Dict, e: Dict)
    ensures Keys(d + e) == Keys(d) + Keys(e)
  {
  }

  /** An object of at most one entry: `{k: v}` when `present`, else `{}`. */
  function Entry(present: bool, k: string, v: Value): (d: Dict)
    ensures Keys(d) == if present then [k] else []
    ensures forall k' :: Get(d, k') == if present && k' == k then v else Undefined
  {
    if present then [(k, v)] else []
  }

  /** Reading through an object built by appending: the first part wins. */
  lemma {:induction false} GetAppend(d: Dict, e: Dict, k: string)
    ensures Get(d + e, k) == if Has(d, k) then Get(d, k) else Get(e, k)
  {
    if d != [] {
      assert (d + e)[0] == d[0];
      assert (d + e)[1..] == d[1..] + e;
      assert Keys(d) == [d[0].0] + Keys(d[1..]);
      GetAppend(d[1..], e, k);
    } else {
      assert d + e == e;
    }
  }
}
