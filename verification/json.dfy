/** JavaScript values as they travel through the stored inputs, template fields and
    request bodies: the truthiness test, property reads, `String(v)` and the
    `undefined`-to-`null` replacer passed to `JSON.stringify`. */
module Json {
  import opened Text

  /** A JavaScript value. Numbers are integers here (see README, "Left out"). */
  datatype Value =
    | Undefined
    | Null
    | Bool(b: bool)
    | Num(n: int)
    | Str(s: string)
    | Arr(items: seq<Value>)
    | Obj(fields: map<string, Value>)

  /** A plain object used as a dictionary. */
  type Record = map<string, Value>

  /** `r[key]`: a missing own property reads as `undefined`. */
  function Get(r: Record, key: string): Value {
    if key in r then r[key] else Undefined
  }

  /** `v[key]` for a value that is not known to be an object. Only plain objects are
      given own properties here. */
  function Member(v: Value, key: string): Value {
    if v.Obj? then Get(v.fields, key) else Undefined
  }

  /** JavaScript's ToBoolean. */
  predicate Truthy(v: Value) {
    match v
    case Undefined => false
    case Null => false
    case Bool(b) => b
    case Num(n) => n != 0
    case Str(s) => s != ""
    case Arr(_) => true
    case Obj(_) => true
  }

  /** JavaScript's `String(v)`. An array joins its elements with "," and writes `null`
      and `undefined` elements as empty strings. */
  function ToJsString(v: Value): string {
    match v
    case Undefined => "undefined"
    case Null => "null"
    case Bool(b) => if b then "true" else "false"
    case Num(n) => IntToString(n)
    case Str(s) => s
    case Arr(xs) =>
      JoinWith(seq(|xs|, i requires 0 <= i < |xs| =>
                 if xs[i].Undefined? || xs[i].Null? then "" else ToJsString(xs[i])), ",")
    case Obj(_) => "[object Object]"
  }

  /** No `undefined` anywhere inside the value. */
  predicate NoUndefined(v: Value) {
    match v
    case Undefined => false
    case Arr(xs) => forall i :: 0 <= i < |xs| ==> NoUndefined(xs[i])
    case Obj(m) => forall k :: k in m ==> NoUndefined(m[k])
    case _ => true
  }

  /** The replacer `(key, value) => typeof value === 'undefined' ? null : value`, applied at
      every depth as `JSON.stringify` does. */
  function Normalize(v: Value): (r: Value)
    ensures NoUndefined(r)
    ensures v.Undefined? ==> r == Null
    ensures v.Arr? ==>
      (r.Arr? && |r.items| == |v.items| &&
       forall i :: 0 <= i < |v.items| ==> r.items[i] == Normalize(v.items[i]))
    ensures v.Obj? ==>
      (r.Obj? && r.fields.Keys == v.fields.Keys &&
       forall k :: k in v.fields ==> r.fields[k] == Normalize(v.fields[k]))
    ensures !v.Undefined? && !v.Arr? && !v.Obj? ==> r == v
  {
    match v
    case Undefined => Null
    case Arr(xs) => Arr(seq(|xs|, i requires 0 <= i < |xs| => Normalize(xs[i])))
    case Obj(m) => Obj(map k | k in m :: Normalize(m[k]))
    case _ => v
  }

  /** The replacer leaves a value without `undefined` as it is. */
  lemma {:induction false} NormalizeKeepsDefined(v: Value)
    requires NoUndefined(v)
    ensures Normalize(v) == v
  {
    match v
    case Arr(xs) =>
      forall i | 0 <= i < |xs| ensures Normalize(xs[i]) == xs[i] {
        NormalizeKeepsDefined(xs[i]);
      }
    case Obj(m) =>
      forall k | k in m ensures Normalize(m[k]) == m[k] {
        NormalizeKeepsDefined(m[k]);
      }
      assert (map k | k in m :: Normalize(m[k])) == m;
    case _ =>
  }
}
