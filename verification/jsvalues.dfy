/** The JavaScript values an options argument can hold, and the few lodash
    and language operations the library applies to them.
 */
module JsValues {
  import opened Text

  /** A JavaScript value. Numbers are integers; a plain object is its own
      enumerable properties in enumeration order (for JavaScript, integer-like
      keys first in ascending order, then the others in insertion order) and
      its keys are meant to be distinct. `Func` is a function value, which has
      no own enumerable properties. */
  datatype Value =
    | Undefined
    | Null
    | Bool(b: bool)
    | Num(n: int)
    | Str(s: string)
    | Arr(items: seq<Value>)
    | Obj(fields: seq<(string, Value)>)
    | Func

  /** `_.isObject`: arrays, plain objects and functions. */
  predicate IsObject(v: Value)
  {
    v.Arr? || v.Obj? || v.Func?
  }

  /** `_.isPlainObject`. */
  predicate IsPlainObject(v: Value)
  {
    v.Obj?
  }

  /** The first property called `key`, or `Undefined` when there is none. */
  function Lookup(fields: seq<(string, Value)>, key: string): (r: Value)
    ensures (forall i :: 0 <= i < |fields| ==> fields[i].0 != key) ==> r == Undefined
    ensures |fields| > 0 && fields[0].0 == key ==> r == fields[0].1
  {
    if |fields| == 0 then Undefined
    else if fields[0].0 == key then fields[0].1
    else Lookup(fields[1..], key)
  }

  /** `v[key]` for a property name that is not an array index. */
  function Prop(v: Value, key: string): Value
  {
    if v.Obj? then Lookup(v.fields, key) else Undefined
  }

  /** `_.keys(v)` paired with each key's value, in enumeration order: a
      plain object's fields as listed, the decimal indices of an array, and
      nothing for a function or a primitive. */
  function Entries(v: Value): (r: seq<(string, Value)>)
    ensures v.Arr? ==> |r| == |v.items|
    ensures v.Arr? ==> forall i :: 0 <= i < |r| ==> r[i] == (NatToString(i), v.items[i])
    ensures v.Obj? ==> r == v.fields
    ensures !IsObject(v) || v.Func? ==> r == []
  {
    match v
    case Obj(fields) => fields
    case Arr(items) => seq(|items|, i requires 0 <= i < |items| => (NatToString(i), items[i]))
    case _ => []
  }

  /** `String(v)` for a string or number. A number is written as decimal
      digits, which is what JavaScript writes for safe integers below 10^21 in
      size. */
  function ToText(v: Value): (r: string)
    requires v.Str? || v.Num?
    ensures v.Num? ==> |r| > 0
  {
    if v.Str? then v.s else IntToString(v.n)
  }

  /** Sets property `key` of a list of properties: an existing property keeps
      its place, a new one goes last. */
  function SetField(fields: seq<(string, Value)>, key: string, x: Value): (r: seq<(string, Value)>)
    ensures Lookup(r, key) == x
    ensures forall k :: k != key ==> Lookup(r, k) == Lookup(fields, k)
    ensures |r| == |fields| || (|r| == |fields| + 1 && r[|fields|] == (key, x))
    ensures forall i :: 0 <= i < |fields| ==> r[i].0 == fields[i].0
  {
    if |fields| == 0 then [(key, x)]
    else if fields[0].0 == key then [(key, x)] + fields[1..]
    else [fields[0]] + SetField(fields[1..], key, x)
  }

  /** `_.extend(v, {key: x})` on a plain object. Other values are returned
      unchanged (see the terminate operation for why this is enough). */
  function Extend(v: Value, key: string, x: Value): (r: Value)
    ensures v.Obj? ==> r.Obj? && Prop(r, key) == x
    ensures v.Obj? ==> forall k :: k != key ==> Prop(r, k) == Prop(v, k)
  {
    if v.Obj? then Obj(SetField(v.fields, key, x)) else v
  }
}
