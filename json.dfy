/** The JSON values that request and response bodies carry, with JavaScript's reading of them. */
module Json {

  /** A JSON value as the handlers see it; an absent key is `undefined`. Booleans and nested
      objects are not modelled. */
  datatype Value = Null | Text(s: string) | Number(x: real) | Strings(items: seq<string>)

  /** A JSON object such as `req.body` or a store entry. */
  type Object = map<string, Value>

  /** JavaScript truthiness: `null`, `""` and `0` are falsy; every array is truthy, even `[]`. */
  predicate Truthy(v: Value) {
    match v
    case Null => false
    case Text(s) => s != ""
    case Number(x) => x != 0.0
    case Strings(_) => true
  }

  /** `o.k` is truthy (an absent key reads as `undefined`, which is falsy). */
  predicate Present(o: Object, k: string) {
    k in o && Truthy(o[k])
  }

  /** `o.k || fallback`. */
  function Or(o: Object, k: string, fallback: Value): (r: Value)
    ensures Present(o, k) ==> r == o[k]
    ensures !Present(o, k) ==> r == fallback
  {
    if Present(o, k) then o[k] else fallback
  }

  /** `a === b` for JSON values: primitives compare by value, arrays by reference (never equal here). */
  predicate StrictEquals(a: Value, b: Value) {
    match (a, b)
    case (Null, Null) => true
    case (Text(s), Text(t)) => s == t
    case (Number(x), Number(y)) => x == y
    case _ => false
  }

  /** `o.k === v`, with an absent key reading as `undefined`, which equals no JSON value. */
  predicate KeyEquals(o: Object, k: string, v: Value) {
    k in o && StrictEquals(o[k], v)
  }

  /** `{ ...a, ...b }`: every key of either object, the value of `b` winning. */
  function Spread(a: Object, b: Object): (r: Object)
    ensures r.Keys == a.Keys + b.Keys
    ensures forall k :: k in b ==> r[k] == b[k]
    ensures forall k :: k in a && k !in b ==> r[k] == a[k]
  {
    a + b
  }
}
