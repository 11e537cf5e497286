/**
 * The JavaScript values and object graph that both accessors work on.
 *
 * An object (or a function, which can carry properties too) is a reference
 * into a store that maps it to its OWN properties. There is no prototype
 * chain: a key that is not in an object's map is simply not there, and
 * reading it gives `undefined`. Keys are strings; number-to-string coercion
 * and symbol keys are not modelled.
 */
module JsValues {

  type Key = string

  /** Identity of an object or function in the store. */
  type Ref = nat

  datatype Value =
    | Undefined
    | Null
    | Bool(b: bool)
    | Num(n: int)
    | Str(s: string)
    | Obj(ref: Ref)
    | Fn(ref: Ref)

  /** The own properties of one object. */
  type Props = map<Key, Value>

  /** Every object and function of the program, by reference. */
  type Store = map<Ref, Props>

  /** The result of JavaScript's `typeof` operator. */
  function TypeOf(v: Value): (t: string)
    ensures t == "object" <==> v.Null? || v.Obj?
    ensures t == "function" <==> v.Fn?
    ensures t == "undefined" <==> v.Undefined?
  {
    match v
    case Undefined => "undefined"
    case Null => "object"
    case Bool(_) => "boolean"
    case Num(_) => "number"
    case Str(_) => "string"
    case Obj(_) => "object"
    case Fn(_) => "function"
  }

  /** JavaScript truthiness (NaN is not a value of this model). */
  predicate Truthy(v: Value) {
    match v
    case Undefined => false
    case Null => false
    case Bool(b) => b
    case Num(n) => n != 0
    case Str(s) => s != ""
    case Obj(_) => true
    case Fn(_) => true
  }

  /** `obj[key]` on an object or function: its own property, or `undefined`. */
  function Read(s: Store, o: Ref, key: Key): (v: Value)
    ensures v != Undefined ==> o in s && key in s[o] && v == s[o][key]
  {
    if o in s && key in s[o] then s[o][key] else Undefined
  }
}
