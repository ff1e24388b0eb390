/**
 * The values the deployment validators receive (an untyped, JSON-like
 * JavaScript value) and the small value tests they import from
 * `@eximchain/api-types` and `util`.
 */
module Json {

  datatype Option<+T> = None | Some(value: T)

  /**
   * A JavaScript value as a validator sees it. `Undefined` is what reading
   * a missing property yields; numbers are integers (only their type and
   * whether they are zero matter to the validators).
   */
  datatype Value =
    | Undefined
    | Null
    | Bool(b: bool)
    | Number(n: int)
    | Str(s: string)
    | Array(items: seq<Value>)
    | Object(fields: map<string, Value>)

  /** The property read `v.key`: the property of an object, `Undefined` otherwise. */
  function Get(v: Value, key: string): Value
  {
    if v.Object? && key in v.fields then v.fields[key] else Undefined
  }

  /** JavaScript truthiness, which the validators use as "present". */
  predicate Truthy(v: Value)
  {
    match v
    case Undefined => false
    case Null => false
    case Bool(b) => b
    case Number(n) => n != 0
    case Str(s) => s != ""
    case Array(_) => true
    case Object(_) => true
  }

  /** `isObject`: the value is an object (not an array, not null). */
  predicate IsObject(v: Value)
  {
    v.Object?
  }

  /** `isString` */
  predicate IsString(v: Value)
  {
    v.Str?
  }

  /** `util.isNumber` */
  predicate IsNumber(v: Value)
  {
    v.Number?
  }

  /** `keysAreStrings(v, keys)`: an object in which every listed key holds a string. */
  predicate KeysAreStrings(v: Value, keys: set<string>)
  {
    IsObject(v) && forall k :: k in keys ==> IsString(Get(v, k))
  }

  /** `isStringMapping`: an object all of whose values are strings. */
  predicate IsStringMapping(v: Value)
  {
    IsObject(v) && forall k :: k in v.fields ==> IsString(v.fields[k])
  }

  /** `v` is an object holding every property of the object `w`, with the same value. */
  ghost predicate Extends(v: Value, w: Value)
  {
    && v.Object? && w.Object?
    && forall k :: k in w.fields ==> k in v.fields && v.fields[k] == w.fields[k]
  }
}
